/** The two fixed SQL statements of the warehouse agent, and what each one
    selects from a row of the `productos` table. */
module Queries {
  import opened Values
  import opened Text

  const SelectProductos := "SELECT * FROM productos WHERE "
  const InStockCondition := "stock_actual > 0"
  const LowStockCondition := "stock_actual < stock_minimo"

  /** `SELECT * FROM productos WHERE stock_actual > 0` */
  const InventorySql := SelectProductos + InStockCondition
  /** `SELECT * FROM productos WHERE stock_actual < stock_minimo` */
  const LowStockSql := SelectProductos + LowStockCondition

  /** MySQL's `WHERE stock_actual < stock_minimo` on a row: both columns non-NULL and ordered. */
  predicate LowStockWhere(row: map<string, Value>) {
    && "stock_actual" in row && row["stock_actual"].Int?
    && "stock_minimo" in row && row["stock_minimo"].Int?
    && row["stock_actual"].i < row["stock_minimo"].i
  }

  // Letters of the routing keywords that the pieces of the statements lack, in
  // either case ("inventario" has a v, "stock bajo" a j, "entrada" an n and an e).

  lemma SelectLetters()
    ensures SelectProductos == "SELECT * FROM productos WHERE" + [' ']
    ensures Avoids(SelectProductos, "vVjJnN")
  {
  }

  lemma InStockLetters()
    ensures Avoids(InStockCondition, "vVjJnN")
  {
  }

  lemma LowStockLetters()
    ensures Avoids(LowStockCondition, "vVjJeE")
  {
  }
}
