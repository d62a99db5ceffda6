/** The warehouse agent (`BodegaAgent`): it reads a natural-language prompt,
    picks a SQL statement by an ordered, case-insensitive keyword test, and
    hands that statement with a fixed MySQL connection to the database agent.
    The database agent itself is outside this model, so `Run` returns the
    request it would receive. */
module BodegaAgent {
  import opened Text
  import opened Queries

  const Name := "Bodega Agent"
  const Description := "Agente especializado en gestión de inventario de bodega"
  const Capabilities := [
    "consultar_inventario",
    "registrar_entrada",
    "registrar_salida",
    "alertar_stock_bajo",
    "generar_reportes"
  ]

  const InventoryKeyword := "inventario"
  const LowStockKeyword := "stock bajo"
  const EntryKeyword := "entrada"


  /** Which arm of the keyword test a prompt falls into. */
  datatype Branch = Inventory | LowStock | Entry | Fallback

  /** The connection descriptor handed to the database agent. */
  datatype Connection = Connection(kind: string, database: string)

  const Mysql := Connection("mysql", "bodega_inventory")

  /** The input of the database agent: the statement and where to run it. */
  datatype Request = Request(prompt: string, connection: Connection)

  /** One entry of `get_options`. */
  datatype OptionSpec = OptionSpec(name: string, kind: string, description: string)

  /** The keyword test, in the order the agent applies it, on the lowercased prompt:
      the if/elif chain is the first-match-wins reading of `Rules`. */
  function Classify(prompt: string): (b: Branch)
    ensures b == FirstMatch(Rules, Lower(prompt))
  {
    var p := Lower(prompt);
    var r1, r2, r3 := Rules[1..], Rules[2..], Rules[3..];
    assert r1 == Rules[1..] && r1[1..] == r2 && r2[1..] == r3 && r3 == [];
    assert FirstMatch(r2, p) == if Contains(p, EntryKeyword) then Entry else Fallback;
    assert FirstMatch(r1, p) == if Contains(p, LowStockKeyword) then LowStock else FirstMatch(r2, p);
    if Contains(p, InventoryKeyword) then Inventory
    else if Contains(p, LowStockKeyword) then LowStock
    else if Contains(p, EntryKeyword) then Entry
    else Fallback
  }

  /** The statement each branch sends: a fixed query, or the prompt as it was typed. */
  function Translate(prompt: string): (sql: string)
    ensures sql == InventorySql || sql == LowStockSql || sql == prompt
  {
    match Classify(prompt)
    case Inventory => InventorySql
    case LowStock => LowStockSql
    case Entry => prompt
    case Fallback => prompt
  }

  /** `input_data.get("prompt", "")`. */
  function PromptOf(input: map<string, string>): (p: string)
    ensures "prompt" in input ==> p == input["prompt"]
    ensures "prompt" !in input ==> p == ""
  {
    if "prompt" in input then input["prompt"] else ""
  }

  /** `BodegaAgent.run`: the request handed to the database agent. */
  function Run(input: map<string, string>): (r: Request)
    ensures r.connection == Connection("mysql", "bodega_inventory")
    ensures r.prompt in {InventorySql, LowStockSql, PromptOf(input)}
  {
    Request(Translate(PromptOf(input)), Mysql)
  }

  /** `get_options`: the agent takes a single string option named `prompt`. */
  function GetOptions(): (opts: seq<OptionSpec>)
    ensures |opts| == 1 && opts[0].name == "prompt" && opts[0].kind == "string"
  {
    [OptionSpec("prompt", "string", "Operación de bodega a realizar")]
  }

  // ---- An independent statement of the keyword test ----

  /** The rules as data, highest priority first. */
  const Rules: seq<(string, Branch)> :=
    [(InventoryKeyword, Inventory), (LowStockKeyword, LowStock), (EntryKeyword, Entry)]

  /** First match wins: the branch of the first rule whose keyword occurs in `text`. */
  function FirstMatch(rules: seq<(string, Branch)>, text: string): Branch {
    if rules == [] then Fallback
    else if Contains(text, rules[0].0) then rules[0].1
    else FirstMatch(rules[1..], text)
  }

  // ---- Properties of the routing ----

  /** "inventario" wins over every other keyword. */
  lemma InventoryWins(prompt: string)
    requires Contains(Lower(prompt), InventoryKeyword)
    ensures Classify(prompt) == Inventory && Translate(prompt) == InventorySql
  {
  }

  /** The low-stock branch is taken exactly when "stock bajo" occurs and "inventario" does not. */
  lemma LowStockBranchIff(prompt: string)
    ensures Classify(prompt) == LowStock <==>
      Contains(Lower(prompt), LowStockKeyword) && !Contains(Lower(prompt), InventoryKeyword)
    ensures Translate(prompt) == LowStockSql <==> Classify(prompt) == LowStock || prompt == LowStockSql
  {
    if prompt == LowStockSql {
      FixedStatementsAreFallback();
    }
  }

  /** The "entrada" branch sends the prompt through exactly as the fallback does. */
  lemma EntryIsPassthrough(prompt: string)
    ensures Classify(prompt) == Entry <==>
      !Contains(Lower(prompt), InventoryKeyword) && !Contains(Lower(prompt), LowStockKeyword)
      && Contains(Lower(prompt), EntryKeyword)
    ensures Classify(prompt) in {Entry, Fallback} ==> Translate(prompt) == prompt
  {
  }

  /** The stock > 0 query contains no keyword, so it falls through to the fallback. */
  lemma InventorySqlIsFallback()
    ensures Classify(InventorySql) == Fallback
  {
    var cs := "vVjJnN";
    SelectLetters();
    InStockLetters();
    AvoidsConcat(SelectProductos, InStockCondition, cs);
    AbsentLetter(InventorySql, InventoryKeyword, 2, cs);
    AbsentLetter(InventorySql, LowStockKeyword, 8, cs);
    AbsentLetter(InventorySql, EntryKeyword, 1, cs);
  }

  /** The low-stock query contains no keyword, so it falls through to the fallback. */
  lemma LowStockSqlIsFallback()
    ensures Classify(LowStockSql) == Fallback
  {
    SelectLetters();
    LowStockLetters();
    var s := LowStockSql;
    var head, tail := "SELECT * FROM productos WHERE", LowStockCondition;
    assert Avoids(head, "vVjJnN") by {
      forall i | 0 <= i < |head| ensures head[i] == SelectProductos[i] { }
    }
    AvoidsConcat(SelectProductos, tail, "vVjJ");
    AbsentLetter(s, InventoryKeyword, 2, "vVjJ");
    AbsentLetter(s, LowStockKeyword, 8, "vVjJ");
    // "entrada" has no space: search the two sides of the space that ends the SELECT.
    AbsentLetter(head, EntryKeyword, 1, "vVjJnN");
    AbsentLetter(tail, EntryKeyword, 0, "vVjJeE");
    LowerConcat(head + [' '], tail);
    LowerConcat(head, [' ']);
    assert Lower(s) == Lower(head) + [' '] + Lower(tail);
    SplitAt(Lower(head), ' ', Lower(tail), EntryKeyword);
  }

  /** Neither fixed statement contains a keyword. */
  lemma FixedStatementsAreFallback()
    ensures Classify(InventorySql) == Fallback
    ensures Classify(LowStockSql) == Fallback
  {
    InventorySqlIsFallback();
    LowStockSqlIsFallback();
  }

  /** The prompt comes back unchanged exactly when it falls in the "entrada" or the fallback branch. */
  lemma PassthroughIff(prompt: string)
    ensures Translate(prompt) == prompt <==> Classify(prompt) in {Entry, Fallback}
  {
    FixedStatementsAreFallback();
  }

  /** Routing a statement the agent produced gives the same statement again. */
  lemma TranslateIdempotent(prompt: string)
    ensures Translate(Translate(prompt)) == Translate(prompt)
  {
    FixedStatementsAreFallback();
  }

  /** The test sees only the lowercased prompt; what is passed through keeps its case. */
  lemma CaseInsensitive(p: string, q: string)
    requires Lower(p) == Lower(q)
    ensures Classify(p) == Classify(q)
    ensures Translate(p) == Translate(q) || (Translate(p) == p && Translate(q) == q)
  {
  }

  /** A prompt and its lowercased form take the same branch. */
  lemma ClassifyLower(prompt: string)
    ensures Classify(Lower(prompt)) == Classify(prompt)
  {
    LowerIdempotent(prompt);
  }

  /** A missing prompt is the empty string, and it is forwarded as it is. */
  lemma MissingPrompt(input: map<string, string>)
    requires "prompt" !in input
    ensures Classify(PromptOf(input)) == Fallback
    ensures Run(input) == Request("", Mysql)
  {
    assert !Contains(Lower(""), InventoryKeyword) && !Contains(Lower(""), LowStockKeyword)
      && !Contains(Lower(""), EntryKeyword);
  }
}
