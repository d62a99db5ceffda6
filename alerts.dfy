/** The low-stock warnings the dashboard shows after an operation without a form:
    one warning per returned record whose `stock_actual` is below its
    `stock_minimo`, missing fields counting as 0. */
module Alerts {
  import opened Values
  import opened Queries

  /** One warning: the product's name and its current stock, as the record gave them. */
  datatype Warning = Warning(name: Value, actual: Value)

  /** What the loop body does with one item: nothing, a warning, or an exception
      raised by the comparison. */
  datatype Step = Skip | Warn(w: Warning) | Raise

  /** What the loop shows: its warnings, in order, and whether it stopped on an exception. */
  datatype Outcome = Outcome(warnings: seq<Warning>, raised: bool)

  /** The loop body for one item of `results`: an item is warned about exactly when it
      is a record on which Python's `stock_actual < stock_minimo`, with 0 for a missing
      field, holds, and the comparison raises exactly when Python's `<` does. */
  function ItemStep(item: Value): (s: Step)
    ensures !item.Dict? ==> s == Skip
    ensures s.Warn? <==>
      item.Dict? && Less(Get(item.entries, "stock_actual", Int(0)), Get(item.entries, "stock_minimo", Int(0))) == Some(true)
    ensures s.Raise? <==>
      item.Dict? && Less(Get(item.entries, "stock_actual", Int(0)), Get(item.entries, "stock_minimo", Int(0))).None?
    ensures s.Warn? ==> s.w == Warning(Get(item.entries, "nombre", Str("N/A")), Get(item.entries, "stock_actual", Int(0)))
  {
    if !item.Dict? then Skip
    else
      var actual := Get(item.entries, "stock_actual", Int(0));
      var minimo := Get(item.entries, "stock_minimo", Int(0));
      match Less(actual, minimo)
      case None => Raise
      case Some(low) => if low then Warn(Warning(Get(item.entries, "nombre", Str("N/A")), actual)) else Skip
  }

  /** The warning an item contributes, if any. */
  function Emitted(item: Value): seq<Warning> {
    if ItemStep(item).Warn? then [ItemStep(item).w] else []
  }

  /** The warnings of a run of items none of which raises: one filter step per item. */
  function Filter(items: seq<Value>): (ws: seq<Warning>)
    ensures |ws| <= |items|
    decreases |items|
  {
    if items == [] then [] else Filter(items[..|items| - 1]) + Emitted(items[|items| - 1])
  }

  /** The position of the first item whose comparison raises, or `|items|` if none does. */
  function FirstRaise(items: seq<Value>): (r: nat)
    ensures r <= |items|
    ensures forall m | 0 <= m < r :: !ItemStep(items[m]).Raise?
    ensures r < |items| ==> ItemStep(items[r]).Raise?
    decreases |items|
  {
    if items == [] then 0
    else if ItemStep(items[0]).Raise? then 0
    else 1 + FirstRaise(items[1..])
  }

  /** The loop over a list: the warnings before the first exception, and whether there
      was one. It raises exactly when some item's comparison raises; otherwise it shows
      the filter of all the items. */
  function AlertsOf(items: seq<Value>): (o: Outcome)
    ensures o.raised <==> exists i | 0 <= i < |items| :: ItemStep(items[i]).Raise?
    ensures !o.raised ==> o.warnings == Filter(items)
    ensures o.raised ==> o.warnings == Filter(items[..FirstRaise(items)])
    ensures |o.warnings| <= |items|
  {
    var r := FirstRaise(items);
    assert r == |items| ==> items[..r] == items;
    Outcome(Filter(items[..r]), r < |items|)
  }

  /** The warning step after an operation: `results` is iterated only when it is truthy;
      a string yields characters and a dictionary its keys, none of which is a record,
      and an integer or a boolean is not iterable. */
  function WarningStep(result: map<string, Value>): (o: Outcome)
    ensures !Truthy(Get(result, "results", Null)) ==> o == Outcome([], false)
    ensures Get(result, "results", Null).List? ==> o == AlertsOf(Get(result, "results", Null).items)
    ensures !Get(result, "results", Null).List? ==> o.warnings == []
    ensures var v := Get(result, "results", Null);
      !v.List? ==> (o.raised <==> Truthy(v) && (v.Int? || v.Bool?))
  {
    var results := Get(result, "results", Null);
    if !Truthy(results) then Outcome([], false)
    else match results
      case List(items) => AlertsOf(items)
      case Str(_) => Outcome([], false)
      case Dict(_) => Outcome([], false)
      case _ => Outcome([], true)
  }

  /** The loop of the dashboard, warning by warning. */
  method ShowAlerts(result: map<string, Value>) returns (warnings: seq<Warning>, raised: bool)
    ensures Outcome(warnings, raised) == WarningStep(result)
  {
    warnings, raised := [], false;
    var results := Get(result, "results", Null);
    if !Truthy(results) {
      return;
    }
    if !results.List? {
      raised := results.Int? || results.Bool?;
      return;
    }
    var items := results.items;
    var i := 0;
    while i < |items|
      invariant 0 <= i <= |items|
      invariant forall m | 0 <= m < i :: !ItemStep(items[m]).Raise?
      invariant warnings == Filter(items[..i])
    {
      var item := items[i];
      FilterStep(items, i);
      if item.Dict? {
        var actual := Get(item.entries, "stock_actual", Int(0));
        var minimo := Get(item.entries, "stock_minimo", Int(0));
        var low := Less(actual, minimo);
        if low.None? {
          assert FirstRaise(items) == i;
          raised := true;
          return;
        }
        if low.value {
          warnings := warnings + [Warning(Get(item.entries, "nombre", Str("N/A")), actual)];
        }
      }
      i := i + 1;
    }
    assert items[..i] == items;
    assert FirstRaise(items) == |items|;
  }

  // ---- Properties of the filter ----

  /** One more item adds its own warning, if any, at the end. */
  lemma FilterSnoc(a: seq<Value>, x: Value)
    ensures Filter(a + [x]) == Filter(a) + Emitted(x)
  {
    assert (a + [x])[..|a|] == a;
  }

  /** One loop step: the filter of the first `i + 1` items. */
  lemma FilterStep(items: seq<Value>, i: int)
    requires 0 <= i < |items|
    ensures Filter(items[..i + 1]) == Filter(items[..i]) + Emitted(items[i])
  {
    assert items[..i + 1] == items[..i] + [items[i]];
    FilterSnoc(items[..i], items[i]);
  }

  /** Warnings come in the order of the items: the filter of a concatenation is the
      concatenation of the filters. */
  lemma {:induction false} FilterAppend(a: seq<Value>, b: seq<Value>)
    ensures Filter(a + b) == Filter(a) + Filter(b)
    decreases |b|
  {
    if b == [] {
      assert a + b == a;
    } else {
      var c, x := b[..|b| - 1], b[|b| - 1];
      calc {
        Filter(a + b);
        { assert a + b == (a + c) + [x]; FilterSnoc(a + c, x); }
        Filter(a + c) + Emitted(x);
        { FilterAppend(a, c); }
        Filter(a) + Filter(c) + Emitted(x);
        { assert b == c + [x]; FilterSnoc(c, x); }
        Filter(a) + Filter(b);
      }
    }
  }

  /** A warning is shown exactly when some item produces it. */
  lemma {:induction false} FilterMembership(items: seq<Value>, w: Warning)
    ensures w in Filter(items) <==> exists i | 0 <= i < |items| :: ItemStep(items[i]) == Warn(w)
    decreases |items|
  {
    if items != [] {
      var n := |items| - 1;
      var init := items[..n];
      FilterMembership(init, w);
      if exists i | 0 <= i < |items| :: ItemStep(items[i]) == Warn(w) {
        var i :| 0 <= i < |items| && ItemStep(items[i]) == Warn(w);
        if i < n {
          assert ItemStep(init[i]) == Warn(w);
        }
      }
      if exists i | 0 <= i < |init| :: ItemStep(init[i]) == Warn(w) {
        var i :| 0 <= i < |init| && ItemStep(init[i]) == Warn(w);
        assert ItemStep(items[i]) == Warn(w);
      }
    }
  }

  /** Items that all warn give their warnings one by one, in order. */
  lemma {:induction false} FilterAllWarn(items: seq<Value>, ws: seq<Warning>)
    requires |ws| == |items|
    requires forall i | 0 <= i < |items| :: ItemStep(items[i]) == Warn(ws[i])
    ensures Filter(items) == ws
    decreases |items|
  {
    if items != [] {
      var n := |items| - 1;
      FilterAllWarn(items[..n], ws[..n]);
      assert ws == ws[..n] + [ws[n]];
    }
  }

  // ---- Properties of one item ----

  /** A record with neither field compares 0 with 0 and is never warned about. */
  lemma MissingBoth(row: map<string, Value>)
    requires "stock_actual" !in row && "stock_minimo" !in row
    ensures ItemStep(Dict(row)) == Skip
  {
  }

  /** A record without a minimum is warned about only when its stock is negative. */
  lemma MissingMinimum(row: map<string, Value>)
    requires "stock_minimo" !in row
    requires "stock_actual" in row && row["stock_actual"].Int?
    ensures ItemStep(Dict(row)).Warn? <==> row["stock_actual"].i < 0
    ensures ItemStep(Dict(row)) != Raise
  {
  }

  /** On integer columns the dashboard's test is the condition of the low-stock query:
      a record both columns of which are integers is warned about exactly when the
      query selects it. */
  lemma WarnIffLowStockWhere(row: map<string, Value>)
    requires "stock_actual" in row && row["stock_actual"].Int?
    requires "stock_minimo" in row && row["stock_minimo"].Int?
    ensures ItemStep(Dict(row)).Warn? <==> LowStockWhere(row)
    ensures ItemStep(Dict(row)) != Raise
  {
  }

  // ---- Properties of the whole step ----

  /** No warning at all, and no exception, when `results` is missing or empty. */
  lemma NoResults(result: map<string, Value>)
    requires "results" !in result || result["results"] == List([])
    ensures WarningStep(result) == Outcome([], false)
  {
  }

  /** Every product the low-stock query returns is warned about, once, in the order of
      the rows, and the loop runs to the end. */
  lemma LowStockRowsAllFlagged(rows: seq<map<string, Value>>)
    requires forall i | 0 <= i < |rows| :: LowStockWhere(rows[i])
    ensures WarningStep(map["results" := List(seq(|rows|, i requires 0 <= i < |rows| => Dict(rows[i])))]) ==
      Outcome(seq(|rows|, i requires 0 <= i < |rows| =>
        Warning(Get(rows[i], "nombre", Str("N/A")), Get(rows[i], "stock_actual", Int(0)))), false)
  {
    var items := seq(|rows|, i requires 0 <= i < |rows| => Dict(rows[i]));
    var ws := seq(|rows|, i requires 0 <= i < |rows| =>
      Warning(Get(rows[i], "nombre", Str("N/A")), Get(rows[i], "stock_actual", Int(0))));
    forall i | 0 <= i < |items| ensures ItemStep(items[i]) == Warn(ws[i]) {
      WarnIffLowStockWhere(rows[i]);
    }
    FilterAllWarn(items, ws);
  }
}
