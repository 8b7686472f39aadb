/**
 * The returns calculator: the mid-price of the best bid and ask is written
 * into the caller's table, then each instrument's consecutive mid-prices, in
 * the table's existing row order, give one log-return per row; the first row
 * of an instrument and every row whose return is not finite are dropped.
 */
module Returns {
  import opened Wrappers
  import opened Values
  import opened Tables

  /** The columns `calculate_log_returns` checks for before anything else. */
  const ReturnInputs: seq<string> := ["symbol", "ts_event", "bid_px_00", "ask_px_00"]

  /** The columns of its result, in order. */
  const ReturnOutputs: seq<string> := ["symbol", "ts_event", "log_return"]

  /** `(bid + ask) / 2`, missing when either side is. */
  function MidPrice(bid: Value, ask: Value): Value {
    if bid.Num? && ask.Num? then Num((bid.x + ask.x) / 2.0) else Null
  }

  function RowMid(r: Row): Value {
    MidPrice(Cell(r, "bid_px_00"), Cell(r, "ask_px_00"))
  }

  /** The table with column `mid_price` set, row by row, to the mid-price of its best bid and ask. */
  function WithMid(t: Table): Table {
    SetColumn(t, "mid_price", MapSeq(t.rows, RowMid))
  }

  function Mid(r: Row): Value {
    Cell(r, "mid_price")
  }

  /**
   * `log(cur / prev)` when it is finite: both prices present, the previous
   * one not zero and the ratio positive. A zero divisor gives an infinite or
   * undefined ratio, a ratio of zero a logarithm of minus infinity, a
   * negative ratio an undefined logarithm; all of these are dropped.
   */
  function LogRatio(cur: Value, prev: Value, ln: real -> real): Option<real> {
    if cur.Num? && prev.Num? && prev.x != 0.0 && cur.x / prev.x > 0.0 then Some(ln(cur.x / prev.x)) else None
  }

  /** The projection of a row with a return onto the output columns. */
  function ReturnRow(r: Row, v: real): Row {
    map["symbol" := Cell(r, "symbol"), "ts_event" := Cell(r, "ts_event"), "log_return" := Num(v)]
  }

  /** One instrument's rows with a finite return, each paired with its predecessor in row order. */
  function GroupReturns(g: seq<Row>, ln: real -> real): seq<Row> {
    if |g| < 2 then []
    else
      GroupReturns(g[..|g| - 1], ln) +
      match LogRatio(Mid(g[|g| - 1]), Mid(g[|g| - 2]), ln)
      case Some(v) => [ReturnRow(g[|g| - 1], v)]
      case None => []
  }

  /** The instruments' returns, one instrument after the other. */
  function AllReturns(rows: seq<Row>, ks: seq<Key>, ln: real -> real): seq<Row> {
    if ks == [] then []
    else AllReturns(rows, ks[..|ks| - 1], ln) + GroupReturns(RowsWithKey(rows, SymbolKey, ks[|ks| - 1]), ln)
  }

  /** The returns of a table that already has its mid-prices. */
  function LogReturns(t: Table, ln: real -> real): Table {
    Table(ReturnOutputs, AllReturns(t.rows, GroupKeys(t.rows, SymbolKey), ln))
  }

  /**
   * `calculate_log_returns`, its result: the schema check, then the returns
   * of the mid-priced table. With no instrument to group, the per-group
   * `assign` never runs and the grouped frame is an empty frame with the
   * input's columns: looking up `log_return` fails unless the input already
   * had that column, in which case the result is empty.
   */
  function LogReturnsOf(t: Table, ln: real -> real): Result<Table> {
    if Missing(t.columns, ReturnInputs) != [] then Err(MissingColumns(ReturnInputs))
    else if GroupKeys(WithMid(t).rows, SymbolKey) == [] && "log_return" !in t.columns then Err(KeyNotFound(["log_return"]))
    else Ok(LogReturns(WithMid(t), ln))
  }

  /**
   * `calculate_log_returns`: on a table with the four input columns it adds
   * `mid_price` to the caller's table in place, whether or not the returns
   * can then be computed; a table without them is left alone.
   */
  method CalculateLogReturns(f: Frame, ln: real -> real) returns (r: Result<Table>)
    modifies f
    ensures r == LogReturnsOf(old(f.table), ln)
    ensures f.table == if r == Err(MissingColumns(ReturnInputs)) then old(f.table) else WithMid(old(f.table))
  {
    if Missing(f.table.columns, ReturnInputs) != [] {
      return Err(MissingColumns(ReturnInputs));
    }
    f.table := SetColumn(f.table, "mid_price", MapSeq(f.table.rows, RowMid));
    if GroupKeys(f.table.rows, SymbolKey) == [] && "log_return" !in f.table.columns {
      return Err(KeyNotFound(["log_return"]));
    }
    r := Ok(LogReturns(f.table, ln));
  }

  // ---------------------------------------------------------------------
  // Properties

  /**
   * It fails with the schema error exactly when one of the four input
   * columns is absent, and otherwise with the missing `log_return` exactly
   * when no row names an instrument and the input has no `log_return` column
   * of its own; with such a column and no instrument the result is empty.
   */
  lemma ReturnsSchema(t: Table, ln: real -> real)
    ensures LogReturnsOf(t, ln) == Err(MissingColumns(ReturnInputs)) <==> exists c :: c in ReturnInputs && c !in t.columns
    ensures LogReturnsOf(t, ln) == Err(KeyNotFound(["log_return"])) <==>
      (forall c :: c in ReturnInputs ==> c in t.columns) && "log_return" !in t.columns &&
      forall r :: r in t.rows ==> Cell(r, "symbol") == Null
    ensures (forall c :: c in ReturnInputs ==> c in t.columns) && "log_return" in t.columns &&
            (forall r :: r in t.rows ==> Cell(r, "symbol") == Null) ==>
      LogReturnsOf(t, ln) == Ok(Table(ReturnOutputs, []))
    ensures LogReturnsOf(t, ln).Err? ==>
      LogReturnsOf(t, ln) == Err(MissingColumns(ReturnInputs)) || LogReturnsOf(t, ln) == Err(KeyNotFound(["log_return"]))
  {
    var m := Missing(t.columns, ReturnInputs);
    if m != [] {
      assert m[0] in m;
    } else {
      forall c | c in ReturnInputs ensures c in t.columns {
        assert c !in m;
      }
      NoInstruments(t);
    }
  }

  /** The mid-priced table names no instrument exactly when the caller's table names none. */
  lemma NoInstruments(t: Table)
    ensures GroupKeys(WithMid(t).rows, SymbolKey) == [] <==> forall r :: r in t.rows ==> Cell(r, "symbol") == Null
  {
    var rows := WithMid(t).rows;
    NoGroupsIff(rows);
    assert (forall r :: r in rows ==> Cell(r, "symbol") == Null) <==> forall r :: r in t.rows ==> Cell(r, "symbol") == Null by {
      forall i | 0 <= i < |t.rows| ensures Cell(rows[i], "symbol") == Cell(t.rows[i], "symbol") {
        MidPriceWritten(t, i);
      }
    }
  }

  /** Every row of the caller's table gets the average of its best bid and ask; nothing else changes. */
  lemma MidPriceWritten(t: Table, i: nat)
    requires i < |t.rows|
    ensures WithMid(t).columns == AddAbsent(t.columns, "mid_price") && |WithMid(t).rows| == |t.rows|
    ensures var bid, ask := Cell(t.rows[i], "bid_px_00"), Cell(t.rows[i], "ask_px_00");
      var m := Mid(WithMid(t).rows[i]);
      (m.Num? <==> bid.Num? && ask.Num?) && (m.Num? ==> m.x == (bid.x + ask.x) / 2.0) &&
      forall c :: c != "mid_price" ==> Cell(WithMid(t).rows[i], c) == Cell(t.rows[i], c)
  {
  }

  /** `o` is the return of row `j` of `g` against row `j - 1`, and that return is finite. */
  predicate ReturnAt(o: Row, g: seq<Row>, j: int, ln: real -> real) {
    1 <= j < |g| && LogRatio(Mid(g[j]), Mid(g[j - 1]), ln).Some? &&
    o == ReturnRow(g[j], LogRatio(Mid(g[j]), Mid(g[j - 1]), ln).value)
  }

  /** Every return comes from a row and the one before it, never from an instrument's first row. */
  lemma {:induction false} GroupReturnsFrom(g: seq<Row>, ln: real -> real, o: Row)
    requires o in GroupReturns(g, ln)
    ensures exists j :: ReturnAt(o, g, j, ln)
  {
    var n := |g| - 1;
    var p := g[..n];
    if o in GroupReturns(p, ln) {
      GroupReturnsFrom(p, ln, o);
      var j :| ReturnAt(o, p, j, ln);
      assert g[j] == p[j] && g[j - 1] == p[j - 1];
      assert ReturnAt(o, g, j, ln);
    } else {
      assert g[n - 1] == g[|g| - 2];
      assert ReturnAt(o, g, n, ln);
    }
  }

  /** And every row after the first whose return is finite has its return in the result. */
  lemma {:induction false} GroupReturnsHas(g: seq<Row>, ln: real -> real, j: nat)
    requires 1 <= j < |g| && LogRatio(Mid(g[j]), Mid(g[j - 1]), ln).Some?
    ensures ReturnRow(g[j], LogRatio(Mid(g[j]), Mid(g[j - 1]), ln).value) in GroupReturns(g, ln)
  {
    var n := |g| - 1;
    if j < n {
      var p := g[..n];
      assert p[j] == g[j] && p[j - 1] == g[j - 1];
      GroupReturnsHas(p, ln, j);
    }
  }

  /** At most one return per row after the first, and exactly that many when every mid-price is positive. */
  lemma {:induction false} GroupReturnsCount(g: seq<Row>, ln: real -> real)
    requires g != []
    ensures |GroupReturns(g, ln)| <= |g| - 1
    ensures (forall i :: 0 <= i < |g| ==> Mid(g[i]).Num? && Mid(g[i]).x > 0.0) ==> |GroupReturns(g, ln)| == |g| - 1
  {
    if |g| >= 2 {
      var p := g[..|g| - 1];
      GroupReturnsCount(p, ln);
      if forall i :: 0 <= i < |g| ==> Mid(g[i]).Num? && Mid(g[i]).x > 0.0 {
        assert forall i :: 0 <= i < |p| ==> p[i] == g[i];
        var cur, prev := Mid(g[|g| - 1]), Mid(g[|g| - 2]);
        assert cur.x / prev.x > 0.0;
      }
    }
  }

  /** Every row of the concatenation is a return of one of the groups. */
  lemma {:induction false} AllReturnsFrom(rows: seq<Row>, ks: seq<Key>, ln: real -> real, i: nat)
    requires i < |AllReturns(rows, ks, ln)|
    ensures exists k :: k in ks && AllReturns(rows, ks, ln)[i] in GroupReturns(RowsWithKey(rows, SymbolKey, k), ln)
  {
    var p, z := ks[..|ks| - 1], ks[|ks| - 1];
    var a := AllReturns(rows, p, ln);
    var gz := GroupReturns(RowsWithKey(rows, SymbolKey, z), ln);
    assert AllReturns(rows, ks, ln) == a + gz;
    if i < |a| {
      AllReturnsFrom(rows, p, ln, i);
      var k :| k in p && a[i] in GroupReturns(RowsWithKey(rows, SymbolKey, k), ln);
      assert k in ks by { assert ks == p + [z]; }
    } else {
      assert AllReturns(rows, ks, ln)[i] == gz[i - |a|];
    }
  }

  /**
   * Every result row is the projection of a row of one instrument that has
   * a predecessor in that instrument's row order, with the finite log-return
   * of their mid-prices; it holds exactly the three output columns.
   */
  lemma ReturnsRows(t: Table, ln: real -> real, i: nat)
    requires i < |LogReturns(t, ln).rows|
    ensures var o := LogReturns(t, ln).rows[i];
      o.Keys == {"symbol", "ts_event", "log_return"} && Cell(o, "log_return").Num? &&
      exists k, j :: k in GroupKeys(t.rows, SymbolKey) && ReturnAt(o, RowsWithKey(t.rows, SymbolKey, k), j, ln)
  {
    var o := LogReturns(t, ln).rows[i];
    AllReturnsFrom(t.rows, GroupKeys(t.rows, SymbolKey), ln, i);
    var k :| k in GroupKeys(t.rows, SymbolKey) && o in GroupReturns(RowsWithKey(t.rows, SymbolKey, k), ln);
    var g := RowsWithKey(t.rows, SymbolKey, k);
    GroupReturnsFrom(g, ln, o);
    var j :| ReturnAt(o, g, j, ln);
    ReturnRowShape(g[j], LogRatio(Mid(g[j]), Mid(g[j - 1]), ln).value);
  }

  /** A projected row has exactly the three output columns and a numeric return. */
  lemma ReturnRowShape(r: Row, v: real)
    ensures ReturnRow(r, v).Keys == {"symbol", "ts_event", "log_return"}
    ensures Cell(ReturnRow(r, v), "log_return") == Num(v)
  {
  }

  // ---------------------------------------------------------------------
  // Per instrument

  /** The result rows of instrument `v`, in order. */
  function OfSymbol(rows: seq<Row>, v: Value): seq<Row> {
    if rows == [] then []
    else OfSymbol(rows[..|rows| - 1], v) + (if Cell(rows[|rows| - 1], "symbol") == v then [rows[|rows| - 1]] else [])
  }

  lemma {:induction false} OfSymbolAppend(a: seq<Row>, b: seq<Row>, v: Value)
    ensures OfSymbol(a + b, v) == OfSymbol(a, v) + OfSymbol(b, v)
  {
    if b != [] {
      var b', z := b[..|b| - 1], b[|b| - 1];
      OfSymbolAppend(a, b', v);
      assert (a + b)[..|a + b| - 1] == a + b' && (a + b)[|a + b| - 1] == z;
    } else {
      assert a + b == a;
    }
  }

  lemma {:induction false} OfSymbolAll(rows: seq<Row>, v: Value)
    requires forall i :: 0 <= i < |rows| ==> Cell(rows[i], "symbol") == v
    ensures OfSymbol(rows, v) == rows
  {
    if rows != [] {
      OfSymbolAll(rows[..|rows| - 1], v);
    }
  }

  lemma {:induction false} OfSymbolNone(rows: seq<Row>, v: Value)
    requires forall i :: 0 <= i < |rows| ==> Cell(rows[i], "symbol") != v
    ensures OfSymbol(rows, v) == []
  {
    if rows != [] {
      OfSymbolNone(rows[..|rows| - 1], v);
    }
  }

  /** The returns of one group carry that group's symbol. */
  lemma GroupReturnsSymbol(rows: seq<Row>, k: Key, ln: real -> real, i: nat)
    requires |k| == 1
    requires i < |GroupReturns(RowsWithKey(rows, SymbolKey, k), ln)|
    ensures Cell(GroupReturns(RowsWithKey(rows, SymbolKey, k), ln)[i], "symbol") == k[0]
  {
    var g := RowsWithKey(rows, SymbolKey, k);
    var o := GroupReturns(g, ln)[i];
    GroupReturnsFrom(g, ln, o);
    var j :| ReturnAt(o, g, j, ln);
    assert g[j] in g;
    assert KeyOf(g[j], SymbolKey) == k;
  }

  /** Filtering one group's returns by a symbol keeps all of them or none. */
  lemma GroupOfSymbol(rows: seq<Row>, z: Key, ln: real -> real, k: Key)
    requires |z| == 1 && |k| == 1
    ensures OfSymbol(GroupReturns(RowsWithKey(rows, SymbolKey, z), ln), k[0]) ==
      if z == k then GroupReturns(RowsWithKey(rows, SymbolKey, z), ln) else []
  {
    var gz := GroupReturns(RowsWithKey(rows, SymbolKey, z), ln);
    forall i | 0 <= i < |gz| ensures Cell(gz[i], "symbol") == z[0] {
      GroupReturnsSymbol(rows, z, ln, i);
    }
    assert k == [k[0]] && z == [z[0]];
    if z == k {
      OfSymbolAll(gz, k[0]);
    } else {
      OfSymbolNone(gz, k[0]);
    }
  }

  lemma {:induction false} AllReturnsOfSymbol(rows: seq<Row>, ks: seq<Key>, ln: real -> real, k: Key)
    requires Distinct(ks) && (forall i :: 0 <= i < |ks| ==> |ks[i]| == 1) && |k| == 1
    ensures OfSymbol(AllReturns(rows, ks, ln), k[0]) == if k in ks then GroupReturns(RowsWithKey(rows, SymbolKey, k), ln) else []
  {
    if ks != [] {
      var p, z := ks[..|ks| - 1], ks[|ks| - 1];
      var gk := GroupReturns(RowsWithKey(rows, SymbolKey, k), ln);
      var gz := GroupReturns(RowsWithKey(rows, SymbolKey, z), ln);
      var before := OfSymbol(AllReturns(rows, p, ln), k[0]);
      assert OfSymbol(AllReturns(rows, ks, ln), k[0]) == before + OfSymbol(gz, k[0]) by {
        OfSymbolAppend(AllReturns(rows, p, ln), gz, k[0]);
      }
      assert before == if k in p then gk else [] by {
        assert Distinct(p);
        AllReturnsOfSymbol(rows, p, ln, k);
      }
      assert OfSymbol(gz, k[0]) == if z == k then gz else [] by {
        GroupOfSymbol(rows, z, ln, k);
      }
      assert k in ks <==> k in p || z == k by { assert ks == p + [z]; }
      if z == k {
        assert k !in p by {
          forall i | 0 <= i < |p| ensures p[i] != k { assert ks[i] != ks[|ks| - 1]; }
        }
      }
    }
  }

  /**
   * The result rows of an instrument are its group's returns: an instrument
   * with N rows has at most N - 1 of them, and exactly N - 1 when all its
   * mid-prices are positive.
   */
  lemma ReturnsOfSymbol(t: Table, ln: real -> real, s: Value)
    requires s != Null
    ensures var g := RowsWithKey(t.rows, SymbolKey, [s]);
      OfSymbol(LogReturns(t, ln).rows, s) == GroupReturns(g, ln) &&
      (g != [] ==> |OfSymbol(LogReturns(t, ln).rows, s)| <= |g| - 1) &&
      (g != [] && (forall i :: 0 <= i < |g| ==> Mid(g[i]).Num? && Mid(g[i]).x > 0.0) ==>
         |OfSymbol(LogReturns(t, ln).rows, s)| == |g| - 1)
  {
    var ks := GroupKeys(t.rows, SymbolKey);
    forall i | 0 <= i < |ks| ensures |ks[i]| == 1 {
      assert ks[i] in KeySet(t.rows, SymbolKey);
    }
    AllReturnsOfSymbol(t.rows, ks, ln, [s]);
    var g := RowsWithKey(t.rows, SymbolKey, [s]);
    if [s] !in ks {
      forall r | r in t.rows ensures KeyOf(r, SymbolKey) != [s] {
        assert Complete([s]);
      }
      RowsWithKeyAbsent(t.rows, SymbolKey, [s]);
    }
    if g != [] {
      GroupReturnsCount(g, ln);
    }
  }
}
