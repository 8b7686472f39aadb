/**
 * The preprocessor and the cross-impact estimator. The preprocessor collapses
 * rows that share a (time, instrument) key into their means. The estimator
 * pivots the joined table into a time-by-instrument matrix of integrated OFI
 * and one of returns, and for each target instrument regresses its returns on
 * the standardised OFI of every instrument at the same times, storing one
 * coefficient row per target.
 */
module CrossImpact {
  import opened Wrappers
  import opened Values
  import opened Tables

  /** The (time, instrument) key both functions work by. */
  const PairKey: seq<string> := ["ts_event", "symbol"]

  /** The columns the preprocessor averages. */
  const MeanColumns: seq<string> := ["ofi_pca", "log_return", "mid_price"]

  /** The columns of a collapsed table, in order. */
  const CollapsedColumns: seq<string> := ["ts_event", "symbol", "ofi_pca", "log_return", "mid_price"]

  /** Some (time, instrument) key occurs in two rows; missing parts count as equal, as `duplicated` has them. */
  predicate HasDuplicates(rows: seq<Row>) {
    exists i, j :: 0 <= i < j < |rows| && KeyOf(rows[i], PairKey) == KeyOf(rows[j], PairKey)
  }

  // ---------------------------------------------------------------------
  // Means skipping missing cells

  /** The number of cells of column `c` that hold a number. */
  function CountIn(rows: seq<Row>, c: string): nat {
    if rows == [] then 0
    else CountIn(rows[..|rows| - 1], c) + (if Cell(rows[|rows| - 1], c).Num? then 1 else 0)
  }

  /** pandas' `mean`: the average of the numbers, missing when there are none. */
  function MeanIn(rows: seq<Row>, c: string): Value {
    if CountIn(rows, c) == 0 then Null else Num(SumIn(rows, c) / CountIn(rows, c) as real)
  }

  /** The mean is missing exactly when no cell holds a number, and otherwise times the count gives the sum. */
  lemma {:induction false} MeanInMeans(rows: seq<Row>, c: string)
    ensures MeanIn(rows, c) == Null <==> forall i :: 0 <= i < |rows| ==> !Cell(rows[i], c).Num?
    ensures MeanIn(rows, c).Num? ==> MeanIn(rows, c).x * CountIn(rows, c) as real == SumIn(rows, c)
  {
    CountInZero(rows, c);
  }

  lemma {:induction false} CountInZero(rows: seq<Row>, c: string)
    ensures CountIn(rows, c) == 0 <==> forall i :: 0 <= i < |rows| ==> !Cell(rows[i], c).Num?
  {
    if rows != [] {
      var p := rows[..|rows| - 1];
      CountInZero(p, c);
      assert forall i :: 0 <= i < |p| ==> p[i] == rows[i];
    }
  }

  // ---------------------------------------------------------------------
  // preprocess_data

  function KeyPart(k: Key, i: nat): Value {
    if i < |k| then k[i] else Null
  }

  /** The collapsed row of key `k`: the key, and the means over its rows. */
  function MeanRow(k: Key, g: seq<Row>): Row {
    map["ts_event" := KeyPart(k, 0), "symbol" := KeyPart(k, 1),
        "ofi_pca" := MeanIn(g, "ofi_pca"), "log_return" := MeanIn(g, "log_return"), "mid_price" := MeanIn(g, "mid_price")]
  }

  /** The grouped table: one row per complete (time, instrument) key, in key order, holding the key and the three means. */
  function Collapsed(t: Table): Table {
    Table(CollapsedColumns, MapSeq(GroupKeys(t.rows, PairKey), k => MeanRow(k, RowsWithKey(t.rows, PairKey, k))))
  }

  /**
   * `preprocess_data`: the key columns must exist; a table without repeated
   * keys passes through unchanged, any other is collapsed to its means.
   */
  function Preprocess(t: Table): Result<Table> {
    if Missing(t.columns, PairKey) != [] then Err(KeyNotFound(Missing(t.columns, PairKey)))
    else if !HasDuplicates(t.rows) then Ok(t)
    else if Missing(t.columns, MeanColumns) != [] then Err(KeyNotFound(Missing(t.columns, MeanColumns)))
    else Ok(Collapsed(t))
  }

  /** A collapsed row's key is the key it was made for. */
  lemma MeanRowKey(k: Key, g: seq<Row>)
    requires |k| == 2
    ensures KeyOf(MeanRow(k, g), PairKey) == k
  {
    assert KeyOf(MeanRow(k, g), PairKey) == [k[0], k[1]];
  }

  /** The groupby keys on (time, instrument) have two parts. */
  lemma PairKeysLength(t: Table, k: Key)
    requires k in GroupKeys(t.rows, PairKey)
    ensures |k| == 2
  {
    assert k in KeySet(t.rows, PairKey);
  }

  /**
   * The collapsed table has one row per complete key of the input, in key
   * order; each holds that key, the means of its rows and no other column.
   */
  lemma CollapsedRows(t: Table, i: nat)
    requires i < |Collapsed(t).rows|
    ensures var k, row := GroupKeys(t.rows, PairKey)[i], Collapsed(t).rows[i];
      var g := RowsWithKey(t.rows, PairKey, k);
      k in KeySet(t.rows, PairKey) && KeyOf(row, PairKey) == k &&
      row.Keys == {"ts_event", "symbol", "ofi_pca", "log_return", "mid_price"} &&
      Cell(row, "ofi_pca") == MeanIn(g, "ofi_pca") && Cell(row, "log_return") == MeanIn(g, "log_return") &&
      Cell(row, "mid_price") == MeanIn(g, "mid_price")
  {
    var ks := GroupKeys(t.rows, PairKey);
    assert ks[i] in ks;
    PairKeysLength(t, ks[i]);
    MeanRowKey(ks[i], RowsWithKey(t.rows, PairKey, ks[i]));
  }

  /** Every complete key of the input has its row. */
  lemma CollapsedCovers(t: Table, k: Key)
    requires k in KeySet(t.rows, PairKey)
    ensures exists i :: 0 <= i < |Collapsed(t).rows| && KeyOf(Collapsed(t).rows[i], PairKey) == k
  {
    var ks := GroupKeys(t.rows, PairKey);
    var i :| 0 <= i < |ks| && ks[i] == k;
    CollapsedRows(t, i);
  }

  /** No key repeats in the collapsed table. */
  lemma CollapsedUnique(t: Table)
    ensures !HasDuplicates(Collapsed(t).rows)
  {
    var rows := Collapsed(t).rows;
    var ks := GroupKeys(t.rows, PairKey);
    forall i, j | 0 <= i < j < |rows| ensures KeyOf(rows[i], PairKey) != KeyOf(rows[j], PairKey) {
      CollapsedRows(t, i);
      CollapsedRows(t, j);
      assert ks[i] != ks[j];
    }
  }

  /** Collapsing happens only on repeated keys, and it removes every repetition. */
  lemma PreprocessOutcome(t: Table)
    requires Preprocess(t).Ok?
    ensures !HasDuplicates(t.rows) ==> Preprocess(t).value == t
    ensures HasDuplicates(t.rows) ==> Preprocess(t).value == Collapsed(t) && !HasDuplicates(Preprocess(t).value.rows)
  {
    CollapsedUnique(t);
  }

  /** `preprocess_data` applied to its own result returns that result. */
  lemma PreprocessIdempotent(t: Table)
    requires Preprocess(t).Ok?
    ensures Preprocess(Preprocess(t).value) == Preprocess(t)
  {
    if HasDuplicates(t.rows) {
      CollapsedUnique(t);
      assert Missing(CollapsedColumns, PairKey) == [];
    }
  }

  // ---------------------------------------------------------------------
  // pivot(index="ts_event", columns="symbol", values=c)

  const TimeKey: seq<string> := ["ts_event"]

  /** The columns the first pivot needs. */
  const OfiPivotColumns: seq<string> := ["ts_event", "symbol", "ofi_pca"]

  /** A time-by-instrument matrix of cells. */
  type Grid = seq<seq<Value>>

  /** The pivot's index: the times of the rows with a complete key, ascending, each once. */
  function Times(t: Table): seq<Value> {
    MapSeq(GroupKeys(CompleteRows(t.rows, PairKey), TimeKey), k => KeyPart(k, 0))
  }

  /** The pivot's columns: the instruments of the rows with a complete key, ascending, each once. */
  function Symbols(t: Table): seq<Value> {
    MapSeq(GroupKeys(CompleteRows(t.rows, PairKey), SymbolKey), k => KeyPart(k, 0))
  }

  /** The value of column `c` in the row keyed (ts, s), missing when there is none. */
  function PivotCell(rows: seq<Row>, ts: Value, s: Value, c: string): Value {
    var g := RowsWithKey(rows, PairKey, [ts, s]);
    if g == [] then Null else Cell(g[0], c)
  }

  /** The pivoted matrix of column `c`: one line per time, one entry per instrument. */
  function PivotOf(t: Table, c: string): (m: Grid)
    ensures |m| == |Times(t)| && forall i :: 0 <= i < |m| ==> |m[i]| == |Symbols(t)|
  {
    MapSeq(Times(t), ts => MapSeq(Symbols(t), s => PivotCell(t.rows, ts, s, c)))
  }

  /** Two rows of a table without repeated keys that share a key are the same row. */
  lemma UniqueKeyRow(rows: seq<Row>, a: Row, b: Row)
    requires !HasDuplicates(rows)
    requires a in rows && b in rows && KeyOf(a, PairKey) == KeyOf(b, PairKey)
    ensures a == b
  {
    var i :| 0 <= i < |rows| && rows[i] == a;
    var j :| 0 <= j < |rows| && rows[j] == b;
    assert KeyOf(rows[i], PairKey) == KeyOf(rows[j], PairKey);
  }

  /** A row's key in terms of its two cells. */
  lemma PairKeyCells(r: Row)
    ensures KeyOf(r, PairKey) == [Cell(r, "ts_event"), Cell(r, "symbol")]
    ensures KeyOf(r, TimeKey) == [Cell(r, "ts_event")] && KeyOf(r, SymbolKey) == [Cell(r, "symbol")]
  {
  }

  /** Without repeated keys, the pivot cell at a row's own key holds that row's value. */
  lemma PivotCellOfRow(rows: seq<Row>, r: Row, c: string)
    requires !HasDuplicates(rows) && r in rows
    ensures PivotCell(rows, Cell(r, "ts_event"), Cell(r, "symbol"), c) == Cell(r, c)
  {
    var k := KeyOf(r, PairKey);
    PairKeyCells(r);
    RowsWithKeyHas(rows, PairKey, k, r);
    var g := RowsWithKey(rows, PairKey, k);
    assert g[0] in g;
    UniqueKeyRow(rows, g[0], r);
  }

  /** A pivot cell that holds something comes from a row with that key. */
  lemma PivotCellFrom(rows: seq<Row>, ts: Value, s: Value, c: string)
    requires PivotCell(rows, ts, s, c) != Null
    ensures exists r :: r in rows && KeyOf(r, PairKey) == [ts, s] && Cell(r, c) == PivotCell(rows, ts, s, c)
  {
    var g := RowsWithKey(rows, PairKey, [ts, s]);
    assert g[0] in g;
  }

  /** The position of a row's time in the pivot's index. */
  lemma TimeIndex(t: Table, r: Row) returns (i: nat)
    requires r in t.rows && Complete(KeyOf(r, PairKey))
    ensures i < |Times(t)| && Times(t)[i] == Cell(r, "ts_event")
  {
    var cr := CompleteRows(t.rows, PairKey);
    CompleteRowsMembers(t.rows, PairKey, r);
    PairKeyCells(r);
    var k := KeyOf(r, TimeKey);
    assert Complete(k);
    assert k in KeySet(cr, TimeKey);
    var ks := GroupKeys(cr, TimeKey);
    i :| 0 <= i < |ks| && ks[i] == k;
  }

  /** The position of a row's instrument among the pivot's columns. */
  lemma SymbolIndex(t: Table, r: Row) returns (j: nat)
    requires r in t.rows && Complete(KeyOf(r, PairKey))
    ensures j < |Symbols(t)| && Symbols(t)[j] == Cell(r, "symbol")
  {
    var cr := CompleteRows(t.rows, PairKey);
    CompleteRowsMembers(t.rows, PairKey, r);
    PairKeyCells(r);
    var k := KeyOf(r, SymbolKey);
    assert Complete(k);
    assert k in KeySet(cr, SymbolKey);
    var ks := GroupKeys(cr, SymbolKey);
    j :| 0 <= j < |ks| && ks[j] == k;
  }

  /**
   * Without repeated keys, every row with a complete key has its value at
   * its (time, instrument) place in the pivot.
   */
  lemma PivotPlacesRow(t: Table, r: Row, c: string) returns (i: nat, j: nat)
    requires !HasDuplicates(t.rows) && r in t.rows && Complete(KeyOf(r, PairKey))
    ensures i < |Times(t)| && j < |Symbols(t)|
    ensures Times(t)[i] == Cell(r, "ts_event") && Symbols(t)[j] == Cell(r, "symbol")
    ensures PivotOf(t, c)[i][j] == Cell(r, c)
  {
    i := TimeIndex(t, r);
    j := SymbolIndex(t, r);
    PivotCellOfRow(t.rows, r, c);
  }

  /** Keys of one part, told apart by that part. */
  lemma KeyPartDistinct(ks: seq<Key>)
    requires Distinct(ks) && forall i :: 0 <= i < |ks| ==> |ks[i]| == 1
    ensures Distinct(MapSeq(ks, k => KeyPart(k, 0)))
  {
    forall a, b | 0 <= a < b < |ks| ensures KeyPart(ks[a], 0) != KeyPart(ks[b], 0) {
      assert ks[a] == [ks[a][0]] && ks[b] == [ks[b][0]];
    }
  }

  /** The pivot's index and columns hold each time and each instrument once. */
  lemma AxesDistinct(t: Table)
    ensures Distinct(Times(t)) && Distinct(Symbols(t))
  {
    var cr := CompleteRows(t.rows, PairKey);
    var tk, sk := GroupKeys(cr, TimeKey), GroupKeys(cr, SymbolKey);
    assert forall i :: 0 <= i < |tk| ==> tk[i] in KeySet(cr, TimeKey);
    assert forall i :: 0 <= i < |sk| ==> sk[i] in KeySet(cr, SymbolKey);
    KeyPartDistinct(tk);
    KeyPartDistinct(sk);
  }

  // ---------------------------------------------------------------------
  // One target: the observed returns and the standardised OFI at their times

  /** Entry (i, j) of a grid, missing outside it. */
  function At(m: Grid, i: nat, j: nat): Value {
    if i < |m| && j < |m[i]| then m[i][j] else Null
  }

  /** The lines below `k` at which instrument `j` has a return: `dropna`, in time order. */
  function ObservedBelow(ret: Grid, j: nat, k: nat): (obs: seq<nat>)
    ensures forall a :: 0 <= a < |obs| ==> obs[a] < k
    ensures forall i: nat :: i in obs <==> i < k && At(ret, i, j).Num?
    ensures forall a, b :: 0 <= a < b < |obs| ==> obs[a] < obs[b]
  {
    if k == 0 then []
    else
      var prev := ObservedBelow(ret, j, k - 1);
      prev + (if At(ret, k - 1, j).Num? then [k - 1] else [])
  }

  /** The times at which target `j` has a return, in time order: the index of its non-missing returns. */
  function Observed(ret: Grid, j: nat): seq<nat> {
    ObservedBelow(ret, j, |ret|)
  }

  /** `y`: the target's returns at the observed times. */
  function Responses(ret: Grid, j: nat, obs: seq<nat>): seq<real> {
    MapSeq(obs, i => Addend(At(ret, i, j)))
  }

  /** The design matrix: every instrument's OFI at the observed times, a missing OFI read as 0. */
  function Design(ofi: Grid, obs: seq<nat>, n: nat): (x: seq<seq<real>>)
    ensures |x| == |obs| && forall r :: 0 <= r < |x| ==> |x[r]| == n
  {
    MapSeq(obs, i => seq(n, p requires 0 <= p < n => Addend(At(ofi, i, p))))
  }

  /** Entry (r, p) of a real matrix, 0 outside it. */
  function Entry(x: seq<seq<real>>, r: nat, p: nat): real {
    if r < |x| && p < |x[r]| then x[r][p] else 0.0
  }

  /** Column `p` of a real matrix. */
  function ColumnOf(x: seq<seq<real>>, p: nat): (col: seq<real>)
    ensures |col| == |x|
  {
    seq(|x|, r requires 0 <= r < |x| => Entry(x, r, p))
  }

  function Sum(xs: seq<real>): real {
    if xs == [] then 0.0 else Sum(xs[..|xs| - 1]) + xs[|xs| - 1]
  }

  /** The sum of squared deviations from `a`. */
  function SqDev(xs: seq<real>, a: real): real {
    if xs == [] then 0.0 else SqDev(xs[..|xs| - 1], a) + (xs[|xs| - 1] - a) * (xs[|xs| - 1] - a)
  }

  /** `mean()` of a column. */
  function Mean(xs: seq<real>): real
    requires |xs| > 0
  {
    Sum(xs) / |xs| as real
  }

  /** The sample variance (`ddof=1`), defined from two entries on. */
  function Variance(xs: seq<real>): real
    requires |xs| >= 2
  {
    SqDev(xs, Mean(xs)) / (|xs| - 1) as real
  }

  /** `std()` of a column; the square root is a parameter. */
  function Std(xs: seq<real>, sqrt: real -> real): real
    requires |xs| >= 2
  {
    sqrt(Variance(xs))
  }

  /** The floor `X_std[X_std == 0] = 1e-10`: a zero deviation becomes 1e-10; it is never zero and otherwise unchanged. */
  function Divisor(s: real): (d: real)
    ensures d != 0.0 && (s != 0.0 ==> d == s) && (s == 0.0 ==> d == 0.0000000001)
  {
    if s == 0.0 then 0.0000000001 else s
  }

  /** Each entry less its column mean, divided by its column deviation after the floor. */
  function Standardized(x: seq<seq<real>>, n: nat, sqrt: real -> real): (z: seq<seq<real>>)
    requires |x| >= 2
    ensures |z| == |x| && forall r :: 0 <= r < |z| ==> |z[r]| == n
  {
    seq(|x|, r requires 0 <= r < |x| =>
      seq(n, p requires 0 <= p < n => (Entry(x, r, p) - Mean(ColumnOf(x, p))) / Divisor(Std(ColumnOf(x, p), sqrt))))
  }

  /** LassoCV's `fit` and `coef_`: coefficients for a design and responses, or none when it fails. */
  type Fitter = (seq<seq<real>>, seq<real>) -> Option<seq<real>>

  /**
   * The coefficients of target `j`: fewer than two observed returns leave
   * the deviation undefined and the fit fails; so does a failing fit; a
   * coefficient vector of the wrong length cannot be stored.
   */
  function TargetFit(ofi: Grid, ret: Grid, j: nat, n: nat, sqrt: real -> real, fit: Fitter): (r: Result<seq<real>>)
    ensures r.Ok? ==> |r.value| == n && |Observed(ret, j)| >= 2
    ensures r.Err? ==> r.error == FitFailed || r.error == LengthMismatch
  {
    var obs := Observed(ret, j);
    if |obs| < 2 then Err(FitFailed)
    else
      match fit(Standardized(Design(ofi, obs, n), n, sqrt), Responses(ret, j, obs))
      case None => Err(FitFailed)
      case Some(c) => if |c| != n then Err(LengthMismatch) else Ok(c)
  }

  /** The coefficient rows of the first `k` targets, or the first target's error. */
  function Fits(ofi: Grid, ret: Grid, n: nat, k: nat, sqrt: real -> real, fit: Fitter): (r: Result<seq<seq<real>>>)
    ensures r.Ok? ==> |r.value| == k && forall i :: 0 <= i < k ==>
      TargetFit(ofi, ret, i, n, sqrt, fit).Ok? && r.value[i] == TargetFit(ofi, ret, i, n, sqrt, fit).value
    ensures r.Ok? <==> forall i :: 0 <= i < k ==> TargetFit(ofi, ret, i, n, sqrt, fit).Ok?
  {
    if k == 0 then Ok([])
    else
      match Fits(ofi, ret, n, k - 1, sqrt, fit)
      case Err(e) => Err(e)
      case Ok(rs) =>
        match TargetFit(ofi, ret, k - 1, n, sqrt, fit)
        case Err(e) => Err(e)
        case Ok(c) => Ok(rs + [c])
  }

  /** A row of coefficients as table cells. */
  function NumRow(c: seq<real>): (v: seq<Value>)
    ensures |v| == |c| && forall p :: 0 <= p < |c| ==> v[p] == Num(c[p])
  {
    MapSeq(c, x => Num(x))
  }

  /** The coefficient table: one row per target instrument, one column per predictor instrument. */
  datatype Coefs = Coefs(targets: seq<Value>, predictors: seq<Value>, rows: seq<seq<Value>>)

  /** `contemporaneous_cross_impact`, as a value. */
  function CrossImpact(t: Table, sqrt: real -> real, fit: Fitter): Result<Coefs> {
    if Missing(t.columns, OfiPivotColumns) != [] then Err(KeyNotFound(Missing(t.columns, OfiPivotColumns)))
    else if HasDuplicates(t.rows) then Err(DuplicateEntries)
    else if "log_return" !in t.columns then Err(KeyNotFound(["log_return"]))
    else
      var syms := Symbols(t);
      match Fits(PivotOf(t, "ofi_pca"), PivotOf(t, "log_return"), |syms|, |syms|, sqrt, fit)
      case Err(e) => Err(e)
      case Ok(rs) => Ok(Coefs(syms, syms, MapSeq(rs, NumRow)))
  }

  /** Once a target fails, the loop stops with that target's error. */
  lemma {:induction false} FitsStops(ofi: Grid, ret: Grid, n: nat, k: nat, m: nat, sqrt: real -> real, fit: Fitter)
    requires k < m
    requires Fits(ofi, ret, n, k, sqrt, fit).Ok? && TargetFit(ofi, ret, k, n, sqrt, fit).Err?
    ensures Fits(ofi, ret, n, m, sqrt, fit) == Err(TargetFit(ofi, ret, k, n, sqrt, fit).error)
  {
    if m > k + 1 {
      FitsStops(ofi, ret, n, k, m - 1, sqrt, fit);
    }
  }

  // ---------------------------------------------------------------------
  // The estimator, step by step

  /** The floor `X_std[X_std == 0] = 1e-10`, in place: every zero deviation becomes 1e-10. */
  method FloorStd(std: array<real>)
    modifies std
    ensures forall p :: 0 <= p < std.Length ==> std[p] == Divisor(old(std[p]))
  {
    for p := 0 to std.Length
      invariant forall q :: 0 <= q < p ==> std[q] == Divisor(old(std[q]))
      invariant forall q :: p <= q < std.Length ==> std[q] == old(std[q])
    {
      if std[p] == 0.0 {
        std[p] := 0.0000000001;
      }
    }
  }

  /** One pass of the per-target loop for target `j`: select, fill, standardise through the floored deviations, fit. */
  method FitTarget(ofi: Grid, ret: Grid, j: nat, n: nat, sqrt: real -> real, fit: Fitter) returns (r: Result<seq<real>>)
    ensures r == TargetFit(ofi, ret, j, n, sqrt, fit)
  {
    var obs := Observed(ret, j);
    if |obs| < 2 {
      return Err(FitFailed);
    }
    var x := Design(ofi, obs, n);
    var mean := seq(n, p requires 0 <= p < n => Mean(ColumnOf(x, p)));
    var std := new real[n](p => Std(ColumnOf(x, p), sqrt));
    FloorStd(std);
    var d := std[..];
    var z := seq(|x|, r requires 0 <= r < |x| => seq(n, p requires 0 <= p < n => (Entry(x, r, p) - mean[p]) / d[p]));
    assert z == Standardized(x, n, sqrt) by {
      var z' := Standardized(x, n, sqrt);
      forall r | 0 <= r < |x| ensures z[r] == z'[r] {
        assert forall p :: 0 <= p < n ==> z[r][p] == z'[r][p];
      }
    }
    var c := fit(z, Responses(ret, j, obs));
    if c.None? {
      return Err(FitFailed);
    }
    if |c.value| != n {
      return Err(LengthMismatch);
    }
    return Ok(c.value);
  }

  /** `cross_impact_coef.loc[target_stock] = lasso.coef_`: the coefficients become row `k` of the table; the other rows keep their cells. */
  method StoreRow(coef: array2<Value>, k: nat, c: seq<real>)
    requires k < coef.Length0 && |c| == coef.Length1
    modifies coef
    ensures forall p :: 0 <= p < coef.Length1 ==> coef[k, p] == Num(c[p])
    ensures forall i, p :: 0 <= i < coef.Length0 && i != k && 0 <= p < coef.Length1 ==> coef[i, p] == old(coef[i, p])
  {
    for p := 0 to coef.Length1
      invariant forall q :: 0 <= q < p ==> coef[k, q] == Num(c[q])
      invariant forall i, q :: 0 <= i < coef.Length0 && i != k && 0 <= q < coef.Length1 ==> coef[i, q] == old(coef[i, q])
    {
      coef[k, p] := Num(c[p]);
    }
  }

  /** The stored table as nested sequences. */
  function RowsOf(a: array2<Value>): (rows: seq<seq<Value>>)
    reads a
    ensures |rows| == a.Length0 && forall i :: 0 <= i < a.Length0 ==> |rows[i]| == a.Length1
  {
    seq(a.Length0, i requires 0 <= i < a.Length0 reads a =>
      seq(a.Length1, p requires 0 <= p < a.Length1 reads a => a[i, p]))
  }

  /**
   * `contemporaneous_cross_impact`: pivot, then fill a preallocated
   * target-by-predictor table one target row at a time.
   */
  method ContemporaneousCrossImpact(t: Table, sqrt: real -> real, fit: Fitter) returns (r: Result<Coefs>)
    ensures r == CrossImpact(t, sqrt, fit)
  {
    var missing := Missing(t.columns, OfiPivotColumns);
    if missing != [] {
      return Err(KeyNotFound(missing));
    }
    if HasDuplicates(t.rows) {
      return Err(DuplicateEntries);
    }
    if "log_return" !in t.columns {
      return Err(KeyNotFound(["log_return"]));
    }
    var syms := Symbols(t);
    var rows := FillCoefs(PivotOf(t, "ofi_pca"), PivotOf(t, "log_return"), |syms|, sqrt, fit);
    if rows.Err? {
      return Err(rows.error);
    }
    return Ok(Coefs(syms, syms, rows.value));
  }

  /**
   * The coefficient table is preallocated target by predictor and filled one
   * target row at a time; the first failing target ends the loop.
   */
  method FillCoefs(ofi: Grid, ret: Grid, n: nat, sqrt: real -> real, fit: Fitter) returns (r: Result<seq<seq<Value>>>)
    ensures r.Ok? <==> Fits(ofi, ret, n, n, sqrt, fit).Ok?
    ensures r.Err? ==> r.error == Fits(ofi, ret, n, n, sqrt, fit).error
    ensures r.Ok? ==> r.value == MapSeq(Fits(ofi, ret, n, n, sqrt, fit).value, NumRow)
  {
    var coef := new Value[n, n]((i, p) => Null);
    ghost var done: seq<seq<real>> := [];
    for k := 0 to n
      invariant Fits(ofi, ret, n, k, sqrt, fit) == Ok(done) && |done| == k
      invariant forall i :: 0 <= i < k ==> |done[i]| == n
      invariant forall i, p :: 0 <= i < k && 0 <= p < n ==> coef[i, p] == Num(done[i][p])
    {
      var c := FitTarget(ofi, ret, k, n, sqrt, fit);
      if c.Err? {
        FitsStops(ofi, ret, n, k, n, sqrt, fit);
        return Err(c.error);
      }
      StoreRow(coef, k, c.value);
      done := done + [c.value];
    }
    var table := RowsOf(coef);
    assert table == MapSeq(done, NumRow) by {
      var expected := MapSeq(done, NumRow);
      forall i | 0 <= i < n ensures table[i] == expected[i] {
        assert forall p :: 0 <= p < n ==> table[i][p] == expected[i][p];
      }
    }
    return Ok(table);
  }

  // ---------------------------------------------------------------------
  // What the estimator promises

  /** A failing loop fails with the error of its first failing target. */
  lemma {:induction false} FitsFirstError(ofi: Grid, ret: Grid, n: nat, k: nat, sqrt: real -> real, fit: Fitter) returns (i: nat)
    requires Fits(ofi, ret, n, k, sqrt, fit).Err?
    ensures i < k && TargetFit(ofi, ret, i, n, sqrt, fit).Err?
    ensures Fits(ofi, ret, n, k, sqrt, fit).error == TargetFit(ofi, ret, i, n, sqrt, fit).error
    ensures forall i' :: 0 <= i' < i ==> TargetFit(ofi, ret, i', n, sqrt, fit).Ok?
  {
    if Fits(ofi, ret, n, k - 1, sqrt, fit).Err? {
      i := FitsFirstError(ofi, ret, n, k - 1, sqrt, fit);
    } else {
      i := k - 1;
    }
  }

  /**
   * The estimator succeeds exactly when the columns are there, no key
   * repeats and every target's fit succeeds; the missing columns and the
   * repeated keys are reported before any fit is tried.
   */
  lemma CrossImpactOutcome(t: Table, sqrt: real -> real, fit: Fitter)
    ensures var r, ofi, ret, n := CrossImpact(t, sqrt, fit), PivotOf(t, "ofi_pca"), PivotOf(t, "log_return"), |Symbols(t)|;
      (r.Ok? <==> Missing(t.columns, OfiPivotColumns) == [] && !HasDuplicates(t.rows) && "log_return" in t.columns &&
                  forall k :: 0 <= k < n ==> TargetFit(ofi, ret, k, n, sqrt, fit).Ok?) &&
      (Missing(t.columns, OfiPivotColumns) != [] ==> r == Err(KeyNotFound(Missing(t.columns, OfiPivotColumns)))) &&
      (Missing(t.columns, OfiPivotColumns) == [] && HasDuplicates(t.rows) ==> r == Err(DuplicateEntries))
  {
  }

  /** A failure of the fits is the error of the first failing target, targets in instrument order. */
  lemma CrossImpactFirstError(t: Table, sqrt: real -> real, fit: Fitter) returns (k: nat)
    requires Missing(t.columns, OfiPivotColumns) == [] && !HasDuplicates(t.rows) && "log_return" in t.columns
    requires CrossImpact(t, sqrt, fit).Err?
    ensures var ofi, ret, n := PivotOf(t, "ofi_pca"), PivotOf(t, "log_return"), |Symbols(t)|;
      && k < n
      && TargetFit(ofi, ret, k, n, sqrt, fit).Err?
      && CrossImpact(t, sqrt, fit) == Err(TargetFit(ofi, ret, k, n, sqrt, fit).error)
      && forall i :: 0 <= i < k ==> TargetFit(ofi, ret, i, n, sqrt, fit).Ok?
  {
    var ofi, ret, n := PivotOf(t, "ofi_pca"), PivotOf(t, "log_return"), |Symbols(t)|;
    var f := Fits(ofi, ret, n, n, sqrt, fit);
    assert f.Err? && CrossImpact(t, sqrt, fit) == Err(f.error);
    k := FitsFirstError(ofi, ret, n, n, sqrt, fit);
  }

  /**
   * On success the table has one row per instrument as target and one
   * column per instrument as predictor (itself included), each instrument
   * once; row `k` holds the coefficients fitted for target `k`, and every
   * target had at least two observed returns.
   */
  lemma CoefTable(t: Table, sqrt: real -> real, fit: Fitter)
    requires CrossImpact(t, sqrt, fit).Ok?
    ensures var c, ofi, ret, n := CrossImpact(t, sqrt, fit).value, PivotOf(t, "ofi_pca"), PivotOf(t, "log_return"), |Symbols(t)|;
      c.targets == Symbols(t) && c.predictors == Symbols(t) && Distinct(c.targets) &&
      |c.rows| == n &&
      forall k :: 0 <= k < n ==>
        TargetFit(ofi, ret, k, n, sqrt, fit).Ok? && |Observed(ret, k)| >= 2 &&
        |c.rows[k]| == n &&
        forall p :: 0 <= p < n ==> c.rows[k][p] == Num(TargetFit(ofi, ret, k, n, sqrt, fit).value[p])
  {
    var ofi, ret, n := PivotOf(t, "ofi_pca"), PivotOf(t, "log_return"), |Symbols(t)|;
    CrossImpactValue(t, sqrt, fit);
    AxesDistinct(t);
    FitsTable(ofi, ret, n, sqrt, fit);
  }

  /** A successful estimate is the table of the successful loop, on the instruments as both axes. */
  lemma CrossImpactValue(t: Table, sqrt: real -> real, fit: Fitter)
    requires CrossImpact(t, sqrt, fit).Ok?
    ensures var ofi, ret, n := PivotOf(t, "ofi_pca"), PivotOf(t, "log_return"), |Symbols(t)|;
      Fits(ofi, ret, n, n, sqrt, fit).Ok? &&
      CrossImpact(t, sqrt, fit).value == Coefs(Symbols(t), Symbols(t), MapSeq(Fits(ofi, ret, n, n, sqrt, fit).value, NumRow))
  {
  }

  /** The stored rows of a successful loop, target by target. */
  lemma FitsTable(ofi: Grid, ret: Grid, n: nat, sqrt: real -> real, fit: Fitter)
    requires Fits(ofi, ret, n, n, sqrt, fit).Ok?
    ensures var rows := MapSeq(Fits(ofi, ret, n, n, sqrt, fit).value, NumRow);
      |rows| == n &&
      forall k :: 0 <= k < n ==>
        TargetFit(ofi, ret, k, n, sqrt, fit).Ok? && |Observed(ret, k)| >= 2 &&
        |rows[k]| == n &&
        forall p :: 0 <= p < n ==> rows[k][p] == Num(TargetFit(ofi, ret, k, n, sqrt, fit).value[p])
  {
    var rs := Fits(ofi, ret, n, n, sqrt, fit).value;
    var rows := MapSeq(rs, NumRow);
    forall k | 0 <= k < n
      ensures TargetFit(ofi, ret, k, n, sqrt, fit).Ok? && |Observed(ret, k)| >= 2 && |rows[k]| == n
      ensures forall p :: 0 <= p < n ==> rows[k][p] == Num(TargetFit(ofi, ret, k, n, sqrt, fit).value[p])
    {
      assert rs[k] == TargetFit(ofi, ret, k, n, sqrt, fit).value;
      assert rows[k] == NumRow(rs[k]);
    }
  }

  /**
   * The selections `returns_matrix[target_stock].dropna()` and
   * `ofi_matrix.loc[y.index].fillna(0)` line up by time: the `r`-th
   * response of target `k` is its return at the `r`-th time it has one, and
   * design row `r` holds every instrument's OFI at that same time, 0 where
   * it has none.
   */
  lemma Aligned(t: Table, k: nat, r: nat, p: nat)
    requires k < |Symbols(t)| && p < |Symbols(t)|
    requires r < |Observed(PivotOf(t, "log_return"), k)|
    ensures var obs := Observed(PivotOf(t, "log_return"), k);
      var ts := Times(t);
      obs[r] < |ts| &&
      PivotCell(t.rows, ts[obs[r]], Symbols(t)[k], "log_return").Num? &&
      Responses(PivotOf(t, "log_return"), k, obs)[r] == PivotCell(t.rows, ts[obs[r]], Symbols(t)[k], "log_return").x &&
      Design(PivotOf(t, "ofi_pca"), obs, |Symbols(t)|)[r][p] == Addend(PivotCell(t.rows, ts[obs[r]], Symbols(t)[p], "ofi_pca"))
  {
    var obs := Observed(PivotOf(t, "log_return"), k);
    assert obs[r] in obs;
  }

  lemma {:induction false} SumScaled(xs: seq<real>, ys: seq<real>, a: real, d: real)
    requires |xs| == |ys| && d != 0.0
    requires forall i :: 0 <= i < |xs| ==> ys[i] == (xs[i] - a) / d
    ensures Sum(ys) * d == Sum(xs) - |xs| as real * a
  {
    if xs != [] {
      var m := |xs| - 1;
      SumScaled(xs[..m], ys[..m], a, d);
      assert ys[m] * d == xs[m] - a;
      assert Sum(ys) * d == Sum(ys[..m]) * d + ys[m] * d;
    }
  }

  lemma DivTimes(u: real, w: real)
    requires w != 0.0
    ensures (u / w) * w == u && w * (u / w) == u
  {
  }

  lemma Cancel(u: real, v: real, w: real)
    requires w != 0.0 && u * w == v * w
    ensures u == v
  {
    assert (u - v) * w == 0.0;
  }

  lemma Distribute(u: real, v: real, w: real)
    ensures (u + v) * w == u * w + v * w
  {
  }

  lemma SquareScaled(y: real, d: real, e: real)
    requires y * d == e
    ensures (y - 0.0) * (y - 0.0) * (d * d) == e * e
  {
    assert (y - 0.0) * (y - 0.0) * (d * d) == (y * d) * (y * d);
  }

  lemma SquareQuotient(z: real, e: real, d: real)
    requires d != 0.0 && z == e / d
    ensures (z - 0.0) * (z - 0.0) * (d * d) == e * e
  {
    DivTimes(e, d);
    SquareScaled(z, d, e);
  }

  /** Multiplying every squared deviation by `k` multiplies their sum by `k`. */
  lemma {:induction false} SqDevTimes(xs: seq<real>, ys: seq<real>, a: real, k: real)
    requires |xs| == |ys|
    requires forall i :: 0 <= i < |xs| ==> (ys[i] - 0.0) * (ys[i] - 0.0) * k == (xs[i] - a) * (xs[i] - a)
    ensures SqDev(ys, 0.0) * k == SqDev(xs, a)
  {
    if xs != [] {
      var m := |xs| - 1;
      SqDevTimes(xs[..m], ys[..m], a, k);
      Distribute(SqDev(ys[..m], 0.0), (ys[m] - 0.0) * (ys[m] - 0.0), k);
    }
  }

  /** Deviations from a centre every entry equals add up to zero. */
  lemma {:induction false} SqDevZero(xs: seq<real>, a: real)
    requires forall i :: 0 <= i < |xs| ==> xs[i] == a
    ensures SqDev(xs, a) == 0.0
  {
    if xs != [] {
      SqDevZero(xs[..|xs| - 1], a);
    }
  }

  lemma {:induction false} SumConstant(xs: seq<real>, c: real)
    requires forall i :: 0 <= i < |xs| ==> xs[i] == c
    ensures Sum(xs) == |xs| as real * c
  {
    if xs != [] {
      SumConstant(xs[..|xs| - 1], c);
    }
  }

  /**
   * A constant column has zero deviation, the floor turns that into 1e-10,
   * and the standardised column is all zeros instead of a division by zero.
   */
  lemma ConstantColumn(x: seq<seq<real>>, n: nat, sqrt: real -> real, p: nat)
    requires |x| >= 2 && p < n && sqrt(0.0) == 0.0
    requires forall r :: 0 <= r < |x| ==> Entry(x, r, p) == Entry(x, 0, p)
    ensures Std(ColumnOf(x, p), sqrt) == 0.0 && Divisor(Std(ColumnOf(x, p), sqrt)) == 0.0000000001
    ensures forall r :: 0 <= r < |x| ==> Standardized(x, n, sqrt)[r][p] == 0.0
  {
    var col := ColumnOf(x, p);
    var c := col[0];
    SumConstant(col, c);
    assert Mean(col) == c;
    SqDevZero(col, c);
    assert Variance(col) == 0.0;
  }

  /** A standardised column has mean 0 whatever the deviation it was divided by. */
  lemma StandardizedMean(x: seq<seq<real>>, n: nat, sqrt: real -> real, p: nat)
    requires |x| >= 2 && p < n
    ensures Mean(ColumnOf(Standardized(x, n, sqrt), p)) == 0.0
  {
    var col := ColumnOf(x, p);
    var d := Divisor(Std(col, sqrt));
    var mu := Mean(col);
    var zc := ColumnOf(Standardized(x, n, sqrt), p);
    assert forall r :: 0 <= r < |x| ==> zc[r] == (col[r] - mu) / d;
    SumScaled(col, zc, mu, d);
    DivTimes(Sum(col), |x| as real);
    assert Sum(zc) * d == 0.0;
  }

  /** The sample variance from the sum of squares it is computed from. */
  lemma UnitVariance(q: real, dev: real, v: real, w: real, m1: real)
    requires m1 > 0.0 && w != 0.0 && v == dev / m1 && w == v && q * w == dev
    ensures q / m1 == 1.0
  {
    DivTimes(dev, m1);
    Cancel(q, m1, w);
  }

  /**
   * With an exact square root, a column of nonzero variance standardises
   * to sample variance 1 (its mean being 0).
   */
  lemma StandardizedVariance(x: seq<seq<real>>, n: nat, sqrt: real -> real, p: nat)
    requires |x| >= 2 && p < n
    requires Variance(ColumnOf(x, p)) != 0.0
    requires Std(ColumnOf(x, p), sqrt) * Std(ColumnOf(x, p), sqrt) == Variance(ColumnOf(x, p))
    ensures Divisor(Std(ColumnOf(x, p), sqrt)) == Std(ColumnOf(x, p), sqrt)
    ensures Variance(ColumnOf(Standardized(x, n, sqrt), p)) == 1.0
  {
    var col, s := ColumnOf(x, p), Std(ColumnOf(x, p), sqrt);
    var zc := ColumnOf(Standardized(x, n, sqrt), p);
    assert s != 0.0;
    assert Divisor(s) == s;
    StandardizedMean(x, n, sqrt, p);
    assert Variance(zc) == SqDev(zc, 0.0) / (|x| - 1) as real;
    StandardizedSqDev(x, n, sqrt, p);
    UnitVariance(SqDev(zc, 0.0), SqDev(col, Mean(col)), Variance(col), s * s, (|x| - 1) as real);
  }

  /** Standardising divides every squared deviation, and so their sum, by the squared divisor. */
  lemma StandardizedSqDev(x: seq<seq<real>>, n: nat, sqrt: real -> real, p: nat)
    requires |x| >= 2 && p < n
    ensures var d := Divisor(Std(ColumnOf(x, p), sqrt));
      SqDev(ColumnOf(Standardized(x, n, sqrt), p), 0.0) * (d * d) == SqDev(ColumnOf(x, p), Mean(ColumnOf(x, p)))
  {
    var col := ColumnOf(x, p);
    var d, mu := Divisor(Std(col, sqrt)), Mean(col);
    var zc := ColumnOf(Standardized(x, n, sqrt), p);
    forall r | 0 <= r < |x|
      ensures (zc[r] - 0.0) * (zc[r] - 0.0) * (d * d) == (col[r] - mu) * (col[r] - mu)
    {
      SquareQuotient(zc[r], col[r] - mu, d);
    }
    SqDevTimes(col, zc, mu, d * d);
  }
}
