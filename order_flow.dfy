/**
 * The order-flow calculator: for every level of the book, the signed bid and
 * ask flow of each snapshot against the previous snapshot of the same
 * instrument in ascending event time.
 */
module OrderFlow {
  import opened Wrappers
  import opened Values
  import opened Tables
  import opened ColumnNames

  // ---------------------------------------------------------------------
  // The flow of one side of one level

  /**
   * Bid flow: the whole size when the bid rose, the size change when it held,
   * minus the size otherwise; a missing predecessor compares as neither
   * higher nor equal.
   */
  function BidFlow(px: Value, sz: Value, prevPx: Value, prevSz: Value): Value {
    if Gt(px, prevPx) then sz
    else if NumEq(px, prevPx) then Sub(sz, prevSz)
    else Neg(sz)
  }

  /** Ask flow, the mirror image: minus the size when the ask rose, the size change when it held, the size otherwise. */
  function AskFlow(px: Value, sz: Value, prevPx: Value, prevSz: Value): Value {
    if Gt(px, prevPx) then Neg(sz)
    else if NumEq(px, prevPx) then Sub(sz, prevSz)
    else sz
  }

  /** A cell of the predecessor; there is none for the first row (shift(1) gives NaN). */
  function PrevCell(prev: Option<Row>, c: string): Value {
    if prev.None? then Null else Cell(prev.value, c)
  }

  function BidFlowAt(row: Row, prev: Option<Row>, level: nat): Value {
    BidFlow(Cell(row, BidPx(level)), Cell(row, BidSz(level)), PrevCell(prev, BidPx(level)), PrevCell(prev, BidSz(level)))
  }

  function AskFlowAt(row: Row, prev: Option<Row>, level: nat): Value {
    AskFlow(Cell(row, AskPx(level)), Cell(row, AskSz(level)), PrevCell(prev, AskPx(level)), PrevCell(prev, AskSz(level)))
  }

  /** The flows against a predecessor whose level values are all numbers, case by case. */
  lemma FlowCases(row: Row, p: Row, level: nat)
    requires Cell(row, BidPx(level)).Num? && Cell(p, BidPx(level)).Num? && Cell(p, BidSz(level)).Num?
    requires Cell(row, AskPx(level)).Num? && Cell(p, AskPx(level)).Num? && Cell(p, AskSz(level)).Num?
    ensures var px, ppx := Cell(row, BidPx(level)).x, Cell(p, BidPx(level)).x;
            var sz, psz := Cell(row, BidSz(level)), Cell(p, BidSz(level));
            BidFlowAt(row, Some(p), level) ==
              if px > ppx then sz else if px == ppx then Sub(sz, psz) else Neg(sz)
    ensures var px, ppx := Cell(row, AskPx(level)).x, Cell(p, AskPx(level)).x;
            var sz, psz := Cell(row, AskSz(level)), Cell(p, AskSz(level));
            AskFlowAt(row, Some(p), level) ==
              if px > ppx then Neg(sz) else if px == ppx then Sub(sz, psz) else sz
  {
  }

  /** The first row of a group has no predecessor: minus its bid size, plus its ask size. */
  lemma FirstRowFlows(row: Row, level: nat)
    ensures BidFlowAt(row, None, level) == Neg(Cell(row, BidSz(level)))
    ensures AskFlowAt(row, None, level) == Cell(row, AskSz(level))
  {
  }

  // ---------------------------------------------------------------------
  // Derived column names

  /** The temporary `_prev` columns of levels `0..levels-1`. */
  function TempNames(levels: nat): set<string>
  {
    if levels == 0 then {}
    else
      var l := levels - 1;
      TempNames(l) + {Prev(BidPx(l)), Prev(BidSz(l)), Prev(AskPx(l)), Prev(AskSz(l))}
  }

  lemma {:induction false} TempNamesHas(l: nat, levels: nat)
    requires l < levels
    ensures Prev(BidPx(l)) in TempNames(levels) && Prev(BidSz(l)) in TempNames(levels)
    ensures Prev(AskPx(l)) in TempNames(levels) && Prev(AskSz(l)) in TempNames(levels)
  {
    if l < levels - 1 { TempNamesHas(l, levels - 1); }
  }

  /** Every temporary name ends in 'v'. */
  lemma {:induction false} TempNamesEndInV(levels: nat, x: string)
    requires x in TempNames(levels)
    ensures |x| > 0 && x[|x| - 1] == 'v'
  {
    var l := levels - 1;
    if x in TempNames(l) {
      TempNamesEndInV(l, x);
    } else {
      assert x == Prev(BidPx(l)) || x == Prev(BidSz(l)) || x == Prev(AskPx(l)) || x == Prev(AskSz(l));
    }
  }

  /** The flow columns in the order they are created: of_0_b, of_0_a, of_1_b, ... */
  function OfNames(levels: nat): (s: seq<string>)
    ensures |s| == 2 * levels
  {
    if levels == 0 then [] else OfNames(levels - 1) + [OfBid(levels - 1), OfAsk(levels - 1)]
  }

  lemma {:induction false} OfNamesAt(levels: nat, l: nat)
    requires l < levels
    ensures OfNames(levels)[2 * l] == OfBid(l) && OfNames(levels)[2 * l + 1] == OfAsk(l)
  {
    if l < levels - 1 {
      OfNamesAt(levels - 1, l);
      assert OfNames(levels)[..2 * (levels - 1)] == OfNames(levels - 1);
    }
  }

  lemma OfNotTemp(l: nat, levels: nat)
    ensures OfBid(l) !in TempNames(levels) && OfAsk(l) !in TempNames(levels)
  {
    assert OfBid(l)[|OfBid(l)| - 1] == 'b';
    assert OfAsk(l)[|OfAsk(l)| - 1] == 'a';
    if OfBid(l) in TempNames(levels) { TempNamesEndInV(levels, OfBid(l)); }
    if OfAsk(l) in TempNames(levels) { TempNamesEndInV(levels, OfAsk(l)); }
  }

  lemma {:induction false} OfNamesOnly(levels: nat, x: string)
    requires x in OfNames(levels)
    ensures exists l :: 0 <= l < levels && (x == OfBid(l) || x == OfAsk(l))
  {
    var l := levels - 1;
    if x in OfNames(l) {
      OfNamesOnly(l, x);
    } else {
      assert x == OfBid(l) || x == OfAsk(l);
    }
  }

  /** Every flow name starts with 'o'. */
  lemma {:induction false} OfNamesStartWithO(levels: nat, x: string)
    ensures x in OfNames(levels) ==> |x| > 0 && x[0] == 'o'
  {
    if levels > 0 {
      var l := levels - 1;
      OfNamesStartWithO(l, x);
      assert OfBid(l)[0] == 'o' && OfAsk(l)[0] == 'o';
    }
  }

  /** The columns the calculator writes or drops; all other columns pass through. */
  function Derived(levels: nat): set<string> {
    TempNames(levels) + set x | x in OfNames(levels)
  }

  /** A row with the derived columns taken out: what the calculator must not touch. */
  function Original(r: Row, levels: nat): Row {
    r - Derived(levels)
  }

  // ---------------------------------------------------------------------
  // The specification

  /** Writes the flow columns of levels `0..n-1` into `base`. */
  function AddFlows(base: Row, row: Row, prev: Option<Row>, n: nat): Row {
    if n == 0 then base
    else AddFlows(base, row, prev, n - 1)[OfBid(n - 1) := BidFlowAt(row, prev, n - 1)][OfAsk(n - 1) := AskFlowAt(row, prev, n - 1)]
  }

  /** One output row: the input row without temporary columns, plus its flows. */
  function FlowRow(row: Row, prev: Option<Row>, levels: nat): Row {
    AddFlows(row - TempNames(levels), row, prev, levels)
  }

  function Predecessor(g: seq<Row>, i: nat): Option<Row>
    requires i < |g|
  {
    if i == 0 then None else Some(g[i - 1])
  }

  function FlowSeq(g: seq<Row>, levels: nat): (r: seq<Row>)
    ensures |r| == |g|
  {
    seq(|g|, i requires 0 <= i < |g| => FlowRow(g[i], Predecessor(g, i), levels))
  }

  /** The rows of one instrument, in ascending event time. */
  function SortedGroup(t: Table, k: Key): seq<Row> {
    SortBy(RowsWithKey(t.rows, SymbolKey, k), TsKey)
  }

  function FlowGroups(t: Table, ks: seq<Key>, levels: nat): seq<Row> {
    if ks == [] then []
    else FlowGroups(t, ks[..|ks| - 1], levels) + FlowSeq(SortedGroup(t, ks[|ks| - 1]), levels)
  }

  /** The input columns without temporary ones, then the flow columns not already present. */
  function FlowColumns(cols: seq<string>, levels: nat): seq<string> {
    AddAbsentAll(RemoveNames(cols, TempNames(levels)), OfNames(levels))
  }

  /** What `calculate_order_flows(t, levels)` returns or raises. */
  function OrderFlows(t: Table, levels: nat): Result<Table> {
    var required := RequiredColumns(levels);
    if Missing(t.columns, required) != [] then Err(MissingColumns(required))
    else
      var ks := GroupKeys(t.rows, SymbolKey);
      if ks == [] then Err(NoGroups)
      else Ok(Table(FlowColumns(t.columns, levels), FlowGroups(t, ks, levels)))
  }

  // ---------------------------------------------------------------------
  // The calculator, as the source runs it: column by column, level by level

  /** `np.where` over the columns of `g` for a bid flow: price `px`, size `sz` and their predecessors. */
  function BidWhere(g: Table, px: string, sz: string, prevPx: string, prevSz: string): (vs: seq<Value>)
    ensures |vs| == |g.rows|
  {
    seq(|g.rows|, i requires 0 <= i < |g.rows| =>
      BidFlow(Cell(g.rows[i], px), Cell(g.rows[i], sz), Cell(g.rows[i], prevPx), Cell(g.rows[i], prevSz)))
  }

  function AskWhere(g: Table, px: string, sz: string, prevPx: string, prevSz: string): (vs: seq<Value>)
    ensures |vs| == |g.rows|
  {
    seq(|g.rows|, i requires 0 <= i < |g.rows| =>
      AskFlow(Cell(g.rows[i], px), Cell(g.rows[i], sz), Cell(g.rows[i], prevPx), Cell(g.rows[i], prevSz)))
  }

  /** The names written for levels `0..n-1`, in the order of the assignments. */
  ghost function StageNames(n: nat): seq<string> {
    if n == 0 then []
    else
      var l := n - 1;
      StageNames(l) + [Prev(BidPx(l)), Prev(BidSz(l)), Prev(AskPx(l)), Prev(AskSz(l)), OfBid(l), OfAsk(l)]
  }

  /** A row after the assignments of levels `0..n-1`, temporary columns included. */
  ghost function Staged(row: Row, prev: Option<Row>, n: nat): Row {
    if n == 0 then row
    else
      var l := n - 1;
      Staged(row, prev, l)
        [Prev(BidPx(l)) := PrevCell(prev, BidPx(l))]
        [Prev(BidSz(l)) := PrevCell(prev, BidSz(l))]
        [Prev(AskPx(l)) := PrevCell(prev, AskPx(l))]
        [Prev(AskSz(l)) := PrevCell(prev, AskSz(l))]
        [OfBid(l) := BidFlowAt(row, prev, l)]
        [OfAsk(l) := AskFlowAt(row, prev, l)]
  }

  /** A cell under none of six written names keeps its value. */
  lemma CellSix(m: Row, p1: string, p2: string, p3: string, p4: string, ob: string, oa: string,
                v1: Value, v2: Value, v3: Value, v4: Value, vb: Value, va: Value, c: string)
    requires c != p1 && c != p2 && c != p3 && c != p4 && c != ob && c != oa
    ensures Cell(m[p1 := v1][p2 := v2][p3 := v3][p4 := v4][ob := vb][oa := va], c) == Cell(m, c)
  {
  }

  /** The assignments never touch a ladder column. */
  lemma {:induction false} StagedRaw(row: Row, prev: Option<Row>, n: nat, c: string)
    requires RawName(c)
    ensures Cell(Staged(row, prev, n), c) == Cell(row, c)
  {
    if n > 0 {
      var l := n - 1;
      var p1, p2, p3, p4 := Prev(BidPx(l)), Prev(BidSz(l)), Prev(AskPx(l)), Prev(AskSz(l));
      assert c != p1 && c != p2 && c != p3 && c != p4 by {
        PrevNotRaw(BidPx(l)); PrevNotRaw(BidSz(l)); PrevNotRaw(AskPx(l)); PrevNotRaw(AskSz(l));
      }
      assert c != OfBid(l) && c != OfAsk(l) by { OfNotRaw(l); }
      CellSix(Staged(row, prev, l), p1, p2, p3, p4, OfBid(l), OfAsk(l),
              PrevCell(prev, BidPx(l)), PrevCell(prev, BidSz(l)), PrevCell(prev, AskPx(l)), PrevCell(prev, AskSz(l)),
              BidFlowAt(row, prev, l), AskFlowAt(row, prev, l), c);
      StagedRaw(row, prev, l, c);
    }
  }

  lemma DropWritten(m: Row, k: string, v: Value, drop: set<string>)
    ensures k in drop ==> m[k := v] - drop == m - drop
    ensures k !in drop ==> m[k := v] - drop == (m - drop)[k := v]
  {
  }

  /** Dropping `drop` after six writes of which the first four are dropped names. */
  lemma DropSix(m: Row, p1: string, p2: string, p3: string, p4: string, ob: string, oa: string,
                v1: Value, v2: Value, v3: Value, v4: Value, vb: Value, va: Value, drop: set<string>)
    requires p1 in drop && p2 in drop && p3 in drop && p4 in drop && ob !in drop && oa !in drop
    ensures m[p1 := v1][p2 := v2][p3 := v3][p4 := v4][ob := vb][oa := va] - drop == (m - drop)[ob := vb][oa := va]
  {
    DropWritten(m, p1, v1, drop);
    DropWritten(m[p1 := v1], p2, v2, drop);
    DropWritten(m[p1 := v1][p2 := v2], p3, v3, drop);
    DropWritten(m[p1 := v1][p2 := v2][p3 := v3], p4, v4, drop);
    DropWritten(m[p1 := v1][p2 := v2][p3 := v3][p4 := v4], ob, vb, drop);
    DropWritten(m[p1 := v1][p2 := v2][p3 := v3][p4 := v4][ob := vb], oa, va, drop);
  }

  /** Dropping the temporary columns from a staged row leaves the specified row. */
  lemma {:induction false} StagedDropped(row: Row, prev: Option<Row>, n: nat, levels: nat)
    requires n <= levels
    ensures Staged(row, prev, n) - TempNames(levels) == AddFlows(row - TempNames(levels), row, prev, n)
  {
    if n > 0 {
      var l, T := n - 1, TempNames(levels);
      TempNamesHas(l, levels);
      OfNotTemp(l, levels);
      DropSix(Staged(row, prev, l), Prev(BidPx(l)), Prev(BidSz(l)), Prev(AskPx(l)), Prev(AskSz(l)), OfBid(l), OfAsk(l),
              PrevCell(prev, BidPx(l)), PrevCell(prev, BidSz(l)), PrevCell(prev, AskPx(l)), PrevCell(prev, AskSz(l)),
              BidFlowAt(row, prev, l), AskFlowAt(row, prev, l), T);
      StagedDropped(row, prev, l, levels);
    }
  }

  /** Of one level's six written names, only the two flow names survive the drop. */
  lemma LevelNamesFiltered(l: nat, levels: nat)
    requires l < levels
    ensures RemoveNames([Prev(BidPx(l)), Prev(BidSz(l)), Prev(AskPx(l)), Prev(AskSz(l)), OfBid(l), OfAsk(l)], TempNames(levels))
         == [OfBid(l), OfAsk(l)]
  {
    OfNotTemp(l, levels);
    TempNamesHas(l, levels);
    var T := TempNames(levels);
    var p1, p2, p3, p4, ob, oa := Prev(BidPx(l)), Prev(BidSz(l)), Prev(AskPx(l)), Prev(AskSz(l)), OfBid(l), OfAsk(l);
    assert RemoveNames([oa], T) == [oa];
    assert RemoveNames([ob, oa], T) == [ob, oa] by { assert [ob, oa][1..] == [oa]; }
    assert RemoveNames([p4, ob, oa], T) == [ob, oa] by { assert [p4, ob, oa][1..] == [ob, oa]; }
    assert RemoveNames([p3, p4, ob, oa], T) == [ob, oa] by { assert [p3, p4, ob, oa][1..] == [p4, ob, oa]; }
    assert RemoveNames([p2, p3, p4, ob, oa], T) == [ob, oa] by { assert [p2, p3, p4, ob, oa][1..] == [p3, p4, ob, oa]; }
    assert [p1, p2, p3, p4, ob, oa][1..] == [p2, p3, p4, ob, oa];
  }

  /** With temporary names dropped, the staged names are the flow names. */
  lemma {:induction false} StageNamesFiltered(n: nat, levels: nat)
    requires n <= levels
    ensures RemoveNames(StageNames(n), TempNames(levels)) == OfNames(n)
  {
    if n > 0 {
      var l, T := n - 1, TempNames(levels);
      var six := [Prev(BidPx(l)), Prev(BidSz(l)), Prev(AskPx(l)), Prev(AskSz(l)), OfBid(l), OfAsk(l)];
      assert StageNames(n) == StageNames(l) + six;
      assert RemoveNames(StageNames(l) + six, T) == RemoveNames(StageNames(l), T) + RemoveNames(six, T) by {
        RemoveNamesAppend(StageNames(l), six, T);
      }
      assert RemoveNames(six, T) == [OfBid(l), OfAsk(l)] by { LevelNamesFiltered(l, levels); }
      assert RemoveNames(StageNames(l), T) == OfNames(l) by { StageNamesFiltered(l, levels); }
    }
  }

  lemma {:induction false} FlowGroupsSnoc(t: Table, ks: seq<Key>, g: nat, levels: nat)
    requires g < |ks|
    ensures FlowGroups(t, ks[..g + 1], levels) == FlowGroups(t, ks[..g], levels) + FlowSeq(SortedGroup(t, ks[g]), levels)
  {
    assert ks[..g + 1][..g] == ks[..g];
  }

  /** The four `_prev` assignments of one level, on names that do not collide. */
  lemma ShiftsAt(g0: Table, i: nat, bp: string, bs: string, ap: string, as_: string,
                 p1: string, p2: string, p3: string, p4: string)
    requires i < |g0.rows|
    requires p1 != p2 && p1 != p3 && p1 != p4 && p2 != p3 && p2 != p4 && p3 != p4
    requires bs != p1 && ap != p1 && ap != p2 && as_ != p1 && as_ != p2 && as_ != p3
    ensures
      var g1 := SetColumn(g0, p1, Shift(Column(g0, bp)));
      var g2 := SetColumn(g1, p2, Shift(Column(g1, bs)));
      var g3 := SetColumn(g2, p3, Shift(Column(g2, ap)));
      var g4 := SetColumn(g3, p4, Shift(Column(g3, as_)));
      g4.rows[i] == g0.rows[i]
        [p1 := if i == 0 then Null else Cell(g0.rows[i - 1], bp)]
        [p2 := if i == 0 then Null else Cell(g0.rows[i - 1], bs)]
        [p3 := if i == 0 then Null else Cell(g0.rows[i - 1], ap)]
        [p4 := if i == 0 then Null else Cell(g0.rows[i - 1], as_)]
  {
    var g1 := SetColumn(g0, p1, Shift(Column(g0, bp)));
    var g2 := SetColumn(g1, p2, Shift(Column(g1, bs)));
    var g3 := SetColumn(g2, p3, Shift(Column(g2, ap)));
    var g4 := SetColumn(g3, p4, Shift(Column(g3, as_)));
    var s1 := if i == 0 then Null else Cell(g0.rows[i - 1], bp);
    var s2 := if i == 0 then Null else Cell(g0.rows[i - 1], bs);
    var s3 := if i == 0 then Null else Cell(g0.rows[i - 1], ap);
    var s4 := if i == 0 then Null else Cell(g0.rows[i - 1], as_);
    assert g1.rows[i] == g0.rows[i][p1 := s1] by { ShiftStep(g0, bp, p1, i); }
    assert g2.rows[i] == g1.rows[i][p2 := s2] by {
      ShiftStep(g1, bs, p2, i);
      if i > 0 { ShiftStep(g0, bp, p1, i - 1); }
    }
    assert g3.rows[i] == g2.rows[i][p3 := s3] by {
      ShiftStep(g2, ap, p3, i);
      if i > 0 { ShiftStep(g1, bs, p2, i - 1); ShiftStep(g0, bp, p1, i - 1); }
    }
    assert g4.rows[i] == g3.rows[i][p4 := s4] by {
      ShiftStep(g3, as_, p4, i);
      if i > 0 { ShiftStep(g2, ap, p3, i - 1); ShiftStep(g1, bs, p2, i - 1); ShiftStep(g0, bp, p1, i - 1); }
    }
  }

  /** One `_prev` assignment, seen at row `j`. */
  lemma ShiftStep(g: Table, src: string, dst: string, j: nat)
    requires j < |g.rows|
    ensures SetColumn(g, dst, Shift(Column(g, src))).rows[j]
         == g.rows[j][dst := if j == 0 then Null else Cell(g.rows[j - 1], src)]
  {
  }

  /** The two `np.where` assignments of one level, on a row whose size, price and `_prev` cells are known. */
  lemma WheresAt(g4: Table, i: nat, m: Row, bp: string, bs: string, ap: string, as_: string,
                 p1: string, p2: string, p3: string, p4: string, ob: string, oa: string,
                 b: Value, bz: Value, a: Value, az: Value, s1: Value, s2: Value, s3: Value, s4: Value)
    requires i < |g4.rows| && g4.rows[i] == m
    requires Cell(m, bp) == b && Cell(m, bs) == bz && Cell(m, p1) == s1 && Cell(m, p2) == s2
    requires ap != ob && as_ != ob && p3 != ob && p4 != ob
    requires Cell(m, ap) == a && Cell(m, as_) == az && Cell(m, p3) == s3 && Cell(m, p4) == s4
    ensures
      var g5 := SetColumn(g4, ob, BidWhere(g4, bp, bs, p1, p2));
      var g6 := SetColumn(g5, oa, AskWhere(g5, ap, as_, p3, p4));
      g6.rows[i] == m[ob := BidFlow(b, bz, s1, s2)][oa := AskFlow(a, az, s3, s4)]
  {
    var g5 := SetColumn(g4, ob, BidWhere(g4, bp, bs, p1, p2));
    assert g5.rows[i] == m[ob := BidFlow(b, bz, s1, s2)];
  }

  /**
   * The six assignments of one level, on any names that do not collide:
   * each temporary column gets the predecessor's value, each flow column
   * the branch on the current and the predecessor values.
   */
  lemma SixAssignments(g0: Table, i: nat, bp: string, bs: string, ap: string, as_: string,
                       p1: string, p2: string, p3: string, p4: string, ob: string, oa: string)
    requires i < |g0.rows|
    requires p1 != p2 && p1 != p3 && p1 != p4 && p2 != p3 && p2 != p4 && p3 != p4
    requires bp != p1 && bp != p2 && bp != p3 && bp != p4
    requires bs != p1 && bs != p2 && bs != p3 && bs != p4
    requires ap != p1 && ap != p2 && ap != p3 && ap != p4 && ap != ob
    requires as_ != p1 && as_ != p2 && as_ != p3 && as_ != p4 && as_ != ob
    requires p3 != ob && p4 != ob
    ensures
      var g1 := SetColumn(g0, p1, Shift(Column(g0, bp)));
      var g2 := SetColumn(g1, p2, Shift(Column(g1, bs)));
      var g3 := SetColumn(g2, p3, Shift(Column(g2, ap)));
      var g4 := SetColumn(g3, p4, Shift(Column(g3, as_)));
      var g5 := SetColumn(g4, ob, BidWhere(g4, bp, bs, p1, p2));
      var g6 := SetColumn(g5, oa, AskWhere(g5, ap, as_, p3, p4));
      var r := g0.rows[i];
      var s1 := if i == 0 then Null else Cell(g0.rows[i - 1], bp);
      var s2 := if i == 0 then Null else Cell(g0.rows[i - 1], bs);
      var s3 := if i == 0 then Null else Cell(g0.rows[i - 1], ap);
      var s4 := if i == 0 then Null else Cell(g0.rows[i - 1], as_);
      g6.rows[i] == r[p1 := s1][p2 := s2][p3 := s3][p4 := s4]
        [ob := BidFlow(Cell(r, bp), Cell(r, bs), s1, s2)]
        [oa := AskFlow(Cell(r, ap), Cell(r, as_), s3, s4)]
  {
    var g1 := SetColumn(g0, p1, Shift(Column(g0, bp)));
    var g2 := SetColumn(g1, p2, Shift(Column(g1, bs)));
    var g3 := SetColumn(g2, p3, Shift(Column(g2, ap)));
    var g4 := SetColumn(g3, p4, Shift(Column(g3, as_)));
    var r := g0.rows[i];
    var s1 := if i == 0 then Null else Cell(g0.rows[i - 1], bp);
    var s2 := if i == 0 then Null else Cell(g0.rows[i - 1], bs);
    var s3 := if i == 0 then Null else Cell(g0.rows[i - 1], ap);
    var s4 := if i == 0 then Null else Cell(g0.rows[i - 1], as_);
    ShiftsAt(g0, i, bp, bs, ap, as_, p1, p2, p3, p4);
    var m := r[p1 := s1][p2 := s2][p3 := s3][p4 := s4];
    WheresAt(g4, i, m, bp, bs, ap, as_, p1, p2, p3, p4, ob, oa,
             Cell(r, bp), Cell(r, bs), Cell(r, ap), Cell(r, as_), s1, s2, s3, s4);
  }

  /** One level's six assignments take every row from stage `level` to stage `level + 1`. */
  lemma LevelStep(g0: Table, sorted: seq<Row>, level: nat, i: nat)
    requires |g0.rows| == |sorted| && i < |sorted|
    requires forall j :: 0 <= j < |sorted| ==> g0.rows[j] == Staged(sorted[j], Predecessor(sorted, j), level)
    ensures
      var bp, bs, ap, as_ := BidPx(level), BidSz(level), AskPx(level), AskSz(level);
      var g1 := SetColumn(g0, Prev(bp), Shift(Column(g0, bp)));
      var g2 := SetColumn(g1, Prev(bs), Shift(Column(g1, bs)));
      var g3 := SetColumn(g2, Prev(ap), Shift(Column(g2, ap)));
      var g4 := SetColumn(g3, Prev(as_), Shift(Column(g3, as_)));
      var g5 := SetColumn(g4, OfBid(level), BidWhere(g4, bp, bs, Prev(bp), Prev(bs)));
      var g6 := SetColumn(g5, OfAsk(level), AskWhere(g5, ap, as_, Prev(ap), Prev(as_)));
      g6.rows[i] == Staged(sorted[i], Predecessor(sorted, i), level + 1)
  {
    var prev := Predecessor(sorted, i);
    var bp, bs, ap, as_ := BidPx(level), BidSz(level), AskPx(level), AskSz(level);
    LevelColumnsRaw(level);
    PrevColumnsDistinct(level);
    PrevNotRaw(bp); PrevNotRaw(bs); PrevNotRaw(ap); PrevNotRaw(as_);
    OfNotRaw(level);
    OfNotPrev(level, bp); OfNotPrev(level, bs); OfNotPrev(level, ap); OfNotPrev(level, as_);
    OfNamesDistinct(level, level);
    SixAssignments(g0, i, bp, bs, ap, as_, Prev(bp), Prev(bs), Prev(ap), Prev(as_), OfBid(level), OfAsk(level));
    var row := sorted[i];
    StagedRaw(row, prev, level, bp); StagedRaw(row, prev, level, bs);
    StagedRaw(row, prev, level, ap); StagedRaw(row, prev, level, as_);
    if i > 0 {
      var q := Predecessor(sorted, i - 1);
      StagedRaw(sorted[i - 1], q, level, bp); StagedRaw(sorted[i - 1], q, level, bs);
      StagedRaw(sorted[i - 1], q, level, ap); StagedRaw(sorted[i - 1], q, level, as_);
    }
  }

  /** The schema `calculate_order_flows` demands, built level by level. */
  method RequiredColumnList(levels: nat) returns (required: seq<string>)
    ensures required == RequiredColumns(levels)
  {
    required := ["symbol", "ts_event"];
    for level := 0 to levels
      invariant required == RequiredColumns(level)
    {
      required := required + LevelColumns(level);
    }
  }

  /**
   * Steps 2 and 3 of `calculate_order_flows` for one instrument whose rows
   * are already sorted: the `_prev` and flow columns level by level, then
   * the drop of the `_prev` columns.
   */
  method ProcessGroup(cols: seq<string>, sorted: seq<Row>, levels: nat) returns (group: Table)
    ensures group.columns == FlowColumns(cols, levels)
    ensures group.rows == FlowSeq(sorted, levels)
  {
    group := Table(cols, sorted);
    for level := 0 to levels
      invariant group.columns == AddAbsentAll(cols, StageNames(level))
      invariant |group.rows| == |sorted|
      invariant forall i :: 0 <= i < |sorted| ==> group.rows[i] == Staged(sorted[i], Predecessor(sorted, i), level)
    {
      ghost var g0 := group;
      ghost var p1, p2, p3, p4 := Prev(BidPx(level)), Prev(BidSz(level)), Prev(AskPx(level)), Prev(AskSz(level));
      ghost var ob, oa := OfBid(level), OfAsk(level);
      group := SetColumn(group, Prev(BidPx(level)), Shift(Column(group, BidPx(level))));
      group := SetColumn(group, Prev(BidSz(level)), Shift(Column(group, BidSz(level))));
      group := SetColumn(group, Prev(AskPx(level)), Shift(Column(group, AskPx(level))));
      group := SetColumn(group, Prev(AskSz(level)), Shift(Column(group, AskSz(level))));
      group := SetColumn(group, OfBid(level), BidWhere(group, BidPx(level), BidSz(level), Prev(BidPx(level)), Prev(BidSz(level))));
      group := SetColumn(group, OfAsk(level), AskWhere(group, AskPx(level), AskSz(level), Prev(AskPx(level)), Prev(AskSz(level))));
      forall i | 0 <= i < |sorted|
        ensures group.rows[i] == Staged(sorted[i], Predecessor(sorted, i), level + 1)
      {
        LevelStep(g0, sorted, level, i);
      }
      assert group.columns
          == AddAbsent(AddAbsent(AddAbsent(AddAbsent(AddAbsent(AddAbsent(g0.columns, p1), p2), p3), p4), ob), oa);
      AddAbsentSix(g0.columns, p1, p2, p3, p4, ob, oa);
      AddAbsentAllAppend(cols, StageNames(level), [p1, p2, p3, p4, ob, oa]);
    }
    ghost var staged := group;
    group := DropColumns(group, TempNames(levels));
    forall i | 0 <= i < |sorted| ensures group.rows[i] == FlowSeq(sorted, levels)[i] {
      StagedDropped(sorted[i], Predecessor(sorted, i), levels, levels);
    }
    RemoveAddAbsentAll(cols, StageNames(levels), TempNames(levels));
    StageNamesFiltered(levels, levels);
  }

  /** Step 1 of `calculate_order_flows`: each instrument of `keys` in turn, its rows sorted by event time and processed. */
  method ProcessGroups(t: Table, keys: seq<Key>, levels: nat) returns (processed: seq<Table>)
    ensures |processed| == |keys|
    ensures forall j :: 0 <= j < |keys| ==> processed[j].columns == FlowColumns(t.columns, levels)
    ensures ConcatRows(processed) == FlowGroups(t, keys, levels)
  {
    processed := [];
    for g := 0 to |keys|
      invariant |processed| == g
      invariant forall j :: 0 <= j < g ==> processed[j].columns == FlowColumns(t.columns, levels)
      invariant ConcatRows(processed) == FlowGroups(t, keys[..g], levels)
    {
      var sorted := SortBy(RowsWithKey(t.rows, SymbolKey, keys[g]), TsKey);
      var group := ProcessGroup(t.columns, sorted, levels);
      FlowGroupsSnoc(t, keys, g, levels);
      ConcatRowsSnoc(processed, group);
      processed := processed + [group];
    }
    assert keys[..|keys|] == keys;
  }

  /**
   * `calculate_order_flows`: validate the schema, process the instruments
   * in ascending order of their identifier, and concatenate the groups.
   */
  method CalculateOrderFlows(t: Table, levels: nat) returns (r: Result<Table>)
    ensures r == OrderFlows(t, levels)
  {
    var required := RequiredColumnList(levels);
    if Missing(t.columns, required) != [] {
      return Err(MissingColumns(required));
    }
    var keys := GroupKeys(t.rows, SymbolKey);
    var processed := ProcessGroups(t, keys, levels);
    if processed == [] {
      return Err(NoGroups);
    }
    r := Ok(Table(processed[0].columns, ConcatRows(processed)));
  }

  // ---------------------------------------------------------------------
  // What the result promises

  /** The schema check fails exactly when one of the required columns is absent. */
  lemma SchemaChecked(t: Table, levels: nat)
    ensures OrderFlows(t, levels) == Err(MissingColumns(RequiredColumns(levels)))
        <==> exists c :: c in RequiredColumns(levels) && c !in t.columns
  {
    var m := Missing(t.columns, RequiredColumns(levels));
    if m != [] {
      assert m[0] in m;
    }
  }

  /** With the schema in place, concatenation fails exactly when no row names an instrument. */
  lemma NoGroupsExactly(t: Table, levels: nat)
    requires Missing(t.columns, RequiredColumns(levels)) == []
    ensures OrderFlows(t, levels) == Err(NoGroups) <==> forall r :: r in t.rows ==> Cell(r, "symbol") == Null
  {
    NoGroupsIff(t.rows);
  }

  /** The flow columns hold the flows of their own level. */
  lemma {:induction false} AddFlowsAt(base: Row, row: Row, prev: Option<Row>, n: nat, l: nat)
    requires l < n
    ensures Cell(AddFlows(base, row, prev, n), OfBid(l)) == BidFlowAt(row, prev, l)
    ensures Cell(AddFlows(base, row, prev, n), OfAsk(l)) == AskFlowAt(row, prev, l)
  {
    var m := AddFlows(base, row, prev, n - 1);
    var ob, oa := OfBid(n - 1), OfAsk(n - 1);
    if l < n - 1 {
      assert ob != OfBid(l) && oa != OfBid(l) && ob != OfAsk(l) && oa != OfAsk(l) by {
        OfNamesDistinct(l, n - 1);
        OfNamesDistinct(n - 1, l);
      }
      CellTwo(m, ob, oa, BidFlowAt(row, prev, n - 1), AskFlowAt(row, prev, n - 1), OfBid(l));
      CellTwo(m, ob, oa, BidFlowAt(row, prev, n - 1), AskFlowAt(row, prev, n - 1), OfAsk(l));
      AddFlowsAt(base, row, prev, n - 1, l);
    } else {
      assert ob != oa by { OfNamesDistinct(l, l); }
    }
  }

  lemma CellTwo(m: Row, a: string, b: string, va: Value, vb: Value, c: string)
    requires c != a && c != b
    ensures Cell(m[a := va][b := vb], c) == Cell(m, c)
  {
  }

  /** A name outside the flow columns keeps the cell of `base`. */
  lemma {:induction false} AddFlowsKeeps(base: Row, row: Row, prev: Option<Row>, n: nat, c: string)
    requires c !in OfNames(n)
    ensures Cell(AddFlows(base, row, prev, n), c) == Cell(base, c)
    ensures c in AddFlows(base, row, prev, n) <==> c in base
  {
    if n > 0 {
      assert OfNames(n) == OfNames(n - 1) + [OfBid(n - 1), OfAsk(n - 1)];
      AddFlowsKeeps(base, row, prev, n - 1, c);
    }
  }

  /** Every flow column is present after the writes. */
  lemma {:induction false} AddFlowsHas(base: Row, row: Row, prev: Option<Row>, n: nat, c: string)
    requires c in OfNames(n)
    ensures c in AddFlows(base, row, prev, n)
  {
    assert OfNames(n) == OfNames(n - 1) + [OfBid(n - 1), OfAsk(n - 1)];
    if c in OfNames(n - 1) {
      AddFlowsHas(base, row, prev, n - 1, c);
    }
  }

  /** The names present in an output row: the input's, without temporaries, plus every flow column. */
  lemma FlowRowNames(row: Row, prev: Option<Row>, levels: nat, c: string)
    ensures c in FlowRow(row, prev, levels) <==> (c in row && c !in TempNames(levels)) || c in OfNames(levels)
  {
    if c in OfNames(levels) {
      AddFlowsHas(row - TempNames(levels), row, prev, levels, c);
    } else {
      AddFlowsKeeps(row - TempNames(levels), row, prev, levels, c);
    }
  }

  /** Level `l`'s flow columns of an output row are the branch on that level's prices and sizes. */
  lemma FlowRowCells(row: Row, prev: Option<Row>, levels: nat, l: nat)
    requires l < levels
    ensures Cell(FlowRow(row, prev, levels), OfBid(l)) == BidFlowAt(row, prev, l)
    ensures Cell(FlowRow(row, prev, levels), OfAsk(l)) == AskFlowAt(row, prev, l)
  {
    AddFlowsAt(row - TempNames(levels), row, prev, levels, l);
  }

  /** A raw name is not derived. */
  lemma RawNotDerived(levels: nat, c: string)
    requires RawName(c)
    ensures c !in TempNames(levels) && c !in OfNames(levels)
  {
    if c in TempNames(levels) {
      TempNamesEndInV(levels, c);
    }
    OfNamesStartWithO(levels, c);
  }

  /** Columns the calculator does not write, the identifier, timestamp and ladder among them, pass through. */
  lemma FlowRowRaw(row: Row, prev: Option<Row>, levels: nat, c: string)
    requires RawName(c)
    ensures Cell(FlowRow(row, prev, levels), c) == Cell(row, c)
  {
    RawNotDerived(levels, c);
    AddFlowsKeeps(row - TempNames(levels), row, prev, levels, c);
  }

  /** Once the derived columns are set aside, an output row is its input row. */
  lemma FlowRowOriginal(row: Row, prev: Option<Row>, levels: nat)
    ensures Original(FlowRow(row, prev, levels), levels) == Original(row, levels)
  {
    var f, D := FlowRow(row, prev, levels), Derived(levels);
    forall c | c !in D
      ensures (c in f - D <==> c in row - D) && (c in f - D ==> (f - D)[c] == (row - D)[c])
    {
      assert c !in OfNames(levels) && c !in TempNames(levels);
      AddFlowsKeeps(row - TempNames(levels), row, prev, levels, c);
    }
  }

  /** `Original` as a function value, so that lemmas about multisets of observations can share it. */
  function OriginalOf(levels: nat): Row -> Row {
    r => Original(r, levels)
  }

  lemma FlowSeqOriginal(g: seq<Row>, levels: nat)
    ensures MapSeq(FlowSeq(g, levels), OriginalOf(levels)) == MapSeq(g, OriginalOf(levels))
  {
    forall i | 0 <= i < |g|
      ensures MapSeq(FlowSeq(g, levels), OriginalOf(levels))[i] == MapSeq(g, OriginalOf(levels))[i]
    {
      FlowRowOriginal(g[i], Predecessor(g, i), levels);
    }
  }

  lemma {:induction false} FlowGroupsPermutes(t: Table, ks: seq<Key>, levels: nat)
    ensures multiset(MapSeq(FlowGroups(t, ks, levels), OriginalOf(levels)))
         == multiset(MapSeq(GroupedRows(t.rows, SymbolKey, ks), OriginalOf(levels)))
  {
    if ks != [] {
      var f, init, k := OriginalOf(levels), ks[..|ks| - 1], ks[|ks| - 1];
      var g := SortedGroup(t, k);
      assert multiset(MapSeq(FlowGroups(t, init, levels), f)) == multiset(MapSeq(GroupedRows(t.rows, SymbolKey, init), f)) by {
        FlowGroupsPermutes(t, init, levels);
      }
      assert multiset(MapSeq(FlowSeq(g, levels), f)) == multiset(MapSeq(RowsWithKey(t.rows, SymbolKey, k), f)) by {
        FlowSeqOriginal(g, levels);
        SortByPermutes(RowsWithKey(t.rows, SymbolKey, k), TsKey, f);
      }
      MapSeqAppend(FlowGroups(t, init, levels), FlowSeq(g, levels), f);
      MapSeqAppend(GroupedRows(t.rows, SymbolKey, init), RowsWithKey(t.rows, SymbolKey, k), f);
    }
  }

  /**
   * Apart from the derived columns, the output holds exactly the input rows
   * that carry an instrument, each once: nothing is lost, nothing is
   * duplicated, and no cell of the input is changed.
   */
  lemma OutputIsInputRearranged(t: Table, levels: nat)
    requires OrderFlows(t, levels).Ok?
    ensures multiset(MapSeq(OrderFlows(t, levels).value.rows, OriginalOf(levels)))
         == multiset(MapSeq(CompleteRows(t.rows, SymbolKey), OriginalOf(levels)))
  {
    FlowGroupsPermutes(t, GroupKeys(t.rows, SymbolKey), levels);
    GroupsPartition(t.rows, SymbolKey, OriginalOf(levels));
  }

  /** One output row per input row with an instrument; one per input row when every row has one. */
  lemma OutputRowCount(t: Table, levels: nat)
    requires OrderFlows(t, levels).Ok?
    ensures |OrderFlows(t, levels).value.rows| == |CompleteRows(t.rows, SymbolKey)|
    ensures (forall r :: r in t.rows ==> Cell(r, "symbol") != Null) ==> |OrderFlows(t, levels).value.rows| == |t.rows|
  {
    var f := OriginalOf(levels);
    OutputIsInputRearranged(t, levels);
    assert |multiset(MapSeq(OrderFlows(t, levels).value.rows, f))| == |OrderFlows(t, levels).value.rows|;
    assert |multiset(MapSeq(CompleteRows(t.rows, SymbolKey), f))| == |CompleteRows(t.rows, SymbolKey)|;
    if forall r :: r in t.rows ==> Cell(r, "symbol") != Null {
      forall r | r in t.rows ensures Complete(KeyOf(r, SymbolKey)) {
        assert KeyOf(r, SymbolKey) == [Cell(r, "symbol")];
      }
      CompleteRowsAll(t.rows, SymbolKey);
    }
  }

  /** The output columns: the input's without temporaries, then every flow column. */
  lemma FlowColumnsNames(cols: seq<string>, levels: nat, c: string)
    ensures c in FlowColumns(cols, levels) <==> (c in cols && c !in TempNames(levels)) || c in OfNames(levels)
  {
    RemoveNamesMembers(cols, TempNames(levels), c);
  }

  /** Within an instrument's block of the output, event times ascend. */
  lemma GroupBlockSorted(t: Table, k: Key, levels: nat)
    ensures SortedBy(FlowSeq(SortedGroup(t, k), levels), TsKey)
  {
    var g := SortedGroup(t, k);
    SortBySorted(RowsWithKey(t.rows, SymbolKey, k), TsKey);
    forall i | 0 <= i < |g| ensures TsKey(FlowSeq(g, levels)[i]) == TsKey(g[i]) {
      FlowRowRaw(g[i], Predecessor(g, i), levels, "ts_event");
      assert TsKey(FlowSeq(g, levels)[i]) == [Cell(g[i], "ts_event")];
    }
  }

  /** The blocks of the first `m` instruments are a prefix of the blocks of all of them. */
  lemma {:induction false} FlowGroupsPrefix(t: Table, ks: seq<Key>, m: nat, levels: nat)
    requires m <= |ks|
    ensures FlowGroups(t, ks[..m], levels) <= FlowGroups(t, ks, levels)
  {
    if m < |ks| {
      var p := ks[..|ks| - 1];
      assert p[..m] == ks[..m];
      FlowGroupsPrefix(t, p, m, levels);
    } else {
      assert ks[..m] == ks;
    }
  }

  /** The `g`-th block of the concatenation sits right after the blocks before it. */
  lemma FlowGroupsBlock(t: Table, ks: seq<Key>, g: nat, levels: nat)
    requires g < |ks|
    ensures var all, off, blk := FlowGroups(t, ks, levels), |FlowGroups(t, ks[..g], levels)|, FlowSeq(SortedGroup(t, ks[g]), levels);
      off + |blk| <= |all| && all[off .. off + |blk|] == blk
  {
    var a, blk := FlowGroups(t, ks[..g], levels), FlowSeq(SortedGroup(t, ks[g]), levels);
    var all := FlowGroups(t, ks, levels);
    FlowGroupsSnoc(t, ks, g, levels);
    FlowGroupsPrefix(t, ks, g + 1, levels);
    assert a + blk <= all;
    assert all[|a| .. |a| + |blk|] == (a + blk)[|a| ..];
  }

  /**
   * The output is made of one block per instrument, in instrument order: the
   * block of the `g`-th instrument is the flow sequence of that instrument's
   * own rows sorted by event time, so no row's flows depend on another
   * instrument's rows.
   */
  lemma OutputBlock(t: Table, levels: nat, g: nat)
    requires OrderFlows(t, levels).Ok? && g < |GroupKeys(t.rows, SymbolKey)|
    ensures var ks, rows := GroupKeys(t.rows, SymbolKey), OrderFlows(t, levels).value.rows;
      var off, blk := |FlowGroups(t, ks[..g], levels)|, FlowSeq(SortedGroup(t, ks[g]), levels);
      off + |blk| <= |rows| && rows[off .. off + |blk|] == blk
  {
    var ks := GroupKeys(t.rows, SymbolKey);
    assert OrderFlows(t, levels).value.rows == FlowGroups(t, ks, levels);
    FlowGroupsBlock(t, ks, g, levels);
  }

  /** The first snapshot of every instrument has no predecessor: minus its bid sizes, plus its ask sizes. */
  lemma FirstRowOfGroup(g: seq<Row>, levels: nat, l: nat)
    requires g != [] && l < levels
    ensures Cell(FlowSeq(g, levels)[0], OfBid(l)) == Neg(Cell(g[0], BidSz(l)))
    ensures Cell(FlowSeq(g, levels)[0], OfAsk(l)) == Cell(g[0], AskSz(l))
  {
    FlowRowCells(g[0], None, levels, l);
  }

  /** Every later snapshot is compared with the one just before it in event time. */
  lemma LaterRowOfGroup(g: seq<Row>, levels: nat, i: nat, l: nat)
    requires 0 < i < |g| && l < levels
    ensures Cell(FlowSeq(g, levels)[i], OfBid(l)) == BidFlowAt(g[i], Some(g[i - 1]), l)
    ensures Cell(FlowSeq(g, levels)[i], OfAsk(l)) == AskFlowAt(g[i], Some(g[i - 1]), l)
  {
    FlowRowCells(g[i], Some(g[i - 1]), levels, l);
  }
}
