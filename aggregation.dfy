/**
 * The aggregator: per instrument, snapshots are put into fixed-width time
 * buckets, and each configured column is reduced over its bucket by its
 * rule: the last observed value, or the sum.
 */
module Aggregation {
  import opened Wrappers
  import opened Values
  import opened Tables
  import opened ColumnNames

  // ---------------------------------------------------------------------
  // The aggregation rules: a dictionary in insertion order

  datatype Rule = Last | Sum

  /** A Python dict from column name to rule; its iteration order is insertion order. */
  type Rules = seq<(string, Rule)>

  function Names(d: Rules): (ns: seq<string>)
    ensures |ns| == |d| && forall i :: 0 <= i < |d| ==> ns[i] == d[i].0
  {
    seq(|d|, i requires 0 <= i < |d| => d[i].0)
  }

  lemma NamesAppend(a: Rules, b: Rules)
    ensures Names(a + b) == Names(a) + Names(b)
  {
  }

  /** `d[k] = v`: an existing key keeps its place and takes the new value, a new key goes last. */
  function DictSet(d: Rules, k: string, v: Rule): Rules {
    if d == [] then [(k, v)]
    else if d[0].0 == k then [(k, v)] + d[1..]
    else [d[0]] + DictSet(d[1..], k, v)
  }

  lemma {:induction false} DictSetFresh(d: Rules, k: string, v: Rule)
    requires k !in Names(d)
    ensures DictSet(d, k, v) == d + [(k, v)]
  {
    if d != [] {
      assert Names(d)[0] == d[0].0;
      assert Names(d[1..]) == Names(d)[1..];
      DictSetFresh(d[1..], k, v);
      assert d == [d[0]] + d[1..];
    }
  }

  /** Four fresh, pairwise different keys in a row. */
  lemma DictSetFour(d: Rules, a: string, b: string, c: string, e: string, ra: Rule, rb: Rule, rc: Rule, re: Rule)
    requires a !in Names(d) && b !in Names(d) && c !in Names(d) && e !in Names(d)
    requires a != b && a != c && a != e && b != c && b != e && c != e
    ensures DictSet(DictSet(DictSet(DictSet(d, a, ra), b, rb), c, rc), e, re) == d + [(a, ra), (b, rb), (c, rc), (e, re)]
  {
    DictSetFresh(d, a, ra);
    var d1 := d + [(a, ra)];
    assert Names(d1) == Names(d) + [a];
    DictSetFresh(d1, b, rb);
    var d2 := d1 + [(b, rb)];
    assert Names(d2) == Names(d1) + [b];
    DictSetFresh(d2, c, rc);
    var d3 := d2 + [(c, rc)];
    assert Names(d3) == Names(d2) + [c];
    DictSetFresh(d3, e, re);
  }

  /** The rules of one level: last price, summed size. */
  function LevelRules(level: nat): Rules {
    [(BidPx(level), Last), (AskPx(level), Last), (BidSz(level), Sum), (AskSz(level), Sum)]
  }

  function LadderRules(levels: nat): (d: Rules)
    ensures |d| == 4 * levels
  {
    if levels == 0 then [] else LadderRules(levels - 1) + LevelRules(levels - 1)
  }

  /** The auxiliary columns, each reduced to its last value. */
  const AuxRules: Rules := [("action", Last), ("side", Last), ("price", Last)]

  /** The dictionary `aggregate_order_book_data` builds. */
  function AggregationRules(levels: nat): (d: Rules)
    ensures |d| == 4 * levels + 3
  {
    LadderRules(levels) + AuxRules
  }

  /** No level at or above `levels` has a name among the first `levels` levels' rules. */
  lemma {:induction false} LadderFresh(levels: nat, m: nat, c: string)
    requires levels <= m && c in LevelColumns(m)
    ensures c !in Names(LadderRules(levels))
  {
    if levels > 0 {
      NamesAppend(LadderRules(levels - 1), LevelRules(levels - 1));
      LadderFresh(levels - 1, m, c);
      LevelColumnsDisjoint(levels - 1, m, c);
      assert Names(LevelRules(levels - 1)) == LevelColumns(levels - 1);
    }
  }

  /** Every ladder rule names a column of nine characters or more. */
  lemma {:induction false} LadderNamesLongAll(levels: nat, c: string)
    ensures c in Names(LadderRules(levels)) ==> |c| >= 9
  {
    if levels > 0 {
      NamesAppend(LadderRules(levels - 1), LevelRules(levels - 1));
      LadderNamesLongAll(levels - 1, c);
      assert Names(LevelRules(levels - 1)) == LevelColumns(levels - 1);
      LadderNamesLong(levels - 1);
    }
  }

  /**
   * `aggregate_order_book_data` builds its rules level by level: since no
   * name repeats, every assignment adds a new key at the end.
   */
  method BuildAggregationRules(levels: nat) returns (rules: Rules)
    ensures rules == AggregationRules(levels)
  {
    rules := [];
    for level := 0 to levels
      invariant rules == LadderRules(level)
    {
      LadderFresh(level, level, BidPx(level));
      LadderFresh(level, level, AskPx(level));
      LadderFresh(level, level, BidSz(level));
      LadderFresh(level, level, AskSz(level));
      LadderNamesDistinct(level, level);
      DictSetFour(rules, BidPx(level), AskPx(level), BidSz(level), AskSz(level), Last, Last, Sum, Sum);
      rules := DictSet(rules, BidPx(level), Last);
      rules := DictSet(rules, AskPx(level), Last);
      rules := DictSet(rules, BidSz(level), Sum);
      rules := DictSet(rules, AskSz(level), Sum);
    }
    ghost var ladder := rules;
    assert "action" !in Names(ladder) && "side" !in Names(ladder) && "price" !in Names(ladder) by {
      LadderNamesLongAll(levels, "action");
      LadderNamesLongAll(levels, "side");
      LadderNamesLongAll(levels, "price");
    }
    ghost var r1 := ladder + [("action", Last)];
    DictSetFresh(ladder, "action", Last);
    rules := DictSet(rules, "action", Last);
    assert Names(r1) == Names(ladder) + ["action"];
    DictSetFresh(r1, "side", Last);
    rules := DictSet(rules, "side", Last);
    ghost var r2 := r1 + [("side", Last)];
    assert Names(r2) == Names(r1) + ["side"];
    DictSetFresh(r2, "price", Last);
    rules := DictSet(rules, "price", Last);
    assert rules == r2 + [("price", Last)];
    assert r2 + [("price", Last)] == ladder + AuxRules;
  }

  /** Each level's four rules sit at positions `4*level .. 4*level+3`, the auxiliary rules last. */
  lemma {:induction false} LadderRulesAt(levels: nat, level: nat)
    requires level < levels
    ensures LadderRules(levels)[4 * level .. 4 * level + 4] == LevelRules(level)
  {
    assert LadderRules(levels)[..4 * (levels - 1)] == LadderRules(levels - 1);
    if level < levels - 1 {
      LadderRulesAt(levels - 1, level);
    }
  }

  lemma AggregationRulesAt(levels: nat, level: nat)
    requires level < levels
    ensures AggregationRules(levels)[4 * level] == (BidPx(level), Last)
    ensures AggregationRules(levels)[4 * level + 1] == (AskPx(level), Last)
    ensures AggregationRules(levels)[4 * level + 2] == (BidSz(level), Sum)
    ensures AggregationRules(levels)[4 * level + 3] == (AskSz(level), Sum)
  {
    var all, lad, i := AggregationRules(levels), LadderRules(levels), 4 * level;
    LadderRulesAt(levels, level);
    var blk := lad[i .. i + 4];
    assert blk == LevelRules(level);
    assert all[i] == lad[i] == blk[0];
    assert all[i + 1] == lad[i + 1] == blk[1];
    assert all[i + 2] == lad[i + 2] == blk[2];
    assert all[i + 3] == lad[i + 3] == blk[3];
  }

  lemma AggregationRulesAux(levels: nat)
    ensures AggregationRules(levels)[4 * levels ..] == [("action", Last), ("side", Last), ("price", Last)]
  {
  }

  lemma {:induction false} LadderNamesUnique(levels: nat)
    ensures Distinct(Names(LadderRules(levels)))
  {
    if levels > 0 {
      var l := levels - 1;
      LadderNamesUnique(l);
      NamesAppend(LadderRules(l), LevelRules(l));
      assert Names(LevelRules(l)) == LevelColumns(l);
      assert Distinct(LevelColumns(l)) by { LadderNamesDistinct(l, l); }
      forall x | x in LevelColumns(l) ensures x !in Names(LadderRules(l)) {
        LadderFresh(l, l, x);
      }
      DistinctAppend(Names(LadderRules(l)), LevelColumns(l));
    }
  }

  /** No column gets two rules: the dictionary's keys are pairwise different. */
  lemma AggregationNamesUnique(levels: nat)
    ensures Distinct(Names(AggregationRules(levels)))
  {
    var ladder := Names(LadderRules(levels));
    var aux := ["action", "side", "price"];
    LadderNamesUnique(levels);
    NamesAppend(LadderRules(levels), AuxRules);
    assert Names(AuxRules) == aux;
    forall x | x in aux ensures x !in ladder {
      LadderNamesLongAll(levels, x);
    }
    DistinctAppend(ladder, aux);
  }

  // ---------------------------------------------------------------------
  // Time buckets

  /** A resampling interval: a whole, positive number of seconds. */
  type Seconds = n: nat | n > 0 witness 1

  /** The bucket holding time `x` (seconds since the epoch). */
  function Bucket(x: real, interval: Seconds): int {
    (x / interval as real).Floor
  }

  /** The first second of bucket `b`, the label resample gives it. */
  function BucketStart(b: int, interval: Seconds): real {
    (b * interval) as real
  }

  lemma MulMono(a: real, b: real, c: real)
    requires a <= b && c > 0.0
    ensures a * c <= b * c
  {
  }

  lemma MulStrict(a: real, b: real, c: real)
    requires a < b && c > 0.0
    ensures a * c < b * c
  {
  }

  /** A time lies in the interval-wide window its bucket starts. */
  lemma BucketBounds(x: real, interval: Seconds)
    ensures BucketStart(Bucket(x, interval), interval) <= x < BucketStart(Bucket(x, interval), interval) + interval as real
  {
    var i := interval as real;
    var q := x / i;
    var b := Bucket(x, interval);
    assert x == q * i;
    assert (b as real) * i <= x by { MulMono(b as real, q, i); }
    assert x < (b as real + 1.0) * i by { MulStrict(q, b as real + 1.0, i); }
  }

  /** And it is the only bucket whose window holds that time. */
  lemma BucketUnique(x: real, b: int, interval: Seconds)
    requires BucketStart(b, interval) <= x < BucketStart(b, interval) + interval as real
    ensures Bucket(x, interval) == b
  {
    var i := interval as real;
    var q := x / i;
    assert x == q * i;
    assert b as real <= q by {
      if q < b as real { MulMono(q, b as real, i); }
    }
    assert q < b as real + 1.0 by {
      if q >= b as real + 1.0 { MulMono(b as real + 1.0, q, i); }
    }
  }

  /** Later buckets start later. */
  lemma BucketStartIncreasing(b: int, b': int, interval: Seconds)
    requires b < b'
    ensures BucketStart(b, interval) < BucketStart(b', interval)
  {
    assert b * interval < b' * interval;
  }

  // ---------------------------------------------------------------------
  // The rows of one bucket and their reductions

  function Stamp(r: Row): Value {
    Cell(r, "ts_event")
  }

  /** A row resample can place: its time is a number (a missing time is dropped). */
  predicate Timed(r: Row) {
    Stamp(r).Num?
  }

  predicate InBucketOf(r: Row, b: int, interval: Seconds) {
    Timed(r) && Bucket(Stamp(r).x, interval) == b
  }

  /** The rows of bucket `b`, in the order given. */
  function InBucket(rows: seq<Row>, b: int, interval: Seconds): seq<Row> {
    if rows == [] then []
    else InBucket(rows[..|rows| - 1], b, interval) + (if InBucketOf(rows[|rows| - 1], b, interval) then [rows[|rows| - 1]] else [])
  }

  /** Each row of the input is kept as often as it occurs when it falls in the bucket, and never otherwise. */
  lemma {:induction false} InBucketCount(rows: seq<Row>, b: int, interval: Seconds, r: Row)
    ensures multiset(InBucket(rows, b, interval))[r] == if InBucketOf(r, b, interval) then multiset(rows)[r] else 0
  {
    if rows != [] {
      var p, z := rows[..|rows| - 1], rows[|rows| - 1];
      InBucketCount(p, b, interval, r);
      assert rows == p + [z];
    }
  }

  lemma InBucketMembers(rows: seq<Row>, b: int, interval: Seconds, r: Row)
    ensures r in InBucket(rows, b, interval) <==> r in rows && InBucketOf(r, b, interval)
  {
    InBucketCount(rows, b, interval, r);
    assert r in InBucket(rows, b, interval) <==> multiset(InBucket(rows, b, interval))[r] > 0;
    assert r in rows <==> multiset(rows)[r] > 0;
  }

  /** Rearranging the input rearranges each bucket and nothing more. */
  lemma InBucketPermutes(rows: seq<Row>, rows': seq<Row>, b: int, interval: Seconds)
    requires multiset(rows) == multiset(rows')
    ensures multiset(InBucket(rows, b, interval)) == multiset(InBucket(rows', b, interval))
  {
    forall r ensures multiset(InBucket(rows, b, interval))[r] == multiset(InBucket(rows', b, interval))[r] {
      InBucketCount(rows, b, interval, r);
      InBucketCount(rows', b, interval, r);
    }
  }

  /** The `last` rule: the last value that is not missing, missing when there is none. */
  function LastIn(rows: seq<Row>, c: string): Value {
    if rows == [] then Null
    else if Cell(rows[|rows| - 1], c) != Null then Cell(rows[|rows| - 1], c)
    else LastIn(rows[..|rows| - 1], c)
  }

  lemma {:induction false} LastInIsLast(rows: seq<Row>, c: string)
    ensures LastIn(rows, c) == Null <==> forall i :: 0 <= i < |rows| ==> Cell(rows[i], c) == Null
    ensures LastIn(rows, c) != Null ==>
      exists i :: 0 <= i < |rows| && Cell(rows[i], c) == LastIn(rows, c) && forall j :: i < j < |rows| ==> Cell(rows[j], c) == Null
  {
    if rows != [] {
      var p, z := rows[..|rows| - 1], rows[|rows| - 1];
      LastInIsLast(p, c);
      if Cell(z, c) != Null {
        assert Cell(rows[|rows| - 1], c) == LastIn(rows, c);
      } else if LastIn(p, c) != Null {
        var i :| 0 <= i < |p| && Cell(p[i], c) == LastIn(p, c) && forall j :: i < j < |p| ==> Cell(p[j], c) == Null;
        assert Cell(rows[i], c) == LastIn(rows, c);
        assert forall j :: i < j < |rows| ==> Cell(rows[j], c) == Null by {
          forall j | i < j < |rows| ensures Cell(rows[j], c) == Null {
            if j < |p| { assert rows[j] == p[j]; }
          }
        }
      } else {
        assert forall i :: 0 <= i < |rows| ==> Cell(rows[i], c) == Null by {
          forall i | 0 <= i < |rows| ensures Cell(rows[i], c) == Null {
            if i < |p| { assert rows[i] == p[i]; }
          }
        }
      }
    }
  }

  function Reduce(rule: Rule, rows: seq<Row>, c: string): Value {
    match rule
    case Last => LastIn(rows, c)
    case Sum => Num(SumIn(rows, c))
  }

  // ---------------------------------------------------------------------
  // Time order

  /** Every row is stamped no later than each row after it. */
  predicate Ordered(s: seq<Row>) {
    forall i, j :: 0 <= i < j < |s| ==> KeyLe(TsKey(s[i]), TsKey(s[j]))
  }

  lemma {:induction false} SortedOrdered(s: seq<Row>)
    requires SortedBy(s, TsKey)
    ensures Ordered(s)
  {
    if s != [] {
      var p := s[..|s| - 1];
      assert SortedBy(p, TsKey) by {
        forall i | 0 <= i < |p| - 1 ensures KeyLe(TsKey(p[i]), TsKey(p[i + 1])) {
          assert p[i] == s[i] && p[i + 1] == s[i + 1];
        }
      }
      SortedOrdered(p);
      forall i, j | 0 <= i < j < |s| ensures KeyLe(TsKey(s[i]), TsKey(s[j])) {
        assert s[i] == p[i];
        if j < |s| - 1 {
          assert s[j] == p[j];
        } else if i < j - 1 {
          assert KeyLe(TsKey(p[i]), TsKey(p[j - 1]));
          KeyLeTransitive(TsKey(s[i]), TsKey(s[j - 1]), TsKey(s[j]));
        }
      }
    }
  }

  /** Taking one bucket's rows keeps their time order. */
  lemma {:induction false} InBucketOrdered(s: seq<Row>, b: int, interval: Seconds)
    requires Ordered(s)
    ensures Ordered(InBucket(s, b, interval))
  {
    if s != [] {
      var p, z := s[..|s| - 1], s[|s| - 1];
      assert Ordered(p) by {
        forall i, j | 0 <= i < j < |p| ensures KeyLe(TsKey(p[i]), TsKey(p[j])) {
          assert p[i] == s[i] && p[j] == s[j];
        }
      }
      InBucketOrdered(p, b, interval);
      var q := InBucket(p, b, interval);
      if InBucketOf(z, b, interval) {
        var r := q + [z];
        forall i, j | 0 <= i < j < |r| ensures KeyLe(TsKey(r[i]), TsKey(r[j])) {
          if j < |q| {
            assert r[i] == q[i] && r[j] == q[j];
          } else {
            assert r[i] == q[i] && r[j] == z;
            InBucketMembers(p, b, interval, q[i]);
            var k :| 0 <= k < |p| && p[k] == q[i];
            assert s[k] == q[i] && s[|s| - 1] == z;
          }
        }
      }
    }
  }

  /** On numeric stamps the key order is the order of the times. */
  lemma TsKeyLe(a: Row, b: Row)
    requires Timed(a) && Timed(b)
    ensures KeyLe(TsKey(a), TsKey(b)) <==> Stamp(a).x <= Stamp(b).x
  {
    assert TsKey(a) == [Stamp(a)] && TsKey(b) == [Stamp(b)];
    assert TsKey(a)[1..] == [];
  }

  /**
   * Within time-ordered rows, `last` picks the value of the latest-stamped
   * row that has one.
   */
  lemma LastIsLatest(ms: seq<Row>, c: string)
    requires Ordered(ms)
    requires forall i :: 0 <= i < |ms| ==> Timed(ms[i])
    ensures LastIn(ms, c) != Null ==>
      exists i :: 0 <= i < |ms| && Timed(ms[i]) && Cell(ms[i], c) == LastIn(ms, c) &&
        forall j :: 0 <= j < |ms| && Cell(ms[j], c) != Null ==> Timed(ms[j]) && Stamp(ms[j]).x <= Stamp(ms[i]).x
  {
    LastInIsLast(ms, c);
    if LastIn(ms, c) != Null {
      var i :| 0 <= i < |ms| && Cell(ms[i], c) == LastIn(ms, c) && forall j :: i < j < |ms| ==> Cell(ms[j], c) == Null;
      forall j | 0 <= j < |ms| && Cell(ms[j], c) != Null ensures Stamp(ms[j]).x <= Stamp(ms[i]).x {
        if j != i {
          assert KeyLe(TsKey(ms[j]), TsKey(ms[i]));
        }
        TsKeyLe(ms[j], ms[i]);
      }
    }
  }

  // ---------------------------------------------------------------------
  // One instrument's rows

  lemma MapSeqIdentity(s: seq<Row>)
    ensures MapSeq(s, (r: Row) => r) == s
  {
  }

  /** `groupby("symbol")` then resample: the instrument's rows, arranged by time. */
  function Series(t: Table, k: Key): seq<Row> {
    SortBy(RowsWithKey(t.rows, SymbolKey, k), TsKey)
  }

  /** The series holds the instrument's rows, rearranged, and in time order. */
  lemma SeriesIsGroup(t: Table, k: Key)
    ensures multiset(Series(t, k)) == multiset(RowsWithKey(t.rows, SymbolKey, k))
    ensures Ordered(Series(t, k))
  {
    var g := RowsWithKey(t.rows, SymbolKey, k);
    SortByPermutes(g, TsKey, (r: Row) => r);
    MapSeqIdentity(g);
    MapSeqIdentity(SortBy(g, TsKey));
    SortBySorted(g, TsKey);
    SortedOrdered(Series(t, k));
  }

  /** The first and the last bucket that hold a row of `rows`; none when no row has a time. */
  function Span(rows: seq<Row>, interval: Seconds): (s: Option<(int, int)>)
    ensures s.Some? ==> s.value.0 <= s.value.1
  {
    if rows == [] then None
    else
      var z := rows[|rows| - 1];
      var rest := Span(rows[..|rows| - 1], interval);
      if !Timed(z) then rest
      else
        var b := Bucket(Stamp(z).x, interval);
        match rest
        case None => Some((b, b))
        case Some((lo, hi)) => Some((if b < lo then b else lo, if b > hi then b else hi))
  }

  /** The buckets resample lays out run from the earliest row's to the latest row's. */
  lemma {:induction false} SpanIsRange(rows: seq<Row>, interval: Seconds)
    ensures Span(rows, interval) == None <==> forall r :: r in rows ==> !Timed(r)
    ensures Span(rows, interval).Some? ==>
      var (lo, hi) := Span(rows, interval).value;
      (forall r :: r in rows && Timed(r) ==> lo <= Bucket(Stamp(r).x, interval) <= hi) &&
      (exists r :: r in rows && InBucketOf(r, lo, interval)) &&
      (exists r :: r in rows && InBucketOf(r, hi, interval))
  {
    if rows != [] {
      var p, z := rows[..|rows| - 1], rows[|rows| - 1];
      SpanIsRange(p, interval);
      assert rows == p + [z];
      assert forall r :: r in rows <==> r in p || r == z;
    }
  }

  // ---------------------------------------------------------------------
  // The aggregated rows

  /** `agg(rules)` on one bucket: each configured column is reduced by its rule. */
  function ApplyRules(base: Row, ms: seq<Row>, rules: Rules): Row {
    if rules == [] then base
    else
      var (c, rule) := rules[|rules| - 1];
      ApplyRules(base, ms, rules[..|rules| - 1])[c := Reduce(rule, ms, c)]
  }

  /** Each configured column holds its rule's reduction of the bucket; other cells are the base row's. */
  lemma {:induction false} ApplyRulesAt(base: Row, ms: seq<Row>, rules: Rules, i: nat)
    requires Distinct(Names(rules)) && i < |rules|
    ensures Cell(ApplyRules(base, ms, rules), rules[i].0) == Reduce(rules[i].1, ms, rules[i].0)
  {
    var n := |rules| - 1;
    if i < n {
      var p := rules[..n];
      assert Names(p) == Names(rules)[..n];
      assert rules[i].0 != rules[n].0 by { assert Names(rules)[i] != Names(rules)[n]; }
      ApplyRulesAt(base, ms, p, i);
      assert p[i] == rules[i];
    }
  }

  lemma {:induction false} ApplyRulesOther(base: Row, ms: seq<Row>, rules: Rules, c: string)
    requires c !in Names(rules)
    ensures Cell(ApplyRules(base, ms, rules), c) == Cell(base, c)
  {
    if rules != [] {
      var n := |rules| - 1;
      assert Names(rules[..n]) == Names(rules)[..n];
      assert Names(rules)[n] == rules[n].0;
      ApplyRulesOther(base, ms, rules[..n], c);
    }
  }

  /** The row of bucket `b` of an instrument: its symbol, its start, its reductions. */
  function BucketRow(symbol: Value, b: int, ms: seq<Row>, rules: Rules, interval: Seconds): Row {
    ApplyRules(map["symbol" := symbol, "ts_event" := Num(BucketStart(b, interval))], ms, rules)
  }

  /** The rows of one instrument: one per bucket from its first to its last, empty buckets included. */
  function SymbolRows(symbol: Value, series: seq<Row>, rules: Rules, interval: Seconds): seq<Row> {
    match Span(series, interval)
    case None => []
    case Some((lo, hi)) =>
      seq(hi - lo + 1, j requires 0 <= j <= hi - lo => BucketRow(symbol, lo + j, InBucket(series, lo + j, interval), rules, interval))
  }

  /** The value a one-column group key holds. */
  function SymbolOf(k: Key): Value {
    if k == [] then Null else k[0]
  }

  /** The instruments' rows, one instrument after the other. */
  function AllBuckets(t: Table, ks: seq<Key>, rules: Rules, interval: Seconds): seq<Row> {
    if ks == [] then []
    else
      var k := ks[|ks| - 1];
      AllBuckets(t, ks[..|ks| - 1], rules, interval) + SymbolRows(SymbolOf(k), Series(t, k), rules, interval)
  }

  // ---------------------------------------------------------------------
  // Reading the time column as seconds

  /** The texts that read as a missing time. */
  const NatStrings: set<string> := {"NaT", "nat", "NAT", "nan", "NaN", "NAN"}

  /** The largest count of nanoseconds a datetime64[ns] holds, in either direction. */
  const MaxNanos: int := 0x7FFF_FFFF_FFFF_FFFF

  /** `x` seconds after the epoch is a time a datetime64[ns] can hold. */
  predicate Representable(x: real) {
    -(MaxNanos as real) <= x * 1000000000.0 <= MaxNanos as real
  }

  /**
   * `pd.to_datetime(v, unit="s")` on one cell. A missing value, an empty
   * text and a NaT text read as a missing time; a number, or a text that
   * `parse` reads as a number, reads as that many seconds when a
   * datetime64[ns] can hold it; anything else is an error (`None`).
   * `parse` stands for Python's `float` on text.
   */
  function ReadSeconds(v: Value, parse: string -> Option<real>): Option<Value> {
    match v
    case Null => Some(Null)
    case Num(x) => if Representable(x) then Some(v) else None
    case Text(s) =>
      if s == "" || s in NatStrings then Some(Null)
      else if parse(s).Some? && Representable(parse(s).value) then Some(Num(parse(s).value))
      else None
  }

  /** The row with its time replaced by `v`; a row without a time keeps its (missing) time. */
  function WithStamp(r: Row, v: Value): Row {
    if "ts_event" in r then r["ts_event" := v] else r
  }

  /** The time column read as seconds, row by row, or `None` when some time cannot be read. */
  function ToSeconds(rows: seq<Row>, parse: string -> Option<real>): Option<seq<Row>> {
    if rows == [] then Some([])
    else
      var last := rows[|rows| - 1];
      match (ToSeconds(rows[..|rows| - 1], parse), ReadSeconds(Stamp(last), parse))
      case (Some(done), Some(v)) => Some(done + [WithStamp(last, v)])
      case _ => None
  }

  /** Some row's time cannot be read as seconds. */
  predicate Unreadable(rows: seq<Row>, parse: string -> Option<real>) {
    exists i :: 0 <= i < |rows| && ReadSeconds(Stamp(rows[i]), parse).None?
  }

  /** A time that reads is a missing time or a number of seconds a datetime64[ns] can hold. */
  predicate ReadTime(v: Value) {
    v.Null? || (v.Num? && Representable(v.x))
  }

  /**
   * What a cell reads as: a number in range stays as it is, a number out of
   * range fails, an empty or NaT text is missing, and a text reads as the
   * number `parse` gives for it, failing when that is absent or out of range.
   */
  lemma ReadSecondsCases(v: Value, parse: string -> Option<real>)
    ensures ReadSeconds(v, parse).Some? ==> ReadTime(ReadSeconds(v, parse).value)
    ensures v.Null? ==> ReadSeconds(v, parse) == Some(Null)
    ensures v.Num? ==> (ReadSeconds(v, parse).Some? <==> Representable(v.x))
    ensures ReadTime(v) ==> ReadSeconds(v, parse) == Some(v)
    ensures v.Text? && (v.s == "" || v.s in NatStrings) ==> ReadSeconds(v, parse) == Some(Null)
    ensures v.Text? && v.s != "" && v.s !in NatStrings ==>
      (ReadSeconds(v, parse).Some? <==> parse(v.s).Some? && Representable(parse(v.s).value)) &&
      (ReadSeconds(v, parse).Some? ==> ReadSeconds(v, parse).value == Num(parse(v.s).value))
  {
  }

  /** Reading fails exactly when some row's time cannot be read. */
  lemma {:induction false} ToSecondsFails(rows: seq<Row>, parse: string -> Option<real>)
    ensures ToSeconds(rows, parse).None? <==> Unreadable(rows, parse)
  {
    if rows != [] {
      var init := rows[..|rows| - 1];
      ToSecondsFails(init, parse);
      if Unreadable(init, parse) {
        var i :| 0 <= i < |init| && ReadSeconds(Stamp(init[i]), parse).None?;
        assert rows[i] == init[i];
      }
      if Unreadable(rows, parse) {
        var i :| 0 <= i < |rows| && ReadSeconds(Stamp(rows[i]), parse).None?;
        if i < |init| {
          assert init[i] == rows[i];
        }
      }
    }
  }

  /**
   * When reading succeeds, row `i` of the result is row `i` of the input
   * with its time read as seconds and every other cell unchanged.
   */
  lemma {:induction false} ToSecondsRows(rows: seq<Row>, parse: string -> Option<real>)
    requires ToSeconds(rows, parse).Some?
    ensures var out := ToSeconds(rows, parse).value;
      |out| == |rows| &&
      forall i :: 0 <= i < |rows| ==>
        Some(Stamp(out[i])) == ReadSeconds(Stamp(rows[i]), parse) && ReadTime(Stamp(out[i])) &&
        out[i].Keys == rows[i].Keys && forall c :: c != "ts_event" ==> Cell(out[i], c) == Cell(rows[i], c)
  {
    if rows != [] {
      var init := rows[..|rows| - 1];
      var last := rows[|rows| - 1];
      ToSecondsRows(init, parse);
      var v := ReadSeconds(Stamp(last), parse).value;
      ReadSecondsCases(Stamp(last), parse);
      var out := ToSeconds(rows, parse).value;
      assert out == ToSeconds(init, parse).value + [WithStamp(last, v)];
      forall i | 0 <= i < |rows|
        ensures Some(Stamp(out[i])) == ReadSeconds(Stamp(rows[i]), parse) && ReadTime(Stamp(out[i])) &&
                out[i].Keys == rows[i].Keys && forall c :: c != "ts_event" ==> Cell(out[i], c) == Cell(rows[i], c)
      {
        if i < |init| {
          assert rows[i] == init[i];
        }
      }
    }
  }

  /** Rows whose times are already missing or seconds in range read as themselves. */
  lemma {:induction false} ToSecondsKeeps(rows: seq<Row>, parse: string -> Option<real>)
    requires forall i :: 0 <= i < |rows| ==> ReadTime(Stamp(rows[i]))
    ensures ToSeconds(rows, parse) == Some(rows)
  {
    if rows != [] {
      var init := rows[..|rows| - 1];
      var last := rows[|rows| - 1];
      assert forall i :: 0 <= i < |init| ==> init[i] == rows[i];
      ToSecondsKeeps(init, parse);
      ReadSecondsCases(Stamp(last), parse);
      assert WithStamp(last, Stamp(last)) == last;
      assert init + [last] == rows;
    }
  }

  /** Reading the times a second time changes nothing. */
  lemma ToSecondsIdempotent(rows: seq<Row>, parse: string -> Option<real>)
    requires ToSeconds(rows, parse).Some?
    ensures ToSeconds(ToSeconds(rows, parse).value, parse) == ToSeconds(rows, parse)
  {
    ToSecondsRows(rows, parse);
    ToSecondsKeeps(ToSeconds(rows, parse).value, parse);
  }

  // ---------------------------------------------------------------------
  // Aggregating

  /**
   * `aggregate_order_book_data`: the time column must exist and read as
   * seconds; then the rows with their times read are resampled.
   */
  function Aggregated(t: Table, levels: nat, interval: Seconds, parse: string -> Option<real>): Result<Table> {
    if "ts_event" !in t.columns then Err(KeyNotFound(["ts_event"]))
    else
      match ToSeconds(t.rows, parse)
      case None => Err(BadTimestamp)
      case Some(rows) => Resampled(Table(t.columns, rows), levels, interval)
  }

  /**
   * Grouping by instrument and resampling: the symbol column and every
   * configured column must exist; the result has the symbol, the bucket
   * start and the configured columns.
   */
  function Resampled(t: Table, levels: nat, interval: Seconds): Result<Table> {
    if "symbol" !in t.columns then Err(KeyNotFound(["symbol"]))
    else
      var rules := AggregationRules(levels);
      var absent := Missing(t.columns, Names(rules));
      if absent != [] then Err(KeyNotFound(absent))
      else Ok(Table(["symbol", "ts_event"] + Names(rules), AllBuckets(t, GroupKeys(t.rows, SymbolKey), rules, interval)))
  }

  /**
   * The caller's table gets its time column replaced by the times read as
   * seconds, in place, before the aggregation; a table whose time column is
   * absent or cannot be read is left alone.
   */
  method AggregateOrderBookData(f: Frame, levels: nat, interval: Seconds, parse: string -> Option<real>) returns (r: Result<Table>)
    modifies f
    ensures r == Aggregated(old(f.table), levels, interval, parse)
    ensures f.table == if "ts_event" in old(f.table).columns && ToSeconds(old(f.table).rows, parse).Some?
                       then Table(old(f.table).columns, ToSeconds(old(f.table).rows, parse).value)
                       else old(f.table)
  {
    if "ts_event" !in f.table.columns {
      return Err(KeyNotFound(["ts_event"]));
    }
    var read := ToSeconds(f.table.rows, parse);
    if read.None? {
      return Err(BadTimestamp);
    }
    f.table := Table(f.table.columns, read.value);
    var rules := BuildAggregationRules(levels);
    if "symbol" !in f.table.columns {
      return Err(KeyNotFound(["symbol"]));
    }
    var absent := Missing(f.table.columns, Names(rules));
    if absent != [] {
      return Err(KeyNotFound(absent));
    }
    var groups := AllBuckets(f.table, GroupKeys(f.table.rows, SymbolKey), rules, interval);
    r := Ok(Table(["symbol", "ts_event"] + Names(rules), groups));
  }

  // ---------------------------------------------------------------------
  // What the aggregated rows hold

  /** The symbol and time columns are not among the configured columns. */
  lemma KeyColumnsNotConfigured(levels: nat)
    ensures "symbol" !in Names(AggregationRules(levels)) && "ts_event" !in Names(AggregationRules(levels))
  {
    NamesAppend(LadderRules(levels), AuxRules);
    assert Names(AuxRules) == ["action", "side", "price"];
    LadderNamesLongAll(levels, "symbol");
    LadderNamesLongAll(levels, "ts_event");
  }

  /** The cells of a bucket's row under the rules of `aggregate_order_book_data`. */
  lemma BucketRowCells(symbol: Value, b: int, ms: seq<Row>, levels: nat, interval: Seconds, level: nat)
    requires level < levels
    ensures var row := BucketRow(symbol, b, ms, AggregationRules(levels), interval);
      Cell(row, BidPx(level)) == LastIn(ms, BidPx(level)) && Cell(row, AskPx(level)) == LastIn(ms, AskPx(level)) &&
      Cell(row, BidSz(level)) == Num(SumIn(ms, BidSz(level))) && Cell(row, AskSz(level)) == Num(SumIn(ms, AskSz(level)))
  {
    var rules := AggregationRules(levels);
    var base := map["symbol" := symbol, "ts_event" := Num(BucketStart(b, interval))];
    AggregationNamesUnique(levels);
    AggregationRulesAt(levels, level);
    ApplyRulesAt(base, ms, rules, 4 * level);
    ApplyRulesAt(base, ms, rules, 4 * level + 1);
    ApplyRulesAt(base, ms, rules, 4 * level + 2);
    ApplyRulesAt(base, ms, rules, 4 * level + 3);
  }

  lemma BucketRowKeyCells(symbol: Value, b: int, ms: seq<Row>, levels: nat, interval: Seconds)
    ensures var row := BucketRow(symbol, b, ms, AggregationRules(levels), interval);
      Cell(row, "symbol") == symbol && Cell(row, "ts_event") == Num(BucketStart(b, interval)) &&
      Cell(row, "action") == LastIn(ms, "action") && Cell(row, "side") == LastIn(ms, "side") &&
      Cell(row, "price") == LastIn(ms, "price")
  {
    var rules := AggregationRules(levels);
    var base := map["symbol" := symbol, "ts_event" := Num(BucketStart(b, interval))];
    KeyColumnsNotConfigured(levels);
    ApplyRulesOther(base, ms, rules, "symbol");
    ApplyRulesOther(base, ms, rules, "ts_event");
    AggregationNamesUnique(levels);
    AggregationRulesAux(levels);
    assert rules[4 * levels] == ("action", Last) && rules[4 * levels + 1] == ("side", Last) && rules[4 * levels + 2] == ("price", Last);
    ApplyRulesAt(base, ms, rules, 4 * levels);
    ApplyRulesAt(base, ms, rules, 4 * levels + 1);
    ApplyRulesAt(base, ms, rules, 4 * levels + 2);
  }

  /** Bucket `b` lies between an instrument's first and last bucket. */
  predicate InSpan(rows: seq<Row>, b: int, interval: Seconds) {
    Span(rows, interval).Some? && Span(rows, interval).value.0 <= b <= Span(rows, interval).value.1
  }

  /**
   * `row` is the aggregate of instrument `k`'s bucket `b`: sizes are summed
   * over the instrument's rows in that bucket, prices and the auxiliary
   * columns are the last values of those rows taken in time order.
   */
  predicate AggregatesBucket(row: Row, t: Table, k: Key, b: int, levels: nat, interval: Seconds) {
    var raw := InBucket(RowsWithKey(t.rows, SymbolKey, k), b, interval);
    var ms := InBucket(Series(t, k), b, interval);
    Cell(row, "symbol") == SymbolOf(k) && Cell(row, "ts_event") == Num(BucketStart(b, interval)) &&
    (forall level :: 0 <= level < levels ==>
      Cell(row, BidSz(level)) == Num(SumIn(raw, BidSz(level))) && Cell(row, AskSz(level)) == Num(SumIn(raw, AskSz(level))) &&
      Cell(row, BidPx(level)) == LastIn(ms, BidPx(level)) && Cell(row, AskPx(level)) == LastIn(ms, AskPx(level))) &&
    Cell(row, "action") == LastIn(ms, "action") && Cell(row, "side") == LastIn(ms, "side") && Cell(row, "price") == LastIn(ms, "price")
  }

  /** A bucket's rows in time order are exactly the instrument's input rows in that bucket. */
  lemma MembersInTimeOrder(t: Table, k: Key, b: int, interval: Seconds)
    ensures var ms := InBucket(Series(t, k), b, interval);
      multiset(ms) == multiset(InBucket(RowsWithKey(t.rows, SymbolKey, k), b, interval)) &&
      Ordered(ms) && forall i :: 0 <= i < |ms| ==> InBucketOf(ms[i], b, interval)
  {
    var ms := InBucket(Series(t, k), b, interval);
    SeriesIsGroup(t, k);
    InBucketPermutes(Series(t, k), RowsWithKey(t.rows, SymbolKey, k), b, interval);
    InBucketOrdered(Series(t, k), b, interval);
    forall i | 0 <= i < |ms| ensures InBucketOf(ms[i], b, interval) {
      InBucketMembers(Series(t, k), b, interval, ms[i]);
    }
  }

  lemma BucketRowAggregates(t: Table, k: Key, b: int, levels: nat, interval: Seconds)
    ensures AggregatesBucket(BucketRow(SymbolOf(k), b, InBucket(Series(t, k), b, interval), AggregationRules(levels), interval), t, k, b, levels, interval)
  {
    var ms := InBucket(Series(t, k), b, interval);
    var raw := InBucket(RowsWithKey(t.rows, SymbolKey, k), b, interval);
    MembersInTimeOrder(t, k, b, interval);
    BucketRowKeyCells(SymbolOf(k), b, ms, levels, interval);
    forall level | 0 <= level < levels
      ensures var row := BucketRow(SymbolOf(k), b, ms, AggregationRules(levels), interval);
        Cell(row, BidSz(level)) == Num(SumIn(raw, BidSz(level))) && Cell(row, AskSz(level)) == Num(SumIn(raw, AskSz(level))) &&
        Cell(row, BidPx(level)) == LastIn(ms, BidPx(level)) && Cell(row, AskPx(level)) == LastIn(ms, AskPx(level))
    {
      BucketRowCells(SymbolOf(k), b, ms, levels, interval, level);
      SumInPermutes(ms, raw, BidSz(level));
      SumInPermutes(ms, raw, AskSz(level));
    }
  }

  /** Every row of the concatenation is some instrument's row for a bucket of its span. */
  lemma {:induction false} AllBucketsRow(t: Table, ks: seq<Key>, rules: Rules, interval: Seconds, i: nat)
    requires i < |AllBuckets(t, ks, rules, interval)|
    ensures exists k, b ::
              k in ks && InSpan(Series(t, k), b, interval) &&
              AllBuckets(t, ks, rules, interval)[i] == BucketRow(SymbolOf(k), b, InBucket(Series(t, k), b, interval), rules, interval)
  {
    var p, k := ks[..|ks| - 1], ks[|ks| - 1];
    var a := AllBuckets(t, p, rules, interval);
    if i < |a| {
      AllBucketsRow(t, p, rules, interval, i);
      var k', b :| k' in p && InSpan(Series(t, k'), b, interval) &&
        a[i] == BucketRow(SymbolOf(k'), b, InBucket(Series(t, k'), b, interval), rules, interval);
      assert k' in ks;
    } else {
      var (lo, hi) := Span(Series(t, k), interval).value;
      var b := lo + (i - |a|);
      assert InSpan(Series(t, k), b, interval);
    }
  }

  /** And every row of every instrument's span occurs in the concatenation. */
  lemma InPrefix<T>(s: seq<T>, x: T)
    requires x in s && s[|s| - 1] != x
    ensures x in s[..|s| - 1]
  {
    assert s == s[..|s| - 1] + [s[|s| - 1]];
  }

  /** And every row of every instrument's span occurs in the concatenation. */
  lemma {:induction false} AllBucketsContains(t: Table, ks: seq<Key>, rules: Rules, interval: Seconds, k: Key, row: Row)
    requires k in ks && row in SymbolRows(SymbolOf(k), Series(t, k), rules, interval)
    ensures row in AllBuckets(t, ks, rules, interval)
  {
    var p := ks[..|ks| - 1];
    if ks[|ks| - 1] != k {
      InPrefix(ks, k);
      AllBucketsContains(t, p, rules, interval, k, row);
    }
  }

  // ---------------------------------------------------------------------
  // Properties of `aggregate_order_book_data`

  /**
   * It fails exactly when a column it reads is absent or a time cannot be
   * read as seconds; the error names only absent, read columns. When it
   * succeeds it resamples the rows with their times read.
   */
  lemma AggregatedFails(t: Table, levels: nat, interval: Seconds, parse: string -> Option<real>)
    ensures var r := Aggregated(t, levels, interval, parse);
      (r.Err? <==> ("ts_event" in t.columns && Unreadable(t.rows, parse)) ||
                   exists c :: c in ["ts_event", "symbol"] + Names(AggregationRules(levels)) && c !in t.columns) &&
      (r == Err(BadTimestamp) <==> "ts_event" in t.columns && Unreadable(t.rows, parse)) &&
      (r.Err? && r.error.KeyNotFound? ==>
         r.error.names != [] &&
         forall c :: c in r.error.names ==> c !in t.columns && c in ["ts_event", "symbol"] + Names(AggregationRules(levels))) &&
      (r.Ok? ==> ToSeconds(t.rows, parse).Some? && r == Resampled(Table(t.columns, ToSeconds(t.rows, parse).value), levels, interval))
  {
    var names := Names(AggregationRules(levels));
    var read := ["ts_event", "symbol"] + names;
    assert read[0] == "ts_event" && read[1] == "symbol";
    ToSecondsFails(t.rows, parse);
    if "ts_event" in t.columns && !Unreadable(t.rows, parse) && "symbol" in t.columns {
      var absent := Missing(t.columns, names);
      if absent != [] {
        assert absent[0] in absent;
        forall c | c in absent ensures c in read { assert c in names; }
      } else {
        forall c | c in read ensures c in t.columns {
          if c in names { assert c !in absent; }
        }
      }
    }
  }

  /** The result's columns: the symbol, the bucket start, then the configured columns in rule order. */
  lemma ResampledColumns(t: Table, levels: nat, interval: Seconds)
    requires Resampled(t, levels, interval).Ok?
    ensures var cols := Resampled(t, levels, interval).value.columns;
      cols == ["symbol", "ts_event"] + Names(AggregationRules(levels)) && |cols| == 4 * levels + 5 && Distinct(cols)
  {
    AggregationNamesUnique(levels);
    KeyColumnsNotConfigured(levels);
    DistinctAppend(["symbol", "ts_event"], Names(AggregationRules(levels)));
  }

  /** Every result row aggregates one bucket of one instrument, within that instrument's span. */
  lemma ResampledRow(t: Table, levels: nat, interval: Seconds, i: nat)
    requires Resampled(t, levels, interval).Ok? && i < |Resampled(t, levels, interval).value.rows|
    ensures exists k, b ::
              k in GroupKeys(t.rows, SymbolKey) && InSpan(Series(t, k), b, interval) &&
              AggregatesBucket(Resampled(t, levels, interval).value.rows[i], t, k, b, levels, interval)
  {
    var ks := GroupKeys(t.rows, SymbolKey);
    var rules := AggregationRules(levels);
    var all := AllBuckets(t, ks, rules, interval);
    assert Resampled(t, levels, interval).value.rows == all by {
      ResampledRowsAre(t, levels, interval);
    }
    AllBucketsRow(t, ks, rules, interval, i);
    var k, b :| k in ks && InSpan(Series(t, k), b, interval) &&
      all[i] == BucketRow(SymbolOf(k), b, InBucket(Series(t, k), b, interval), rules, interval);
    BucketRowAggregates(t, k, b, levels, interval);
    assert AggregatesBucket(all[i], t, k, b, levels, interval);
  }

  /**
   * Every input row with a symbol and a time is aggregated: the result has
   * the row of its instrument's bucket, and the row is among that bucket's.
   */
  lemma ResampledCovers(t: Table, levels: nat, interval: Seconds, r: Row)
    requires Resampled(t, levels, interval).Ok?
    requires r in t.rows && Timed(r) && Cell(r, "symbol") != Null
    ensures var k, b := [Cell(r, "symbol")], Bucket(Stamp(r).x, interval);
      var rows := Resampled(t, levels, interval).value.rows;
      r in InBucket(RowsWithKey(t.rows, SymbolKey, k), b, interval) &&
      exists i :: 0 <= i < |rows| && AggregatesBucket(rows[i], t, k, b, levels, interval)
  {
    var k, b := [Cell(r, "symbol")], Bucket(Stamp(r).x, interval);
    RowOfItsBucket(t, r, interval);
    ResampledHasBucket(t, levels, interval, k, b);
  }

  /**
   * Every bucket from an instrument's first to its last has its row in the
   * result, including buckets that hold no row (their sizes sum to 0 and
   * their prices are missing, see `EmptyBucket`).
   */
  lemma ResampledHasBucket(t: Table, levels: nat, interval: Seconds, k: Key, b: int)
    requires Resampled(t, levels, interval).Ok?
    requires k in GroupKeys(t.rows, SymbolKey) && InSpan(Series(t, k), b, interval)
    ensures var rows := Resampled(t, levels, interval).value.rows;
      exists i :: 0 <= i < |rows| && AggregatesBucket(rows[i], t, k, b, levels, interval)
  {
    var ks := GroupKeys(t.rows, SymbolKey);
    var rules := AggregationRules(levels);
    var row := BucketRow(SymbolOf(k), b, InBucket(Series(t, k), b, interval), rules, interval);
    var j := SymbolRowsAt(SymbolOf(k), Series(t, k), rules, interval, b);
    var all := AllBuckets(t, ks, rules, interval);
    assert row in all by {
      AllBucketsContains(t, ks, rules, interval, k, row);
    }
    var i :| 0 <= i < |all| && all[i] == row;
    assert Resampled(t, levels, interval).value.rows == all by {
      ResampledRowsAre(t, levels, interval);
    }
    BucketRowAggregates(t, k, b, levels, interval);
  }

  /** A bucket no row falls in sums its sizes to 0 and has no price, action, side or trade price. */
  lemma EmptyBucket(row: Row, t: Table, k: Key, b: int, levels: nat, interval: Seconds, level: nat)
    requires AggregatesBucket(row, t, k, b, levels, interval) && level < levels
    requires InBucket(RowsWithKey(t.rows, SymbolKey, k), b, interval) == []
    ensures Cell(row, BidSz(level)) == Num(0.0) && Cell(row, AskSz(level)) == Num(0.0)
    ensures Cell(row, BidPx(level)) == Null && Cell(row, AskPx(level)) == Null
    ensures Cell(row, "action") == Null && Cell(row, "side") == Null && Cell(row, "price") == Null
  {
    MembersInTimeOrder(t, k, b, interval);
    assert InBucket(Series(t, k), b, interval) == [] by {
      assert |InBucket(Series(t, k), b, interval)| == |multiset(InBucket(Series(t, k), b, interval))|;
    }
  }

  lemma ResampledRowsAre(t: Table, levels: nat, interval: Seconds)
    requires Resampled(t, levels, interval).Ok?
    ensures Resampled(t, levels, interval).value.rows == AllBuckets(t, GroupKeys(t.rows, SymbolKey), AggregationRules(levels), interval)
  {
  }

  lemma RowOfItsBucket(t: Table, r: Row, interval: Seconds)
    requires r in t.rows && Timed(r) && Cell(r, "symbol") != Null
    ensures var k, b := [Cell(r, "symbol")], Bucket(Stamp(r).x, interval);
      k in GroupKeys(t.rows, SymbolKey) && r in InBucket(RowsWithKey(t.rows, SymbolKey, k), b, interval) &&
      InSpan(Series(t, k), b, interval)
  {
    var k, b := [Cell(r, "symbol")], Bucket(Stamp(r).x, interval);
    assert KeyOf(r, SymbolKey) == k;
    assert k in KeySet(t.rows, SymbolKey) by { assert Complete(k); }
    RowsWithKeyHas(t.rows, SymbolKey, k, r);
    var g := RowsWithKey(t.rows, SymbolKey, k);
    InBucketMembers(g, b, interval, r);
    SeriesIsGroup(t, k);
    assert r in Series(t, k) by { assert r in multiset(g); }
    SpanIsRange(Series(t, k), interval);
  }

  /** Each bucket of the span has its row among the instrument's rows. */
  lemma SymbolRowsAt(symbol: Value, series: seq<Row>, rules: Rules, interval: Seconds, b: int) returns (j: nat)
    requires InSpan(series, b, interval)
    ensures j < |SymbolRows(symbol, series, rules, interval)| &&
      SymbolRows(symbol, series, rules, interval)[j] == BucketRow(symbol, b, InBucket(series, b, interval), rules, interval)
  {
    j := b - Span(series, interval).value.0;
  }


  /** The symbol and the start of a bucket's row, under rules that leave both alone. */
  lemma BucketRowKey(symbol: Value, b: int, ms: seq<Row>, rules: Rules, interval: Seconds)
    requires "symbol" !in Names(rules) && "ts_event" !in Names(rules)
    ensures Cell(BucketRow(symbol, b, ms, rules, interval), "symbol") == symbol
    ensures Cell(BucketRow(symbol, b, ms, rules, interval), "ts_event") == Num(BucketStart(b, interval))
  {
    var base := map["symbol" := symbol, "ts_event" := Num(BucketStart(b, interval))];
    ApplyRulesOther(base, ms, rules, "symbol");
    ApplyRulesOther(base, ms, rules, "ts_event");
  }

  /** An instrument's rows start at its first bucket and step one interval at a time. */
  lemma SymbolRowsStamps(symbol: Value, series: seq<Row>, rules: Rules, interval: Seconds, j: nat)
    requires "symbol" !in Names(rules) && "ts_event" !in Names(rules)
    requires j < |SymbolRows(symbol, series, rules, interval)|
    ensures var rows := SymbolRows(symbol, series, rules, interval);
      Cell(rows[j], "symbol") == symbol &&
      Cell(rows[j], "ts_event") == Num(BucketStart(Span(series, interval).value.0 + j, interval))
  {
    var lo := Span(series, interval).value.0;
    var rows := SymbolRows(symbol, series, rules, interval);
    assert rows[j] == BucketRow(symbol, lo + j, InBucket(series, lo + j, interval), rules, interval);
    BucketRowKey(symbol, lo + j, InBucket(series, lo + j, interval), rules, interval);
  }

  /** Consecutive buckets start one interval apart. */
  lemma BucketStartStep(b: int, interval: Seconds)
    ensures BucketStart(b + 1, interval) == BucketStart(b, interval) + interval as real
  {
    assert (b + 1) * interval == b * interval + interval;
  }

  /** No two rows share both the symbol and the bucket start. */
  predicate DistinctBuckets(rows: seq<Row>) {
    forall i, j :: 0 <= i < j < |rows| ==>
      Cell(rows[i], "symbol") != Cell(rows[j], "symbol") || Cell(rows[i], "ts_event") != Cell(rows[j], "ts_event")
  }

  /** One instrument's rows carry its symbol and pairwise different bucket starts. */
  lemma SymbolRowsDistinct(symbol: Value, series: seq<Row>, rules: Rules, interval: Seconds)
    requires "symbol" !in Names(rules) && "ts_event" !in Names(rules)
    ensures var rows := SymbolRows(symbol, series, rules, interval);
      DistinctBuckets(rows) && forall j :: 0 <= j < |rows| ==> Cell(rows[j], "symbol") == symbol
  {
    var rows := SymbolRows(symbol, series, rules, interval);
    forall j | 0 <= j < |rows| ensures Cell(rows[j], "symbol") == symbol {
      SymbolRowsStamps(symbol, series, rules, interval, j);
    }
    forall i, j | 0 <= i < j < |rows| ensures Cell(rows[i], "ts_event") != Cell(rows[j], "ts_event") {
      SymbolRowsStamps(symbol, series, rules, interval, i);
      SymbolRowsStamps(symbol, series, rules, interval, j);
      var lo := Span(series, interval).value.0;
      BucketStartIncreasing(lo + i, lo + j, interval);
    }
  }

  /** Every row of the concatenation carries the symbol of one of the instruments. */
  lemma AllBucketsSymbol(t: Table, ks: seq<Key>, rules: Rules, interval: Seconds, i: nat) returns (k: Key)
    requires "symbol" !in Names(rules) && "ts_event" !in Names(rules)
    requires i < |AllBuckets(t, ks, rules, interval)|
    ensures k in ks && Cell(AllBuckets(t, ks, rules, interval)[i], "symbol") == SymbolOf(k)
  {
    AllBucketsRow(t, ks, rules, interval, i);
    var k', b :| k' in ks && InSpan(Series(t, k'), b, interval) &&
      AllBuckets(t, ks, rules, interval)[i] == BucketRow(SymbolOf(k'), b, InBucket(Series(t, k'), b, interval), rules, interval);
    BucketRowKey(SymbolOf(k'), b, InBucket(Series(t, k'), b, interval), rules, interval);
    k := k';
  }

  /** Rows of different symbols never clash. */
  lemma DistinctBucketsAppend(a: seq<Row>, b: seq<Row>)
    requires DistinctBuckets(a) && DistinctBuckets(b)
    requires forall i, j :: 0 <= i < |a| && 0 <= j < |b| ==> Cell(a[i], "symbol") != Cell(b[j], "symbol")
    ensures DistinctBuckets(a + b)
  {
    var all := a + b;
    forall i, j | 0 <= i < j < |all|
      ensures Cell(all[i], "symbol") != Cell(all[j], "symbol") || Cell(all[i], "ts_event") != Cell(all[j], "ts_event")
    {
      if j < |a| {
        assert all[i] == a[i] && all[j] == a[j];
      } else if i >= |a| {
        assert all[i] == b[i - |a|] && all[j] == b[j - |a|];
      } else {
        assert all[i] == a[i] && all[j] == b[j - |a|];
      }
    }
  }

  lemma {:induction false} AllBucketsDistinct(t: Table, ks: seq<Key>, rules: Rules, interval: Seconds)
    requires Distinct(ks) && forall i :: 0 <= i < |ks| ==> |ks[i]| == 1
    requires "symbol" !in Names(rules) && "ts_event" !in Names(rules)
    ensures DistinctBuckets(AllBuckets(t, ks, rules, interval))
  {
    if ks != [] {
      var p, k := ks[..|ks| - 1], ks[|ks| - 1];
      assert Distinct(p);
      AllBucketsDistinct(t, p, rules, interval);
      var a := AllBuckets(t, p, rules, interval);
      var sk := SymbolRows(SymbolOf(k), Series(t, k), rules, interval);
      SymbolRowsDistinct(SymbolOf(k), Series(t, k), rules, interval);
      forall i, j | 0 <= i < |a| && 0 <= j < |sk| ensures Cell(a[i], "symbol") != Cell(sk[j], "symbol") {
        var k' := AllBucketsSymbol(t, p, rules, interval, i);
        var m :| 0 <= m < |p| && p[m] == k';
        assert ks[m] == k' && ks[|ks| - 1] == k;
        assert k' == [k'[0]] && k == [k[0]];
      }
      DistinctBucketsAppend(a, sk);
      assert a + sk == AllBuckets(t, ks, rules, interval);
    }
  }

  /** The result has one row per (symbol, bucket start). */
  lemma ResampledDistinct(t: Table, levels: nat, interval: Seconds)
    requires Resampled(t, levels, interval).Ok?
    ensures DistinctBuckets(Resampled(t, levels, interval).value.rows)
  {
    var ks := GroupKeys(t.rows, SymbolKey);
    forall i | 0 <= i < |ks| ensures |ks[i]| == 1 {
      assert ks[i] in KeySet(t.rows, SymbolKey);
    }
    KeyColumnsNotConfigured(levels);
    ResampledRowsAre(t, levels, interval);
    AllBucketsDistinct(t, ks, AggregationRules(levels), interval);
  }

  /** An instrument whose rows all fall in one bucket has a single row. */
  lemma SymbolRowsSingle(symbol: Value, series: seq<Row>, rules: Rules, interval: Seconds, b: int)
    requires Span(series, interval) == Some((b, b))
    ensures SymbolRows(symbol, series, rules, interval) == [BucketRow(symbol, b, InBucket(series, b, interval), rules, interval)]
  {
    var rows := SymbolRows(symbol, series, rules, interval);
    assert |rows| == 1;
    assert rows[0] == BucketRow(symbol, b, InBucket(series, b, interval), rules, interval);
  }

  /**
   * Two quotes of one instrument in one bucket, with bid sizes 50 and 30:
   * the bucket's bid size is 80 and its bid price is the second quote's.
   */
  lemma TwoQuotes(q1: Row, q2: Row, cols: seq<string>, interval: Seconds, parse: string -> Option<real>)
    requires "ts_event" in cols && "symbol" in cols && forall c :: c in Names(AggregationRules(1)) ==> c in cols
    requires Cell(q1, "symbol") != Null && Cell(q1, "symbol") == Cell(q2, "symbol")
    requires Timed(q1) && Timed(q2) && Stamp(q1).x <= Stamp(q2).x && Representable(Stamp(q1).x) && Representable(Stamp(q2).x)
    requires Bucket(Stamp(q1).x, interval) == Bucket(Stamp(q2).x, interval)
    requires Cell(q1, BidSz(0)) == Num(50.0) && Cell(q2, BidSz(0)) == Num(30.0) && Cell(q2, BidPx(0)).Num?
    ensures var r := Aggregated(Table(cols, [q1, q2]), 1, interval, parse);
      r.Ok? && |r.value.rows| == 1 &&
      Cell(r.value.rows[0], BidSz(0)) == Num(80.0) && Cell(r.value.rows[0], BidPx(0)) == Cell(q2, BidPx(0))
  {
    var t := Table(cols, [q1, q2]);
    var rules := AggregationRules(1);
    var k := [Cell(q1, "symbol")];
    var b := Bucket(Stamp(q1).x, interval);
    ToSecondsKeeps(t.rows, parse);
    MissingNone(cols, Names(rules));
    TwoQuotesGroup(q1, q2, cols);
    TwoQuotesBucket(q1, q2, interval);
    var row := BucketRow(SymbolOf(k), b, [q1, q2], rules, interval);
    SymbolRowsSingle(SymbolOf(k), [q1, q2], rules, interval, b);
    assert AllBuckets(t, [k], rules, interval) == [row] by {
      assert [k][..0] == [];
    }
    BucketRowCells(SymbolOf(k), b, [q1, q2], 1, interval, 0);
  }

  lemma TwoQuotesGroup(q1: Row, q2: Row, cols: seq<string>)
    requires Cell(q1, "symbol") != Null && Cell(q1, "symbol") == Cell(q2, "symbol")
    requires Timed(q1) && Timed(q2) && Stamp(q1).x <= Stamp(q2).x
    ensures var t, k := Table(cols, [q1, q2]), [Cell(q1, "symbol")];
      GroupKeys(t.rows, SymbolKey) == [k] && Series(t, k) == [q1, q2]
  {
    var t, k := Table(cols, [q1, q2]), [Cell(q1, "symbol")];
    assert KeyOf(q1, SymbolKey) == k && KeyOf(q2, SymbolKey) == k;
    assert GroupKeys(t.rows, SymbolKey) == [k] by {
      var ks := MapSeq(t.rows, r => KeyOf(r, SymbolKey));
      assert ks == [k, k];
      assert ks[..1] == [k] && [k][..0] == [];
      assert SortedDistinct([k]) == [k];
    }
    assert RowsWithKey(t.rows, SymbolKey, k) == [q1, q2] by {
      assert t.rows[..1] == [q1] && [q1][..0] == [];
    }
    TsKeyLe(q1, q2);
    assert [q1, q2][..1] == [q1] && [q1][..0] == [];
    assert SortBy([q1], TsKey) == [q1];
  }

  lemma TwoQuotesBucket(q1: Row, q2: Row, interval: Seconds)
    requires Timed(q1) && Timed(q2)
    requires Bucket(Stamp(q1).x, interval) == Bucket(Stamp(q2).x, interval)
    requires Cell(q1, BidSz(0)) == Num(50.0) && Cell(q2, BidSz(0)) == Num(30.0) && Cell(q2, BidPx(0)).Num?
    ensures var b := Bucket(Stamp(q1).x, interval);
      Span([q1, q2], interval) == Some((b, b)) && InBucket([q1, q2], b, interval) == [q1, q2] &&
      SumIn([q1, q2], BidSz(0)) == 80.0 && LastIn([q1, q2], BidPx(0)) == Cell(q2, BidPx(0))
  {
    TwoQuotesSpan(q1, q2, interval);
    TwoQuotesInBucket(q1, q2, interval);
    TwoQuotesSum(q1, q2);
    assert LastIn([q1, q2], BidPx(0)) == Cell(q2, BidPx(0));
  }

  lemma TwoQuotesSpan(q1: Row, q2: Row, interval: Seconds)
    requires Timed(q1) && Timed(q2)
    requires Bucket(Stamp(q1).x, interval) == Bucket(Stamp(q2).x, interval)
    ensures var b := Bucket(Stamp(q1).x, interval); Span([q1, q2], interval) == Some((b, b))
  {
    var b := Bucket(Stamp(q1).x, interval);
    assert [q1, q2][..1] == [q1] && [q1][..0] == [];
    assert Span([q1], interval) == Some((b, b));
  }

  lemma TwoQuotesInBucket(q1: Row, q2: Row, interval: Seconds)
    requires Timed(q1) && Timed(q2)
    requires Bucket(Stamp(q1).x, interval) == Bucket(Stamp(q2).x, interval)
    ensures InBucket([q1, q2], Bucket(Stamp(q1).x, interval), interval) == [q1, q2]
  {
    var b := Bucket(Stamp(q1).x, interval);
    assert [q1, q2][..1] == [q1] && [q1][..0] == [];
    assert InBucketOf(q1, b, interval) && InBucketOf(q2, b, interval);
    assert InBucket([q1], b, interval) == [q1];
  }

  lemma TwoQuotesSum(q1: Row, q2: Row)
    requires Cell(q1, BidSz(0)) == Num(50.0) && Cell(q2, BidSz(0)) == Num(30.0)
    ensures SumIn([q1, q2], BidSz(0)) == 80.0
  {
    assert [q1, q2][..1] == [q1] && [q1][..0] == [];
    assert SumIn([q1], BidSz(0)) == 50.0;
  }
}
