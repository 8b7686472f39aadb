/**
 * Tables as pandas holds them: an ordered list of column names and a list of
 * rows, each row a map from column name to cell. Grouping, stable sorting and
 * the column operations that the pipeline uses are defined here once.
 */
module Tables {
  import opened Values

  type Row = map<string, Value>

  datatype Table = Table(columns: seq<string>, rows: seq<Row>)

  /** A table the caller holds, which an operation may write into. */
  class Frame {
    var table: Table

    constructor (t: Table)
      ensures table == t
    {
      table := t;
    }
  }

  /** The cell of `r` in column `c`; a column the row lacks reads as missing. */
  function Cell(r: Row, c: string): Value {
    if c in r then r[c] else Null
  }

  /** The columns of `cs` that `cols` lacks, in the order of `cs`. */
  function Missing(cols: seq<string>, cs: seq<string>): (m: seq<string>)
    ensures forall c :: c in m <==> c in cs && c !in cols
  {
    if cs == [] then []
    else (if cs[0] in cols then [] else [cs[0]]) + Missing(cols, cs[1..])
  }

  lemma {:induction false} MissingNone(cols: seq<string>, cs: seq<string>)
    requires forall c :: c in cs ==> c in cols
    ensures Missing(cols, cs) == []
  {
    if cs != [] {
      assert cs[0] in cs;
      assert forall c :: c in cs[1..] ==> c in cs;
      MissingNone(cols, cs[1..]);
    }
  }

  // ---------------------------------------------------------------------
  // Column operations

  /** `df[c] = ...` appends a new column at the end and keeps an existing one in place. */
  function AddAbsent(cols: seq<string>, c: string): (r: seq<string>)
    ensures c in r && forall d :: d in r <==> d in cols || d == c
  {
    if c in cols then cols else cols + [c]
  }

  function AddAbsentAll(cols: seq<string>, cs: seq<string>): (r: seq<string>)
    ensures forall d :: d in r <==> d in cols || d in cs
    decreases cs
  {
    if cs == [] then cols else AddAbsentAll(AddAbsent(cols, cs[0]), cs[1..])
  }

  /** Six additions in a row, named one by one. */
  lemma AddAbsentSix(cols: seq<string>, a: string, b: string, c: string, d: string, e: string, f: string)
    ensures AddAbsentAll(cols, [a, b, c, d, e, f])
         == AddAbsent(AddAbsent(AddAbsent(AddAbsent(AddAbsent(AddAbsent(cols, a), b), c), d), e), f)
  {
    var c1 := AddAbsent(cols, a);
    var c2 := AddAbsent(c1, b);
    var c3 := AddAbsent(c2, c);
    var c4 := AddAbsent(c3, d);
    var c5 := AddAbsent(c4, e);
    assert AddAbsentAll(c5, [f]) == AddAbsent(c5, f) by { assert [f][1..] == []; }
    assert AddAbsentAll(c4, [e, f]) == AddAbsentAll(c5, [f]) by { assert [e, f][1..] == [f]; }
    assert AddAbsentAll(c3, [d, e, f]) == AddAbsentAll(c4, [e, f]) by { assert [d, e, f][1..] == [e, f]; }
    assert AddAbsentAll(c2, [c, d, e, f]) == AddAbsentAll(c3, [d, e, f]) by { assert [c, d, e, f][1..] == [d, e, f]; }
    assert AddAbsentAll(c1, [b, c, d, e, f]) == AddAbsentAll(c2, [c, d, e, f]) by { assert [b, c, d, e, f][1..] == [c, d, e, f]; }
    assert [a, b, c, d, e, f][1..] == [b, c, d, e, f];
  }

  lemma {:induction false} AddAbsentAllSnoc(cols: seq<string>, cs: seq<string>, c: string)
    ensures AddAbsentAll(cols, cs + [c]) == AddAbsent(AddAbsentAll(cols, cs), c)
    decreases cs
  {
    if cs != [] {
      assert (cs + [c])[1..] == cs[1..] + [c];
      AddAbsentAllSnoc(AddAbsent(cols, cs[0]), cs[1..], c);
    }
  }

  lemma {:induction false} AddAbsentAllAppend(cols: seq<string>, a: seq<string>, b: seq<string>)
    ensures AddAbsentAll(cols, a + b) == AddAbsentAll(AddAbsentAll(cols, a), b)
    decreases a
  {
    if a != [] {
      assert (a + b)[0] == a[0] && (a + b)[1..] == a[1..] + b;
      AddAbsentAllAppend(AddAbsent(cols, a[0]), a[1..], b);
    } else {
      assert a + b == b;
    }
  }

  /** The names of `cols` outside `drop`, in order. */
  function RemoveNames(cols: seq<string>, drop: set<string>): (r: seq<string>)
  {
    if cols == [] then []
    else (if cols[0] in drop then [] else [cols[0]]) + RemoveNames(cols[1..], drop)
  }

  lemma {:induction false} RemoveNamesMembers(cols: seq<string>, drop: set<string>, c: string)
    ensures c in RemoveNames(cols, drop) <==> c in cols && c !in drop
  {
    if cols != [] {
      RemoveNamesMembers(cols[1..], drop, c);
      assert cols == [cols[0]] + cols[1..];
    }
  }

  lemma {:induction false} RemoveNamesAppend(a: seq<string>, b: seq<string>, drop: set<string>)
    ensures RemoveNames(a + b, drop) == RemoveNames(a, drop) + RemoveNames(b, drop)
  {
    if a != [] {
      assert (a + b)[0] == a[0] && (a + b)[1..] == a[1..] + b;
      var h := if a[0] in drop then [] else [a[0]];
      RemoveNamesAppend(a[1..], b, drop);
      calc {
        RemoveNames(a + b, drop);
        h + RemoveNames(a[1..] + b, drop);
        h + (RemoveNames(a[1..], drop) + RemoveNames(b, drop));
        { assert h + (RemoveNames(a[1..], drop) + RemoveNames(b, drop)) == (h + RemoveNames(a[1..], drop)) + RemoveNames(b, drop); }
        RemoveNames(a, drop) + RemoveNames(b, drop);
      }
    } else {
      assert a + b == b;
    }
  }

  lemma RemoveNamesSnoc(cols: seq<string>, c: string, drop: set<string>)
    ensures RemoveNames(cols + [c], drop) == RemoveNames(cols, drop) + (if c in drop then [] else [c])
  {
    RemoveNamesAppend(cols, [c], drop);
    assert [c][1..] == [];
  }

  /** Adding names and then dropping some is adding only the names that are not dropped. */
  lemma {:induction false} RemoveAddAbsentAll(cols: seq<string>, ns: seq<string>, drop: set<string>)
    ensures RemoveNames(AddAbsentAll(cols, ns), drop) == AddAbsentAll(RemoveNames(cols, drop), RemoveNames(ns, drop))
    decreases ns
  {
    if ns != [] {
      var n := ns[0];
      var rest := RemoveNames(ns[1..], drop);
      RemoveAddAbsentAll(AddAbsent(cols, n), ns[1..], drop);
      assert AddAbsentAll(cols, ns) == AddAbsentAll(AddAbsent(cols, n), ns[1..]);
      if n in drop {
        assert RemoveNames(ns, drop) == rest;
        if n !in cols { RemoveNamesSnoc(cols, n, drop); }
        assert RemoveNames(AddAbsent(cols, n), drop) == RemoveNames(cols, drop);
      } else {
        assert RemoveNames(ns, drop) == [n] + rest;
        assert AddAbsentAll(RemoveNames(cols, drop), [n] + rest)
            == AddAbsentAll(AddAbsent(RemoveNames(cols, drop), n), rest);
        if n !in cols {
          RemoveNamesSnoc(cols, n, drop);
          RemoveNamesMembers(cols, drop, n);
          assert RemoveNames(AddAbsent(cols, n), drop) == AddAbsent(RemoveNames(cols, drop), n);
        } else {
          RemoveNamesMembers(cols, drop, n);
          assert RemoveNames(AddAbsent(cols, n), drop) == AddAbsent(RemoveNames(cols, drop), n);
        }
      }
    }
  }

  /** The column `c` of `t`, top to bottom. */
  function Column(t: Table, c: string): (vs: seq<Value>)
    ensures |vs| == |t.rows| && forall i :: 0 <= i < |vs| ==> vs[i] == Cell(t.rows[i], c)
  {
    seq(|t.rows|, i requires 0 <= i < |t.rows| => Cell(t.rows[i], c))
  }

  /** Assigns `vs` to column `c` of `t`, row by row: `t[c] = vs`. */
  function SetColumn(t: Table, c: string, vs: seq<Value>): (r: Table)
    requires |vs| == |t.rows|
    ensures r.columns == AddAbsent(t.columns, c) && |r.rows| == |t.rows|
    ensures forall i :: 0 <= i < |r.rows| ==> r.rows[i] == t.rows[i][c := vs[i]]
  {
    Table(AddAbsent(t.columns, c), seq(|t.rows|, i requires 0 <= i < |t.rows| => t.rows[i][c := vs[i]]))
  }

  /** `s.shift(1)`: every value moves one row down and the first becomes missing. */
  function Shift(vs: seq<Value>): (r: seq<Value>)
    ensures |r| == |vs|
    ensures forall i :: 0 <= i < |r| ==> r[i] == if i == 0 then Null else vs[i - 1]
  {
    if vs == [] then [] else [Null] + vs[..|vs| - 1]
  }

  /** `t.drop(columns=drop)`. */
  function DropColumns(t: Table, drop: set<string>): (r: Table)
    ensures r.columns == RemoveNames(t.columns, drop) && |r.rows| == |t.rows|
    ensures forall i :: 0 <= i < |r.rows| ==> r.rows[i] == t.rows[i] - drop
  {
    Table(RemoveNames(t.columns, drop), seq(|t.rows|, i requires 0 <= i < |t.rows| => t.rows[i] - drop))
  }

  /** The rows of a list of tables one after the other. */
  function ConcatRows(ts: seq<Table>): (r: seq<Row>)
  {
    if ts == [] then [] else ConcatRows(ts[..|ts| - 1]) + ts[|ts| - 1].rows
  }

  lemma ConcatRowsSnoc(ts: seq<Table>, t: Table)
    ensures ConcatRows(ts + [t]) == ConcatRows(ts) + t.rows
  {
    assert (ts + [t])[..|ts|] == ts;
  }

  // ---------------------------------------------------------------------
  // Keys and grouping

  /** The values of the key columns `cs` in row `r`. */
  function KeyOf(r: Row, cs: seq<string>): (k: Key)
    ensures |k| == |cs| && forall i :: 0 <= i < |cs| ==> k[i] == Cell(r, cs[i])
  {
    seq(|cs|, i requires 0 <= i < |cs| => Cell(r, cs[i]))
  }

  /** groupby drops a row whose key has a missing part (dropna=True). */
  predicate Complete(k: Key) {
    Null !in k
  }

  /** The rows whose key is `k`, in their original order: one groupby group. */
  function RowsWithKey(rows: seq<Row>, cs: seq<string>, k: Key): (g: seq<Row>)
    ensures |g| <= |rows|
    ensures forall r :: r in g ==> r in rows && KeyOf(r, cs) == k
  {
    if rows == [] then []
    else RowsWithKey(rows[..|rows| - 1], cs, k) + (if KeyOf(rows[|rows| - 1], cs) == k then [rows[|rows| - 1]] else [])
  }

  /** A row is in the group of its own key. */
  lemma {:induction false} RowsWithKeyHas(rows: seq<Row>, cs: seq<string>, k: Key, r: Row)
    requires r in rows && KeyOf(r, cs) == k
    ensures r in RowsWithKey(rows, cs, k)
  {
    var p := rows[..|rows| - 1];
    if r != rows[|rows| - 1] {
      assert r in p by { assert rows == p + [rows[|rows| - 1]]; }
      RowsWithKeyHas(p, cs, k, r);
    }
  }

  /** A key no row has has an empty group. */
  lemma {:induction false} RowsWithKeyAbsent(rows: seq<Row>, cs: seq<string>, k: Key)
    requires forall r :: r in rows ==> KeyOf(r, cs) != k
    ensures RowsWithKey(rows, cs, k) == []
  {
    if rows != [] {
      assert forall r :: r in rows[..|rows| - 1] ==> r in rows;
      RowsWithKeyAbsent(rows[..|rows| - 1], cs, k);
    }
  }

  /** The rows whose key lies in `ks`, in their original order. */
  function RowsWithKeyIn(rows: seq<Row>, cs: seq<string>, ks: set<Key>): seq<Row>
  {
    if rows == [] then []
    else RowsWithKeyIn(rows[..|rows| - 1], cs, ks) + (if KeyOf(rows[|rows| - 1], cs) in ks then [rows[|rows| - 1]] else [])
  }

  /** The complete keys occurring in `rows`. */
  function KeySet(rows: seq<Row>, cs: seq<string>): (s: set<Key>)
    ensures forall k :: k in s <==> Complete(k) && exists r :: r in rows && KeyOf(r, cs) == k
  {
    set r | r in rows && Complete(KeyOf(r, cs)) :: KeyOf(r, cs)
  }

  /** The rows that groupby keeps: those whose key is complete. */
  function CompleteRows(rows: seq<Row>, cs: seq<string>): seq<Row>
  {
    if rows == [] then []
    else CompleteRows(rows[..|rows| - 1], cs) + (if Complete(KeyOf(rows[|rows| - 1], cs)) then [rows[|rows| - 1]] else [])
  }

  /** `groupby("symbol")`. */
  const SymbolKey: seq<string> := ["symbol"]

  /** The sort key of `sort_values(by="ts_event")`. */
  function TsKey(r: Row): Key {
    KeyOf(r, ["ts_event"])
  }

  // ---------------------------------------------------------------------
  // Stable insertion sort by a key

  predicate SortedBy<T>(s: seq<T>, key: T -> Key) {
    forall i :: 0 <= i < |s| - 1 ==> KeyLe(key(s[i]), key(s[i + 1]))
  }

  /** Puts `x` after every element whose key is not greater than its own. */
  function Insert<T>(s: seq<T>, x: T, key: T -> Key): (r: seq<T>)
    ensures |r| == |s| + 1
    ensures r[|r| - 1] == x || (s != [] && r[|r| - 1] == s[|s| - 1])
  {
    if s == [] || KeyLe(key(s[|s| - 1]), key(x)) then s + [x]
    else Insert(s[..|s| - 1], x, key) + [s[|s| - 1]]
  }

  /** Stable sort: elements with equal keys keep their relative order. */
  function SortBy<T>(s: seq<T>, key: T -> Key): (r: seq<T>)
    ensures |r| == |s|
  {
    if s == [] then [] else Insert(SortBy(s[..|s| - 1], key), s[|s| - 1], key)
  }

  lemma {:induction false} InsertSorted<T>(s: seq<T>, x: T, key: T -> Key)
    requires SortedBy(s, key)
    ensures SortedBy(Insert(s, x, key), key)
  {
    if s != [] && !KeyLe(key(s[|s| - 1]), key(x)) {
      var s' := s[..|s| - 1];
      assert SortedBy(s', key) by {
        forall i | 0 <= i < |s'| - 1 ensures KeyLe(key(s'[i]), key(s'[i + 1])) {
          assert s'[i] == s[i] && s'[i + 1] == s[i + 1];
        }
      }
      InsertSorted(s', x, key);
      KeyLeTotal(key(s[|s| - 1]), key(x));
      var r' := Insert(s', x, key);
      assert r'[|r'| - 1] == x || r'[|r'| - 1] == s[|s| - 2];
    }
  }

  lemma {:induction false} SortBySorted<T>(s: seq<T>, key: T -> Key)
    ensures SortedBy(SortBy(s, key), key)
  {
    if s != [] {
      SortBySorted(s[..|s| - 1], key);
      InsertSorted(SortBy(s[..|s| - 1], key), s[|s| - 1], key);
    }
  }

  /** `f` applied to every element, in order. */
  function MapSeq<T, U>(s: seq<T>, f: T -> U): (r: seq<U>)
    ensures |r| == |s| && forall i :: 0 <= i < |s| ==> r[i] == f(s[i])
  {
    seq(|s|, i requires 0 <= i < |s| => f(s[i]))
  }

  lemma MapSeqAppend<T, U>(a: seq<T>, b: seq<T>, f: T -> U)
    ensures MapSeq(a + b, f) == MapSeq(a, f) + MapSeq(b, f)
  {
  }

  /** Sorting rearranges elements and nothing else, whatever is observed of them. */
  lemma {:induction false} InsertPermutes<T, U>(s: seq<T>, x: T, key: T -> Key, f: T -> U)
    ensures multiset(MapSeq(Insert(s, x, key), f)) == multiset(MapSeq(s, f)) + multiset{f(x)}
  {
    if s != [] && !KeyLe(key(s[|s| - 1]), key(x)) {
      var s' := s[..|s| - 1];
      InsertPermutes(s', x, key, f);
      MapSeqAppend(Insert(s', x, key), [s[|s| - 1]], f);
      MapSeqAppend(s', [s[|s| - 1]], f);
      assert s == s' + [s[|s| - 1]];
    } else {
      MapSeqAppend(s, [x], f);
    }
  }

  lemma {:induction false} SortByPermutes<T, U>(s: seq<T>, key: T -> Key, f: T -> U)
    ensures multiset(MapSeq(SortBy(s, key), f)) == multiset(MapSeq(s, f))
  {
    if s != [] {
      var s', x := s[..|s| - 1], s[|s| - 1];
      assert multiset(MapSeq(SortBy(s', key), f)) == multiset(MapSeq(s', f)) by { SortByPermutes(s', key, f); }
      assert multiset(MapSeq(SortBy(s, key), f)) == multiset(MapSeq(SortBy(s', key), f)) + multiset{f(x)} by {
        InsertPermutes(SortBy(s', key), x, key, f);
      }
      assert multiset(MapSeq(s, f)) == multiset(MapSeq(s', f)) + multiset{f(x)} by {
        assert s == s' + [x];
        MapSeqAppend(s', [x], f);
      }
    }
  }

  // ---------------------------------------------------------------------
  // The keys of a groupby, ascending and without repetition

  predicate Distinct<T(==)>(s: seq<T>) {
    forall i, j :: 0 <= i < j < |s| ==> s[i] != s[j]
  }

  lemma DistinctAppend<T>(a: seq<T>, b: seq<T>)
    requires Distinct(a) && Distinct(b)
    requires forall x :: x in b ==> x !in a
    ensures Distinct(a + b)
  {
    forall i, j | 0 <= i < j < |a + b| ensures (a + b)[i] != (a + b)[j] {
      if j < |a| {
        assert (a + b)[i] == a[i] && (a + b)[j] == a[j];
      } else if i < |a| {
        assert (a + b)[i] == a[i] && (a + b)[j] == b[j - |a|];
        assert a[i] in a && b[j - |a|] in b;
      } else {
        assert (a + b)[i] == b[i - |a|] && (a + b)[j] == b[j - |a|];
      }
    }
  }

  lemma {:induction false} InsertElements<T>(s: seq<T>, x: T, key: T -> Key)
    ensures forall y :: y in Insert(s, x, key) <==> y in s || y == x
    ensures Distinct(s) && x !in s ==> Distinct(Insert(s, x, key))
  {
    if s != [] && !KeyLe(key(s[|s| - 1]), key(x)) {
      var s' := s[..|s| - 1];
      assert s == s' + [s[|s| - 1]];
      InsertElements(s', x, key);
      if Distinct(s) && x !in s {
        var r', y := Insert(s', x, key), s[|s| - 1];
        assert Distinct(s') by {
          forall i, j | 0 <= i < j < |s'| ensures s'[i] != s'[j] { assert s[i] != s[j]; }
        }
        assert y !in s' by {
          forall i | 0 <= i < |s'| ensures s'[i] != y { assert s[i] != s[|s| - 1]; }
        }
        assert y !in r';
        forall i, j | 0 <= i < j < |r' + [y]| ensures (r' + [y])[i] != (r' + [y])[j] {
          if j == |r'| { assert (r' + [y])[i] in r'; }
        }
      }
    }
  }

  function InsertUnique(s: seq<Key>, k: Key): (r: seq<Key>)
    ensures forall x :: x in r <==> x in s || x == k
    ensures Distinct(s) ==> Distinct(r)
  {
    if k in s then s
    else
      InsertElements(s, k, x => x);
      Insert(s, k, x => x)
  }

  /** The complete keys of `ks`, sorted ascending, each once. */
  function SortedDistinct(ks: seq<Key>): (r: seq<Key>)
    ensures Distinct(r)
    ensures forall k :: k in r <==> k in ks && Complete(k)
  {
    if ks == [] then []
    else
      var r := SortedDistinct(ks[..|ks| - 1]);
      var k := ks[|ks| - 1];
      if Complete(k) then InsertUnique(r, k) else r
  }

  lemma {:induction false} SortedDistinctSorted(ks: seq<Key>)
    ensures SortedBy(SortedDistinct(ks), x => x)
  {
    if ks != [] {
      SortedDistinctSorted(ks[..|ks| - 1]);
      var r := SortedDistinct(ks[..|ks| - 1]);
      InsertSorted(r, ks[|ks| - 1], x => x);
    }
  }

  /** The keys of a groupby on `cs`: complete, ascending, each once. */
  function GroupKeys(rows: seq<Row>, cs: seq<string>): (ks: seq<Key>)
    ensures Distinct(ks)
    ensures forall k :: k in ks <==> k in KeySet(rows, cs)
  {
    SortedDistinct(MapSeq(rows, r => KeyOf(r, cs)))
  }

  // ---------------------------------------------------------------------
  // groupby partitions the complete rows

  /** There is no group exactly when no row has a symbol. */
  lemma NoGroupsIff(rows: seq<Row>)
    ensures GroupKeys(rows, SymbolKey) == [] <==> forall r :: r in rows ==> Cell(r, "symbol") == Null
  {
    var ks := GroupKeys(rows, SymbolKey);
    if ks != [] {
      assert ks[0] in KeySet(rows, SymbolKey);
      var r :| r in rows && KeyOf(r, SymbolKey) == ks[0];
      assert KeyOf(r, SymbolKey)[0] == Cell(r, "symbol");
    } else {
      forall r | r in rows ensures Cell(r, "symbol") == Null {
        var k := KeyOf(r, SymbolKey);
        assert k !in KeySet(rows, SymbolKey);
        assert k == [Cell(r, "symbol")];
      }
    }
  }

  /** The groups of `ks`, one after the other. */
  function GroupedRows(rows: seq<Row>, cs: seq<string>, ks: seq<Key>): seq<Row>
  {
    if ks == [] then [] else GroupedRows(rows, cs, ks[..|ks| - 1]) + RowsWithKey(rows, cs, ks[|ks| - 1])
  }

  lemma {:induction false} RowsWithKeyInSplit<U>(rows: seq<Row>, cs: seq<string>, s: set<Key>, k: Key, f: Row -> U)
    requires k !in s
    ensures multiset(MapSeq(RowsWithKeyIn(rows, cs, s + {k}), f))
         == multiset(MapSeq(RowsWithKeyIn(rows, cs, s), f)) + multiset(MapSeq(RowsWithKey(rows, cs, k), f))
  {
    if rows != [] {
      var p, r := rows[..|rows| - 1], rows[|rows| - 1];
      RowsWithKeyInSplit(p, cs, s, k, f);
      var a, b, c := RowsWithKeyIn(p, cs, s + {k}), RowsWithKeyIn(p, cs, s), RowsWithKey(p, cs, k);
      var ra := if KeyOf(r, cs) in s + {k} then [r] else [];
      var rb := if KeyOf(r, cs) in s then [r] else [];
      var rc := if KeyOf(r, cs) == k then [r] else [];
      MapSeqAppend(a, ra, f);
      MapSeqAppend(b, rb, f);
      MapSeqAppend(c, rc, f);
    }
  }

  /** The groups of distinct keys hold, together, exactly the rows with those keys. */
  lemma {:induction false} GroupedRowsPermutes<U>(rows: seq<Row>, cs: seq<string>, ks: seq<Key>, f: Row -> U)
    requires Distinct(ks)
    ensures multiset(MapSeq(GroupedRows(rows, cs, ks), f)) == multiset(MapSeq(RowsWithKeyIn(rows, cs, set k | k in ks), f))
  {
    if ks == [] {
      assert (set k | k in ks) == {};
      RowsWithKeyInEmpty(rows, cs);
    } else {
      var ks', k := ks[..|ks| - 1], ks[|ks| - 1];
      assert Distinct(ks');
      GroupedRowsPermutes(rows, cs, ks', f);
      assert k !in ks' by {
        forall i | 0 <= i < |ks'| ensures ks'[i] != k { assert ks[i] != ks[|ks| - 1]; }
      }
      assert (set x | x in ks) == (set x | x in ks') + {k} by {
        assert ks == ks' + [k];
      }
      RowsWithKeyInSplit(rows, cs, (set x | x in ks'), k, f);
      MapSeqAppend(GroupedRows(rows, cs, ks'), RowsWithKey(rows, cs, k), f);
    }
  }

  lemma {:induction false} RowsWithKeyInEmpty(rows: seq<Row>, cs: seq<string>)
    ensures RowsWithKeyIn(rows, cs, {}) == []
  {
    if rows != [] { RowsWithKeyInEmpty(rows[..|rows| - 1], cs); }
  }

  /** Selecting the rows whose key is a complete key of the table selects the complete rows. */
  lemma {:induction false} RowsWithKeyInComplete(rows: seq<Row>, cs: seq<string>, s: set<Key>)
    requires forall r :: r in rows ==> (KeyOf(r, cs) in s <==> Complete(KeyOf(r, cs)))
    ensures RowsWithKeyIn(rows, cs, s) == CompleteRows(rows, cs)
  {
    if rows != [] { RowsWithKeyInComplete(rows[..|rows| - 1], cs, s); }
  }

  /** When no key has a missing part, groupby keeps every row. */
  lemma {:induction false} CompleteRowsAll(rows: seq<Row>, cs: seq<string>)
    requires forall r :: r in rows ==> Complete(KeyOf(r, cs))
    ensures CompleteRows(rows, cs) == rows
  {
    if rows != [] {
      CompleteRowsAll(rows[..|rows| - 1], cs);
      assert rows == rows[..|rows| - 1] + [rows[|rows| - 1]];
    }
  }

  /** groupby keeps a row exactly when its key is complete. */
  lemma {:induction false} CompleteRowsMembers(rows: seq<Row>, cs: seq<string>, r: Row)
    ensures r in CompleteRows(rows, cs) <==> r in rows && Complete(KeyOf(r, cs))
  {
    if rows != [] {
      var p := rows[..|rows| - 1];
      CompleteRowsMembers(p, cs, r);
      assert rows == p + [rows[|rows| - 1]];
    }
  }

  /** The groups of a groupby, concatenated, hold exactly the rows it keeps. */
  lemma GroupsPartition<U>(rows: seq<Row>, cs: seq<string>, f: Row -> U)
    ensures multiset(MapSeq(GroupedRows(rows, cs, GroupKeys(rows, cs)), f)) == multiset(MapSeq(CompleteRows(rows, cs), f))
  {
    var ks := GroupKeys(rows, cs);
    GroupedRowsPermutes(rows, cs, ks, f);
    assert (set k | k in ks) == KeySet(rows, cs);
    RowsWithKeyInComplete(rows, cs, KeySet(rows, cs));
  }

  // ---------------------------------------------------------------------
  // Sums over a column, skipping missing cells

  /** What a cell adds to a sum: its number, or nothing when it holds none. */
  function Addend(v: Value): real {
    match v
    case Num(x) => x
    case _ => 0.0
  }

  /** The numbers of column `c` added up, missing cells counting as nothing: pandas' `sum`. */
  function SumIn(rows: seq<Row>, c: string): real {
    if rows == [] then 0.0
    else SumIn(rows[..|rows| - 1], c) + Addend(Cell(rows[|rows| - 1], c))
  }

  lemma {:induction false} SumInAppend(a: seq<Row>, b: seq<Row>, c: string)
    ensures SumIn(a + b, c) == SumIn(a, c) + SumIn(b, c)
  {
    if b != [] {
      var b', z := b[..|b| - 1], b[|b| - 1];
      SumInAppend(a, b', c);
      assert (a + b)[..|a + b| - 1] == a + b' && (a + b)[|a + b| - 1] == z;
    } else {
      assert a + b == a;
    }
  }

  lemma RemoveAt<T>(s: seq<T>, k: nat)
    requires k < |s|
    ensures multiset(s) == multiset(s[..k] + s[k + 1..]) + multiset{s[k]}
  {
    assert s == s[..k] + ([s[k]] + s[k + 1..]);
  }

  lemma SumInRemoveAt(s: seq<Row>, k: nat, c: string)
    requires k < |s|
    ensures SumIn(s, c) == SumIn(s[..k] + s[k + 1..], c) + Addend(Cell(s[k], c))
  {
    assert s == s[..k] + ([s[k]] + s[k + 1..]);
    SumInAppend(s[..k], [s[k]] + s[k + 1..], c);
    SumInAppend([s[k]], s[k + 1..], c);
    SumInAppend(s[..k], s[k + 1..], c);
    assert [s[k]][..0] == [];
  }

  /** The sum does not depend on the order of the rows. */
  lemma {:induction false} SumInPermutes(a: seq<Row>, b: seq<Row>, c: string)
    requires multiset(a) == multiset(b)
    ensures SumIn(a, c) == SumIn(b, c)
  {
    if a != [] {
      var a', z := a[..|a| - 1], a[|a| - 1];
      assert multiset(a) == multiset(a') + multiset{z} by { assert a == a' + [z]; }
      assert z in multiset(b);
      var k :| 0 <= k < |b| && b[k] == z;
      var b' := b[..k] + b[k + 1..];
      RemoveAt(b, k);
      assert multiset(a') == multiset(b') by {
        assert multiset(a') + multiset{z} == multiset(b') + multiset{z};
        assert multiset(a') == multiset(a') + multiset{z} - multiset{z};
        assert multiset(b') == multiset(b') + multiset{z} - multiset{z};
      }
      SumInPermutes(a', b', c);
      SumInRemoveAt(b, k, c);
    }
  }
}
