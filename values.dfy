/**
 * Cell values of a table and the order pandas sorts them in.
 *
 * A cell holds a number, a text, or nothing (`Null`, which stands for NaN,
 * NaT and None alike). Numbers are exact reals, so every `Num` is finite.
 * Comparisons that involve `Null` are false and arithmetic on `Null` gives
 * `Null`, as in numpy.
 */
module Values {

  datatype Value = Num(x: real) | Text(s: string) | Null

  /** `a > b` on two cells; false unless both are numbers. */
  predicate Gt(a: Value, b: Value) {
    a.Num? && b.Num? && a.x > b.x
  }

  /** `a == b` on two cells; NaN equals nothing, not even NaN. */
  predicate NumEq(a: Value, b: Value) {
    a.Num? && b.Num? && a.x == b.x
  }

  function Neg(a: Value): (r: Value)
    ensures r.Num? <==> a.Num?
    ensures a.Num? ==> r.x == -a.x
  {
    if a.Num? then Num(-a.x) else Null
  }

  function Add(a: Value, b: Value): (r: Value)
    ensures r.Num? <==> a.Num? && b.Num?
    ensures r.Num? ==> r.x == a.x + b.x
  {
    if a.Num? && b.Num? then Num(a.x + b.x) else Null
  }

  function Sub(a: Value, b: Value): (r: Value)
    ensures r.Num? <==> a.Num? && b.Num?
    ensures r.Num? ==> r.x == a.x - b.x
  {
    if a.Num? && b.Num? then Num(a.x - b.x) else Null
  }

  /** Lexicographic order on strings by code point, as Python compares them. */
  predicate StrLe(a: string, b: string)
  {
    a == [] || (b != [] && (a[0] < b[0] || (a[0] == b[0] && StrLe(a[1..], b[1..]))))
  }

  lemma {:induction false} StrLeTotal(a: string, b: string)
    ensures StrLe(a, b) || StrLe(b, a)
  {
    if a != [] && b != [] && a[0] == b[0] {
      StrLeTotal(a[1..], b[1..]);
    }
  }

  lemma {:induction false} StrLeAntisymmetric(a: string, b: string)
    requires StrLe(a, b) && StrLe(b, a)
    ensures a == b
  {
    if a != [] && b != [] {
      StrLeAntisymmetric(a[1..], b[1..]);
      assert a == [a[0]] + a[1..];
      assert b == [b[0]] + b[1..];
    }
  }

  lemma {:induction false} StrLeTransitive(a: string, b: string, c: string)
    requires StrLe(a, b) && StrLe(b, c)
    ensures StrLe(a, c)
  {
    if a != [] && b != [] && c != [] && a[0] == b[0] && b[0] == c[0] {
      StrLeTransitive(a[1..], b[1..], c[1..]);
    }
  }

  /** Numbers first, then texts, then missing values (na_position="last"). */
  function Rank(a: Value): nat {
    match a
    case Num(_) => 0
    case Text(_) => 1
    case Null => 2
  }

  predicate ValueLe(a: Value, b: Value) {
    Rank(a) < Rank(b) ||
    (Rank(a) == Rank(b) &&
      match a
      case Num(x) => x <= b.x
      case Text(s) => StrLe(s, b.s)
      case Null => true)
  }

  lemma ValueLeTotal(a: Value, b: Value)
    ensures ValueLe(a, b) || ValueLe(b, a)
  {
    if a.Text? && b.Text? { StrLeTotal(a.s, b.s); }
  }

  lemma ValueLeAntisymmetric(a: Value, b: Value)
    requires ValueLe(a, b) && ValueLe(b, a)
    ensures a == b
  {
    if a.Text? && b.Text? { StrLeAntisymmetric(a.s, b.s); }
  }

  lemma ValueLeTransitive(a: Value, b: Value, c: Value)
    requires ValueLe(a, b) && ValueLe(b, c)
    ensures ValueLe(a, c)
  {
    if a.Text? && b.Text? && c.Text? { StrLeTransitive(a.s, b.s, c.s); }
  }

  /** A group key: the values of the grouping columns, in order. */
  type Key = seq<Value>

  /** Lexicographic order on keys, the order groupby and pivot list them in. */
  predicate KeyLe(a: Key, b: Key)
  {
    a == [] ||
    (b != [] && ((ValueLe(a[0], b[0]) && a[0] != b[0]) || (a[0] == b[0] && KeyLe(a[1..], b[1..]))))
  }

  lemma {:induction false} KeyLeTotal(a: Key, b: Key)
    ensures KeyLe(a, b) || KeyLe(b, a)
  {
    if a != [] && b != [] {
      ValueLeTotal(a[0], b[0]);
      if a[0] == b[0] { KeyLeTotal(a[1..], b[1..]); }
    }
  }

  lemma {:induction false} KeyLeAntisymmetric(a: Key, b: Key)
    requires KeyLe(a, b) && KeyLe(b, a)
    ensures a == b
  {
    if a != [] && b != [] {
      if a[0] != b[0] {
        ValueLeAntisymmetric(a[0], b[0]);
      } else {
        KeyLeAntisymmetric(a[1..], b[1..]);
        assert a == [a[0]] + a[1..];
        assert b == [b[0]] + b[1..];
      }
    }
  }

  lemma {:induction false} KeyLeTransitive(a: Key, b: Key, c: Key)
    requires KeyLe(a, b) && KeyLe(b, c)
    ensures KeyLe(a, c)
  {
    if a != [] && b != [] && c != [] {
      if a[0] == b[0] && b[0] == c[0] {
        KeyLeTransitive(a[1..], b[1..], c[1..]);
      } else if a[0] != b[0] && b[0] != c[0] {
        ValueLeTransitive(a[0], b[0], c[0]);
        if a[0] == c[0] {
          ValueLeAntisymmetric(a[0], b[0]);
        }
      }
    }
  }
}
