/**
 * Column names of the order-book schema: `bid_px_{level:02d}` and friends,
 * the temporary `_prev` columns and the flow columns `of_{level}_b/_a`.
 */
module ColumnNames {

  predicate IsDigit(c: char) { '0' <= c <= '9' }

  function Digit(d: nat): (c: char)
    requires d < 10
    ensures IsDigit(c) && (c == '0' <==> d == 0)
    ensures c as int - '0' as int == d
  {
    ('0' as int + d) as char
  }

  /** Decimal rendering of a natural number, as `str(n)` or `f"{n}"`. */
  function Decimal(n: nat): (s: string)
    ensures |s| >= 1 && (n < 10 <==> |s| == 1)
    ensures n > 0 ==> s[0] != '0'
    ensures forall i :: 0 <= i < |s| ==> IsDigit(s[i])
  {
    if n < 10 then [Digit(n)] else Decimal(n / 10) + [Digit(n % 10)]
  }

  lemma {:induction false} DecimalInjective(n: nat, m: nat)
    requires Decimal(n) == Decimal(m)
    ensures n == m
  {
    if n >= 10 && m >= 10 {
      var s := Decimal(n);
      assert s[..|s| - 1] == Decimal(n / 10) && s[..|s| - 1] == Decimal(m / 10);
      DecimalInjective(n / 10, m / 10);
      assert Digit(n % 10) == Digit(m % 10);
    }
  }

  /** `f"{n:02d}"`: at least two digits, zero-padded on the left. */
  function Pad2(n: nat): (s: string)
    ensures |s| >= 2
    ensures forall i :: 0 <= i < |s| ==> IsDigit(s[i])
  {
    if n < 10 then "0" + Decimal(n) else Decimal(n)
  }

  lemma Pad2Injective(n: nat, m: nat)
    requires Pad2(n) == Pad2(m)
    ensures n == m
  {
    if n < 10 && m < 10 {
      assert Decimal(n) == Pad2(n)[1..];
      DecimalInjective(n, m);
    } else if n >= 10 && m >= 10 {
      DecimalInjective(n, m);
    }
  }

  function BidPx(level: nat): string { "bid_px_" + Pad2(level) }
  function AskPx(level: nat): string { "ask_px_" + Pad2(level) }
  function BidSz(level: nat): string { "bid_sz_" + Pad2(level) }
  function AskSz(level: nat): string { "ask_sz_" + Pad2(level) }

  /** The four ladder columns of one level, in the order the source lists them. */
  function LevelColumns(level: nat): seq<string> {
    [BidPx(level), AskPx(level), BidSz(level), AskSz(level)]
  }

  /** The temporary predecessor column kept next to `c`. */
  function Prev(c: string): string { c + "_prev" }

  function OfBid(level: nat): string { "of_" + Decimal(level) + "_b" }
  function OfAsk(level: nat): string { "of_" + Decimal(level) + "_a" }

  /**
   * A name that none of the derived columns can take: it does not start with
   * 'o' (as every `of_` column does) and does not end with 'v' (as every
   * `_prev` column does).
   */
  predicate RawName(c: string) {
    c != [] && c[0] != 'o' && c[|c| - 1] != 'v'
  }

  lemma LevelColumnsRaw(level: nat)
    ensures RawName(BidPx(level)) && RawName(AskPx(level))
    ensures RawName(BidSz(level)) && RawName(AskSz(level))
  {
    var p := Pad2(level);
    assert BidPx(level)[|BidPx(level)| - 1] == p[|p| - 1];
    assert AskPx(level)[|AskPx(level)| - 1] == p[|p| - 1];
    assert BidSz(level)[|BidSz(level)| - 1] == p[|p| - 1];
    assert AskSz(level)[|AskSz(level)| - 1] == p[|p| - 1];
  }

  lemma PrevNotRaw(c: string)
    ensures !RawName(Prev(c))
  {
    assert Prev(c)[|Prev(c)| - 1] == 'v';
  }

  lemma OfNotRaw(level: nat)
    ensures !RawName(OfBid(level)) && !RawName(OfAsk(level))
  {
    assert OfBid(level)[0] == 'o' && OfAsk(level)[0] == 'o';
  }

  /** The four temporary columns of one level are pairwise distinct. */
  lemma PrevColumnsDistinct(level: nat)
    ensures Prev(BidPx(level)) != Prev(BidSz(level))
    ensures Prev(BidPx(level)) != Prev(AskPx(level)) && Prev(BidPx(level)) != Prev(AskSz(level))
    ensures Prev(BidSz(level)) != Prev(AskPx(level)) && Prev(BidSz(level)) != Prev(AskSz(level))
    ensures Prev(AskPx(level)) != Prev(AskSz(level))
  {
    assert Prev(BidPx(level))[4] == 'p' && Prev(BidSz(level))[4] == 's';
    assert Prev(AskPx(level))[4] == 'p' && Prev(AskSz(level))[4] == 's';
    assert Prev(BidPx(level))[0] == 'b' && Prev(AskPx(level))[0] == 'a';
    assert Prev(BidSz(level))[0] == 'b' && Prev(AskSz(level))[0] == 'a';
  }

  /** A flow column never has the name of a temporary column. */
  lemma OfNotPrev(level: nat, c: string)
    ensures OfBid(level) != Prev(c) && OfAsk(level) != Prev(c)
  {
    PrevNotRaw(c);
    assert OfBid(level)[|OfBid(level)| - 1] == 'b';
    assert OfAsk(level)[|OfAsk(level)| - 1] == 'a';
  }

  /** Different levels give different bid-flow names, and bid never collides with ask. */
  lemma OfNamesDistinct(l: nat, m: nat)
    ensures OfBid(l) != OfAsk(m)
    ensures OfBid(l) == OfBid(m) ==> l == m
    ensures OfAsk(l) == OfAsk(m) ==> l == m
  {
    assert OfBid(l)[|OfBid(l)| - 1] == 'b' && OfAsk(m)[|OfAsk(m)| - 1] == 'a';
    if OfBid(l) == OfBid(m) {
      var s := OfBid(l);
      assert s[3..|s| - 2] == Decimal(l) && s[3..|s| - 2] == Decimal(m);
      DecimalInjective(l, m);
    }
    if OfAsk(l) == OfAsk(m) {
      var s := OfAsk(l);
      assert s[3..|s| - 2] == Decimal(l) && s[3..|s| - 2] == Decimal(m);
      DecimalInjective(l, m);
    }
  }

  /** `symbol`, `ts_event` and the ladder columns of levels `0..levels-1`. */
  function RequiredColumns(levels: nat): (r: seq<string>)
    ensures |r| == 2 + 4 * levels
  {
    if levels == 0 then ["symbol", "ts_event"]
    else RequiredColumns(levels - 1) + LevelColumns(levels - 1)
  }

  lemma {:induction false} RequiredColumnsPrefix(levels: nat)
    ensures RequiredColumns(levels)[..2] == ["symbol", "ts_event"]
  {
    if levels > 0 {
      RequiredColumnsPrefix(levels - 1);
      assert RequiredColumns(levels)[..2] == RequiredColumns(levels - 1)[..2];
    }
  }

  lemma {:induction false} RequiredColumnsAt(levels: nat, level: nat)
    requires level < levels
    ensures RequiredColumns(levels)[2 + 4 * level .. 6 + 4 * level] == LevelColumns(level)
  {
    if level < levels - 1 {
      RequiredColumnsAt(levels - 1, level);
      assert RequiredColumns(levels)[..|RequiredColumns(levels - 1)|] == RequiredColumns(levels - 1);
    }
  }

  /** Two ladder-style names, a seven-letter prefix and a padded level, agree only on both parts. */
  lemma LadderNameParts(p: string, l: nat, q: string, m: nat)
    requires |p| == 7 && |q| == 7
    ensures p + Pad2(l) == q + Pad2(m) <==> p == q && l == m
  {
    if p + Pad2(l) == q + Pad2(m) {
      assert (p + Pad2(l))[..7] == p && (q + Pad2(m))[..7] == q;
      assert (p + Pad2(l))[7..] == Pad2(l) && (q + Pad2(m))[7..] == Pad2(m);
      Pad2Injective(l, m);
    }
  }

  /** Ladder columns of different kinds never coincide, and those of one kind differ across levels. */
  lemma LadderNamesDistinct(l: nat, m: nat)
    ensures BidPx(l) != AskPx(m) && BidPx(l) != BidSz(m) && BidPx(l) != AskSz(m)
    ensures AskPx(l) != BidPx(m) && AskPx(l) != BidSz(m) && AskPx(l) != AskSz(m)
    ensures BidSz(l) != BidPx(m) && BidSz(l) != AskPx(m) && BidSz(l) != AskSz(m)
    ensures AskSz(l) != BidPx(m) && AskSz(l) != AskPx(m) && AskSz(l) != BidSz(m)
    ensures (BidPx(l) == BidPx(m) || AskPx(l) == AskPx(m) || BidSz(l) == BidSz(m) || AskSz(l) == AskSz(m)) ==> l == m
  {
    var bp, ap, bs, as_ := "bid_px_", "ask_px_", "bid_sz_", "ask_sz_";
    assert bp != ap && bp != bs && bp != as_ && ap != bs && ap != as_ && bs != as_ by {
      assert bp[0] != ap[0] && bp[4] != bs[4] && bp[0] != as_[0];
      assert ap[4] != bs[4] && ap[4] != as_[4] && bs[0] != as_[0];
    }
    LadderNameParts(bp, l, ap, m); LadderNameParts(bp, l, bs, m); LadderNameParts(bp, l, as_, m);
    LadderNameParts(ap, l, bp, m); LadderNameParts(ap, l, bs, m); LadderNameParts(ap, l, as_, m);
    LadderNameParts(bs, l, bp, m); LadderNameParts(bs, l, ap, m); LadderNameParts(bs, l, as_, m);
    LadderNameParts(as_, l, bp, m); LadderNameParts(as_, l, ap, m); LadderNameParts(as_, l, bs, m);
    LadderNameParts(bp, l, bp, m); LadderNameParts(ap, l, ap, m); LadderNameParts(bs, l, bs, m); LadderNameParts(as_, l, as_, m);
  }

  /** A ladder column of level `m` is not a ladder column of any other level. */
  lemma LevelColumnsDisjoint(l: nat, m: nat, c: string)
    requires l != m && c in LevelColumns(m)
    ensures c !in LevelColumns(l)
  {
    LadderNamesDistinct(l, m);
  }

  /** Every ladder name is at least nine characters long. */
  lemma LadderNamesLong(l: nat)
    ensures |BidPx(l)| >= 9 && |AskPx(l)| >= 9 && |BidSz(l)| >= 9 && |AskSz(l)| >= 9
  {
  }
}
