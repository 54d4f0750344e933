/** The codes of a set of lengths in the order in which inflate_table (src/ext/zlib/inftrees.c) enters them: by length, then
    by symbol. Everything here is a function of the counts per length. */
module CodeOrder {
  import opened Bits
  import opened LengthLimit
  import opened Canonical
  import opened Reversal

  /** Counts per length, with none for length 0, that no code can over-subscribe. */
  ghost predicate Fit(bl: seq<nat>) {
    |bl| == 16 && bl[0] == 0 && KraftUpTo(bl, 15, 15) <= Pow2(15)
  }

  ghost predicate Full(bl: seq<nat>) {
    |bl| == 16 && bl[0] == 0 && KraftUpTo(bl, 15, 15) == Pow2(15)
  }

  ghost function Total(bl: seq<nat>): nat
    requires |bl| == 16
  {
    CodesUpTo(bl, 15)
  }

  /** The length of the k-th code. */
  ghost function LengthAt(bl: seq<nat>, k: nat): (b: nat)
    requires |bl| == 16 && k < Total(bl)
    ensures 1 <= b <= 15 && CodesUpTo(bl, b - 1) <= k < CodesUpTo(bl, b) && bl[b] > 0
  {
    LengthFrom(bl, k, 15)
  }

  ghost function LengthFrom(bl: seq<nat>, k: nat, b: nat): (r: nat)
    requires b < |bl| && k < CodesUpTo(bl, b)
    ensures 1 <= r <= b && CodesUpTo(bl, r - 1) <= k < CodesUpTo(bl, r) && bl[r] > 0
  {
    if CodesUpTo(bl, b - 1) <= k then b else LengthFrom(bl, k, b - 1)
  }

  lemma {:induction false} CodesRise(bl: seq<nat>, a: nat, b: nat)
    requires a <= b < |bl|
    ensures CodesUpTo(bl, a) <= CodesUpTo(bl, b)
  {
    if a < b {
      CodesRise(bl, a, b - 1);
    }
  }

  lemma LengthIs(bl: seq<nat>, k: nat, b: nat)
    requires |bl| == 16 && 1 <= b <= 15 && CodesUpTo(bl, b - 1) <= k < CodesUpTo(bl, b)
    ensures k < Total(bl) && LengthAt(bl, k) == b
  {
    hide CodesUpTo;
    CodesRise(bl, b, 15);
    var c := LengthAt(bl, k);
    if c < b {
      CodesRise(bl, c, b - 1);
    } else if b < c {
      CodesRise(bl, b, c - 1);
    }
  }

  /** The k-th code. */
  ghost function CodeAt(bl: seq<nat>, k: nat): (c: nat)
    requires |bl| == 16 && k < Total(bl)
    ensures First(bl, LengthAt(bl, k)) <= c < First(bl, LengthAt(bl, k)) + bl[LengthAt(bl, k)]
  {
    First(bl, LengthAt(bl, k)) + k - CodesUpTo(bl, LengthAt(bl, k) - 1)
  }

  lemma CodeAtFits(bl: seq<nat>, k: nat)
    requires Fit(bl) && k < Total(bl)
    ensures CodeAt(bl, k) < First(bl, LengthAt(bl, k)) + bl[LengthAt(bl, k)] <= Pow2(LengthAt(bl, k))
  {
    hide First, Pow2, KraftUpTo, CodesUpTo;
    FirstFits(bl, 15, LengthAt(bl, k));
  }

  /** Lengths that no code has only append zeros. */
  lemma {:induction false} FirstSkips(bl: seq<nat>, a: nat, b: nat)
    requires a < b < |bl| && CodesUpTo(bl, b - 1) == CodesUpTo(bl, a)
    ensures First(bl, b) == Shl(First(bl, a) + bl[a], b - a)
    decreases b - a
  {
    if b == a + 1 {
      assert Shl(First(bl, a) + bl[a], 1) == 2 * Shl(First(bl, a) + bl[a], 0);
    } else {
      CodesRise(bl, a, b - 2);
      FirstSkips(bl, a, b - 1);
    }
  }

  /** The next code is one more, with zeros appended when it is longer. */
  lemma NextCode(bl: seq<nat>, k: nat)
    requires |bl| == 16 && k + 1 < Total(bl)
    ensures LengthAt(bl, k) <= LengthAt(bl, k + 1)
    ensures CodeAt(bl, k + 1) == Shl(CodeAt(bl, k) + 1, LengthAt(bl, k + 1) - LengthAt(bl, k))
    ensures LengthAt(bl, k) != LengthAt(bl, k + 1) <==> k + 1 == CodesUpTo(bl, LengthAt(bl, k))
  {
    hide First, Shl;
    var a, b := LengthAt(bl, k), LengthAt(bl, k + 1);
    if b < a {
      CodesRise(bl, b, a - 1);
    } else if a < b {
      CodesRise(bl, a, b - 1);
      FirstSkips(bl, a, b);
    } else {
      ShlNone(CodeAt(bl, k) + 1);
    }
  }

  lemma ShlNone(x: nat)
    ensures Shl(x, 0) == x
  {
  }

  lemma {:induction false} NoCodes(bl: seq<nat>, b: nat)
    requires b < |bl| && bl[0] == 0 && CodesUpTo(bl, b) == 0
    ensures First(bl, b) + bl[b] == 0
  {
    if b > 0 {
      NoCodes(bl, b - 1);
    }
  }

  lemma FirstCode(bl: seq<nat>)
    requires |bl| == 16 && bl[0] == 0 && Total(bl) > 0
    ensures CodeAt(bl, 0) == 0
  {
    NoCodes(bl, LengthAt(bl, 0) - 1);
  }

  /** All later codes are larger, compared at the later length. */
  lemma {:induction false} Later(bl: seq<nat>, j: nat, k: nat)
    requires |bl| == 16 && j < k < Total(bl)
    ensures LengthAt(bl, j) <= LengthAt(bl, k)
    ensures CodeAt(bl, k) >= Shl(CodeAt(bl, j) + 1, LengthAt(bl, k) - LengthAt(bl, j))
    decreases k - j
  {
    hide LengthAt, CodeAt, Shl, Total;
    NextCode(bl, k - 1);
    if j < k - 1 {
      Later(bl, j, k - 1);
      var d, e := LengthAt(bl, k - 1) - LengthAt(bl, j), LengthAt(bl, k) - LengthAt(bl, k - 1);
      ShlMono(Shl(CodeAt(bl, j) + 1, d), CodeAt(bl, k - 1) + 1, e);
      ShlShl(CodeAt(bl, j) + 1, d, e);
    }
  }

  lemma LastCode(bl: seq<nat>)
    requires Full(bl) && Total(bl) > 0
    ensures CodeAt(bl, Total(bl) - 1) + 1 == Pow2(LengthAt(bl, Total(bl) - 1))
  {
    hide CodesUpTo;
    var n := Total(bl) - 1;
    var b := LengthAt(bl, n);
    CodesRise(bl, b, 15);
    CodesStep(bl, b);
    if b < 15 {
      FirstSkips15(bl, b);
    } else {
      LastCodeIsAllOnes(bl, 15);
    }
  }

  lemma CodesStep(bl: seq<nat>, b: nat)
    requires 1 <= b < |bl|
    ensures CodesUpTo(bl, b) == CodesUpTo(bl, b - 1) + bl[b]
  {
  }

  lemma FirstSkips15(bl: seq<nat>, b: nat)
    requires Full(bl) && b < 15 && CodesUpTo(bl, b) == CodesUpTo(bl, 15)
    ensures First(bl, b) + bl[b] == Pow2(b)
  {
    hide Pow2, Shl, First, KraftUpTo;
    CodesRise(bl, b, 14);
    FirstSkips(bl, b, 15);
    LastCodeIsAllOnes(bl, 15);
    ShlIsMul(First(bl, b) + bl[b], 15 - b);
    Pow2Add(b, 15 - b);
    SameFactor(First(bl, b) + bl[b], Pow2(b), Pow2(15 - b));
  }

  lemma SameFactor(a: nat, b: nat, p: nat)
    requires a * p == b * p && p > 0
    ensures a == b
  {
    assert (a - b) * p == a * p - b * p;
  }

  // ---------------------------------------------------------------- the code at the front of the input

  /** The k-th code as it appears in the bit buffer: its first bit is the lowest. */
  ghost function KeyAt(bl: seq<nat>, k: nat): (h: nat)
    requires |bl| == 16 && k < Total(bl)
    ensures h < Pow2(LengthAt(bl, k))
  {
    ReversedBound(CodeAt(bl, k), LengthAt(bl, k));
    Reversed(CodeAt(bl, k), LengthAt(bl, k))
  }

  /** The input x, first bit lowest, begins with the k-th code. */
  ghost predicate Matches(bl: seq<nat>, k: nat, x: nat)
    requires |bl| == 16 && k < Total(bl)
  {
    Low(x, LengthAt(bl, k)) == KeyAt(bl, k)
  }

  /** The leading bits of an input that begins with a code are those of the code. */
  lemma LeadingBits(bl: seq<nat>, k: nat, x: nat, j: nat)
    requires |bl| == 16 && k < Total(bl) && Matches(bl, k, x) && j <= LengthAt(bl, k)
    ensures Low(x, j) == Reversed(Shr(CodeAt(bl, k), LengthAt(bl, k) - j), j)
  {
    hide LengthAt, CodeAt, Total, Low, Shr, Reversed;
    LowLow(x, LengthAt(bl, k), j);
    LowOfReversed(CodeAt(bl, k), LengthAt(bl, k), j);
  }

  lemma {:induction false} ShrBound(x: nat, n: nat, d: nat)
    requires x < Pow2(n + d)
    ensures Shr(x, d) < Pow2(n)
    decreases d
  {
    if d > 0 {
      ShrBound(x / 2, n, d - 1);
    }
  }

  lemma OnlyOne(bl: seq<nat>, j: nat, k: nat, x: nat)
    requires Fit(bl) && j < k < Total(bl)
    ensures !(Matches(bl, j, x) && Matches(bl, k, x))
  {
    hide LengthAt, CodeAt, Total, Low, Shr, Shl, Reversed, Fit, Pow2, KeyAt;
    Shape(bl);
    if Matches(bl, j, x) && Matches(bl, k, x) {
      Later(bl, j, k);
      var d := LengthAt(bl, k) - LengthAt(bl, j);
      LeadingBits(bl, k, x, LengthAt(bl, j));
      KeyIs(bl, j);
      CodeAtFits(bl, j);
      CodeAtFits(bl, k);
      ShrBound(CodeAt(bl, k), LengthAt(bl, j), d);
      ReversedInjective(Shr(CodeAt(bl, k), d), CodeAt(bl, j), LengthAt(bl, j));
      ShrAtLeast(CodeAt(bl, k), CodeAt(bl, j) + 1, d);
    }
  }

  lemma Shape(bl: seq<nat>)
    requires Fit(bl)
    ensures |bl| == 16
  {
  }

  lemma KeyIs(bl: seq<nat>, k: nat)
    requires |bl| == 16 && k < Total(bl)
    ensures KeyAt(bl, k) == Reversed(CodeAt(bl, k), LengthAt(bl, k))
  {
  }

  /** The codes of a full set tile the numbers of 15 bits. */
  lemma {:induction false} Tile(bl: seq<nat>, v: nat, k: nat) returns (m: nat)
    requires Full(bl) && v < Pow2(15) && k < Total(bl)
    requires v >= Shl(CodeAt(bl, k), 15 - LengthAt(bl, k))
    ensures m < Total(bl) && Shl(CodeAt(bl, m), 15 - LengthAt(bl, m)) <= v < Shl(CodeAt(bl, m) + 1, 15 - LengthAt(bl, m))
    decreases Total(bl) - k
  {
    hide LengthAt, CodeAt, Total, Shl, Full, Pow2;
    FullFits(bl);
    var l := LengthAt(bl, k);
    if v < Shl(CodeAt(bl, k) + 1, 15 - l) {
      m := k;
    } else if k + 1 < Total(bl) {
      NextCode(bl, k);
      ShlShl(CodeAt(bl, k) + 1, LengthAt(bl, k + 1) - l, 15 - LengthAt(bl, k + 1));
      m := Tile(bl, v, k + 1);
    } else {
      LastCode(bl);
      ShlIsMul(CodeAt(bl, k) + 1, 15 - l);
      Pow2Add(l, 15 - l);
      assert false;
    }
  }

  lemma FullFits(bl: seq<nat>)
    requires Full(bl)
    ensures Fit(bl) && |bl| == 16
  {
  }

  /** With a full set of lengths every input begins with a code. */
  lemma SomeOne(bl: seq<nat>, x: nat) returns (k: nat)
    requires Full(bl)
    ensures k < Total(bl) && Matches(bl, k, x)
  {
    hide LengthAt, CodeAt, Total, Shl, Shr, Low, Reversed, Full, Pow2, CodesUpTo, KraftUpTo;
    FullFits(bl);
    NotEmpty(bl);
    ReversedBound(Low(x, 15), 15);
    var v := Reversed(Low(x, 15), 15);
    FirstCode(bl);
    ShlZero(15 - LengthAt(bl, 0));
    k := Tile(bl, v, 0);
    var l := LengthAt(bl, k);
    ShrAtLeast(v, CodeAt(bl, k), 15 - l);
    ShrAtLeast(v, CodeAt(bl, k) + 1, 15 - l);
    LowOfReversed(Low(x, 15), 15, 15 - l);
    LowLow(x, 15, l);
    ReversedTwice(Low(x, l), l);
    LowLow(x, l, l);
    KeyIs(bl, k);
  }

  lemma NotEmpty(bl: seq<nat>)
    requires Full(bl)
    ensures Total(bl) > 0 && bl[0] == 0
  {
    hide Pow2;
    if Total(bl) == 0 {
      NoLengths(bl, 15);
    }
  }

  lemma {:induction false} NoLengths(bl: seq<nat>, b: nat)
    requires |bl| == 16 && b <= 15 && CodesUpTo(bl, b) == 0
    ensures KraftUpTo(bl, 15, b) == 0
  {
    if b > 0 {
      NoLengths(bl, b - 1);
    }
  }
}
