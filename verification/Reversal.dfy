/** Bit-reversed codes as decoding tables are indexed by them, and the backward increment of inflate_table
    (src/ext/zlib/inftrees.c). */
module Reversal {
  import opened Bits
  import opened Canonical

  /** The low bits of a reversed code are its leading bits reversed. */
  lemma {:induction false} LowOfReversed(c: nat, n: nat, j: nat)
    requires j <= n
    ensures Low(Reversed(c, n), j) == Reversed(Shr(c, n - j), j)
    ensures Shr(Reversed(c, n), j) == Reversed(Low(c, n - j), n - j)
    decreases n
  {
    if j == n {
      ReversedBound(c, n);
      LowSmall(Reversed(c, n), n);
      assert Shr(c, 0) == c;
      assert Low(c, 0) == 0 && Reversed(0, 0) == 0;
    } else {
      LowOfReversed(c / 2, n - 1, j);
      HighBit(Reversed(c / 2, n - 1), c % 2, n - 1, j);
      LowBit(c, n - j);
    }
  }

  /** A bit above the lowest j does not show in the low part and comes down in the high part. */
  lemma {:induction false} HighBit(r: nat, b: nat, n: nat, j: nat)
    requires j <= n
    ensures Low(Shl(b, n) + r, j) == Low(r, j)
    ensures Shr(Shl(b, n) + r, j) == Shl(b, n - j) + Shr(r, j)
    decreases j
  {
    if j > 0 {
      var s := Shl(b, n - 1);
      assert Shl(b, n) == 2 * s;
      assert (2 * s + r) % 2 == r % 2 && (2 * s + r) / 2 == s + r / 2;
      HighBit(r / 2, b, n - 1, j - 1);
    }
  }

  lemma LowBit(c: nat, m: nat)
    requires m > 0
    ensures Reversed(Low(c, m), m) == Shl(c % 2, m - 1) + Reversed(Low(c / 2, m - 1), m - 1)
  {
    var l := Low(c / 2, m - 1);
    assert (c % 2 + 2 * l) % 2 == c % 2 && (c % 2 + 2 * l) / 2 == l;
  }

  lemma {:induction false} ReversedInjective(c: nat, d: nat, n: nat)
    requires c < Pow2(n) && d < Pow2(n) && Reversed(c, n) == Reversed(d, n)
    ensures c == d
  {
    ReversedBits(c, n);
    ReversedBits(d, n);
    SameMsb(c, d, n);
  }

  lemma {:induction false} SameMsb(c: nat, d: nat, n: nat)
    requires c < Pow2(n) && d < Pow2(n) && MsbBits(c, n) == MsbBits(d, n)
    ensures c == d
    decreases n
  {
    if n > 0 {
      var a, b := MsbBits(c, n), MsbBits(d, n);
      assert a[n - 1] == b[n - 1];
      assert a[..n - 1] == MsbBits(c / 2, n - 1) && b[..n - 1] == MsbBits(d / 2, n - 1);
      SameMsb(c / 2, d / 2, n - 1);
    }
  }

  /** Appending zeros to a code leaves the reversed code as it is. */
  lemma {:induction false} ReversedShl(c: nat, n: nat, d: nat)
    ensures Reversed(Shl(c, d), n + d) == Reversed(c, n)
    decreases d
  {
    if d > 0 {
      ReversedShl(c, n, d - 1);
      ShlZero(n + d - 1);
      assert Shl(c, d) == 2 * Shl(c, d - 1);
    }
  }

  lemma {:induction false} LowShr(x: nat, j: nat, n: nat)
    ensures Low(Shr(x, j), n) == Shr(Low(x, j + n), j)
    decreases j
  {
    if j > 0 {
      LowShr(x / 2, j - 1, n);
      var l := Low(x / 2, j - 1 + n);
      assert (x % 2 + 2 * l) / 2 == l;
    }
  }

  lemma {:induction false} LowLow(x: nat, n: nat, j: nat)
    requires j <= n
    ensures Low(Low(x, n), j) == Low(x, j)
    decreases j
  {
    if j > 0 {
      var l := Low(x / 2, n - 1);
      assert (x % 2 + 2 * l) % 2 == x % 2 && (x % 2 + 2 * l) / 2 == l;
      LowLow(x / 2, n - 1, j - 1);
    }
  }

  /** A value is known from its low bits and the rest. */
  lemma LowParts(x: nat, j: nat, n: nat)
    ensures Low(x, j + n) == Low(x, j) + Shl(Low(Shr(x, j), n), j)
  {
    SplitLow(Low(x, j + n), j);
    LowLow(x, j + n, j);
    LowShr(x, j, n);
  }

  lemma {:induction false} ReversedTwice(c: nat, n: nat)
    ensures Reversed(Reversed(c, n), n) == Low(c, n)
    decreases n
  {
    hide Shl, Pow2;
    if n > 0 {
      var r := Reversed(c / 2, n - 1);
      var v := Shl(c % 2, n - 1) + r;
      ReversedSplit(v, n - 1, 1);
      ReversedBound(c / 2, n - 1);
      LowShrUnique(r, c % 2, n - 1);
      LowOfReversed(v, n - 1, 0);
      ReversedTwice(c / 2, n - 1);
      OneBitReversed(c % 2, Reversed(v, n - 1));
      Still(Reversed(v, n - 1));
    }
  }

  lemma Still(x: nat)
    ensures Shr(x, 0) == x
  {
  }

  lemma OneBitReversed(b: nat, x: nat)
    requires b < 2
    ensures Reversed(b, 1) == b && Shl(x, 1) == 2 * x
  {
    assert Reversed(b / 2, 0) == 0 && Shl(b, 0) == b && Shl(x, 0) == x;
  }

  // ---------------------------------------------------------------- comparing leading bits

  lemma {:induction false} ShrAtLeast(x: nat, y: nat, d: nat)
    ensures Shr(x, d) >= y <==> x >= Shl(y, d)
    decreases d
  {
    if d > 0 {
      ShrAtLeast(x / 2, y, d - 1);
    }
  }

  lemma {:induction false} ShrOfShl(x: nat, d: nat)
    ensures Shr(Shl(x, d), d) == x
  {
    if d > 0 {
      ShrOfShl(x, d - 1);
      assert 2 * Shl(x, d - 1) / 2 == Shl(x, d - 1);
    }
  }

  lemma {:induction false} ShrMono(x: nat, y: nat, d: nat)
    requires x <= y
    ensures Shr(x, d) <= Shr(y, d)
    decreases d
  {
    if d > 0 {
      ShrMono(x / 2, y / 2, d - 1);
    }
  }

  /** Adding one changes the leading bits only by a carry that leaves zeros behind it. */
  lemma {:induction false} ShrOfNext(c: nat, a: nat)
    ensures Shr(c + 1, a) == Shr(c, a) || (Shr(c + 1, a) == Shr(c, a) + 1 && c + 1 == Shl(Shr(c + 1, a), a))
    decreases a
  {
    if a > 0 {
      HalfOfNext(c);
      ShrOfNext(c / 2, a - 1);
    }
  }

  // ---------------------------------------------------------------- backward increment

  /** Adds one to an n-bit number whose bits are stored in reverse: the carry runs downwards. */
  function Inc(h: nat, n: nat): nat
    decreases n
  {
    if n == 0 then 0
    else if h >= Pow2(n - 1) then Inc(h - Pow2(n - 1), n - 1)
    else h + Pow2(n - 1)
  }

  lemma ReversedTop(v: nat, n: nat)
    requires n > 0
    ensures Reversed(v, n) == (if v % 2 == 1 then Pow2(n - 1) else 0) + Reversed(v / 2, n - 1)
    ensures Reversed(v / 2, n - 1) < Pow2(n - 1)
  {
    ReversedBound(v / 2, n - 1);
    ShlIsMul(v % 2, n - 1);
  }

  lemma HalfOfNext(c: nat)
    ensures (c + 1) / 2 == if c % 2 == 1 then c / 2 + 1 else c / 2
    ensures (c + 1) % 2 == 1 - c % 2
  {
  }

  lemma {:induction false} IncIsNext(c: nat, n: nat)
    ensures Inc(Reversed(c, n), n) == Reversed(c + 1, n)
    decreases n
  {
    hide Shl, Reversed;
    if n == 0 {
      ReversedBound(c + 1, 0);
      assert Pow2(0) == 1;
    } else {
      HalfOfNext(c);
      ReversedTop(c, n);
      ReversedTop(c + 1, n);
      IncIsNext(c / 2, n - 1);
    }
  }

  lemma {:induction false} LowTop(h: nat, j: nat)
    ensures Low(h, j + 1) == Low(h, j) + if Shr(h, j) % 2 == 1 then Pow2(j) else 0
    decreases j
  {
    if j > 0 {
      LowTop(h / 2, j - 1);
    } else {
      assert Low(h / 2, 0) == 0;
    }
  }

  /** The loop of inflate_table that increments huff; `Shr(huff, j) % 2` is the test huff & incr. */
  method BackIncrement(huff: nat, len: nat) returns (r: nat)
    requires huff < Pow2(len) && len >= 1
    ensures r == Inc(huff, len)
  {
    var j := len;
    LowSmall(huff, len);
    // incr is 1 << (j - 1), or 0 once it has been shifted out
    while j > 0 && Shr(huff, j - 1) % 2 == 1
      invariant 0 <= j <= len && Inc(huff, len) == Inc(Low(huff, j), j)
      decreases j
    {
      LowTop(huff, j - 1);
      j := j - 1;
    }
    if j > 0 {
      LowTop(huff, j - 1);
      r := Low(huff, j - 1) + Pow2(j - 1);
    } else {
      r := 0;
    }
  }
}
