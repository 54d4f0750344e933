/** Bit streams, least significant bit of each byte first (section 3.1.1 of RFC 1951), and the accumulator that inflate
    keeps of the next bits (the macros PULLBYTE, BITS and DROPBITS of src/ext/zlib/inflate.c). */
module Streams {
  import opened Bits
  import opened Canonical
  import opened Reversal

  /** The number whose bits, lowest first, are b. */
  function ValueOf(b: seq<bool>): (v: nat)
    ensures v < Pow2(|b|)
  {
    if b == [] then 0 else (if b[0] then 1 else 0) + 2 * ValueOf(b[1..])
  }

  /** A field of n bits at the front of a stream. */
  function Field(b: seq<bool>, n: nat): (v: nat)
    requires n <= |b|
    ensures v < Pow2(n)
  {
    ValueOf(b[..n])
  }

  function BitsOf(bytes: seq<nat>): (b: seq<bool>)
    ensures |b| == 8 * |bytes|
  {
    if bytes == [] then [] else LsbBits(bytes[0], 8) + BitsOf(bytes[1..])
  }

  lemma {:induction false} BitsOfAppend(s: seq<nat>, t: seq<nat>)
    ensures BitsOf(s + t) == BitsOf(s) + BitsOf(t)
  {
    if s == [] {
      assert s + t == t;
    } else {
      assert (s + t)[1..] == s[1..] + t;
      BitsOfAppend(s[1..], t);
    }
  }

  lemma {:induction false} LsbOfValue(b: seq<bool>)
    ensures LsbBits(ValueOf(b), |b|) == b
  {
    if b != [] {
      LsbOfValue(b[1..]);
      var v := ValueOf(b[1..]);
      assert ((if b[0] then 1 else 0) + 2 * v) / 2 == v;
      assert b == [b[0]] + b[1..];
    }
  }

  lemma {:induction false} ValueOfLsb(v: nat, n: nat)
    ensures ValueOf(LsbBits(v, n)) == Low(v, n)
    decreases n
  {
    if n > 0 {
      ValueOfLsb(v / 2, n - 1);
      assert LsbBits(v, n)[1..] == LsbBits(v / 2, n - 1);
    }
  }

  lemma SplitStep(v: nat, j: nat, n: nat)
    ensures j == 0 ==> LsbBits(v, j) == [] && Shr(v, j) == v
    ensures j > 0 ==> Shr(v, j) == Shr(v / 2, j - 1) && LsbBits(v, j) == [v % 2 == 1] + LsbBits(v / 2, j - 1)
    ensures j > 0 ==> LsbBits(v, j + n) == [v % 2 == 1] + LsbBits(v / 2, j - 1 + n)
  {
  }

  lemma {:induction false} LsbSplit(v: nat, j: nat, n: nat)
    ensures LsbBits(v, j + n) == LsbBits(v, j) + LsbBits(Shr(v, j), n)
    decreases j
  {
    hide Shr, LsbBits;
    SplitStep(v, j, n);
    if j > 0 {
      LsbSplit(v / 2, j - 1, n);
    }
  }

  lemma {:induction false} LsbOfLow(v: nat, n: nat)
    ensures LsbBits(Low(v, n), n) == LsbBits(v, n)
    decreases n
  {
    if n > 0 {
      LsbOfLow(v / 2, n - 1);
      var l := Low(v / 2, n - 1);
      assert (v % 2 + 2 * l) % 2 == v % 2 && (v % 2 + 2 * l) / 2 == l;
    }
  }

  // ---------------------------------------------------------------- the accumulator

  /** The accumulator holds exactly `bits` bits. */
  predicate Holds(hold: nat, bits: nat) {
    hold < Pow2(bits)
  }

  lemma PullByte(hold: nat, bits: nat, byte: nat)
    requires Holds(hold, bits) && byte < 256
    ensures Holds(hold + Shl(byte, bits), bits + 8)
    ensures LsbBits(hold + Shl(byte, bits), bits + 8) == LsbBits(hold, bits) + LsbBits(byte, 8)
  {
    hide Pow2, Shl, LsbBits;
    Pow2Values();
    LsbOfSum(hold, byte, bits, 8);
    ShlBound(byte, 8, bits);
  }

  lemma DropBits(hold: nat, bits: nat, n: nat)
    requires Holds(hold, bits) && n <= bits
    ensures Holds(Shr(hold, n), bits - n)
    ensures LsbBits(Shr(hold, n), bits - n) == LsbBits(hold, bits)[n..]
  {
    hide Pow2, Shr, LsbBits;
    LsbSplit(hold, n, bits - n);
    ShrShort(hold, bits - n, n);
  }

  lemma {:induction false} ShrShort(x: nat, n: nat, d: nat)
    requires x < Pow2(n + d)
    ensures Shr(x, d) < Pow2(n)
    decreases d
  {
    if d > 0 {
      ShrShort(x / 2, n, d - 1);
    }
  }

  lemma TakeBits(hold: nat, bits: nat, n: nat)
    requires Holds(hold, bits) && n <= bits
    ensures Low(hold, n) == Field(LsbBits(hold, bits), n)
    ensures ValueOf(LsbBits(hold, bits)) == hold
  {
    hide Pow2, LsbBits, Low;
    LsbSplit(hold, n, bits - n);
    ValueOfLsb(hold, n);
    assert LsbBits(hold, bits)[..n] == LsbBits(hold, n);
    ValueOfLsb(hold, bits);
    LowSmall(hold, bits);
  }
}
