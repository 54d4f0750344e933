/** The bit buffer of src/ext/zlib/trees.c: send_bits, put_short, bi_flush and bi_windup. */
module SendBits {
  import opened Bits
  import opened Canonical
  import opened Reversal
  import opened Streams

  /** Bits that have been sent and not yet put into whole bytes wait in biBuf, a 16-bit word. */
  class BitWriter {
    var pending: seq<nat>
    var biBuf: nat
    var biValid: nat

    ghost predicate Valid()
      reads this
    {
      biValid <= 16 && Holds(biBuf, biValid) && forall i | 0 <= i < |pending| :: pending[i] < 256
    }

    /** Everything sent so far. */
    ghost function Sent(): seq<bool>
      reads this
    {
      BitsOf(pending) + LsbBits(biBuf, biValid)
    }

    constructor ()
      ensures Valid() && Sent() == [] && pending == []
    {
      pending, biBuf, biValid := [], 0, 0;
      new;
      assert LsbBits(0, 0) == [];
    }

    method PutShort(w: nat)
      requires w < 0x1_0000
      modifies this`pending
      ensures pending == old(pending) + [Low(w, 8), Shr(w, 8)]
    {
      pending := pending + [Low(w, 8)];
      pending := pending + [Shr(w, 8)];
    }

    method SendBits(value: nat, length: nat)
      requires Valid() && value < Pow2(length) && length <= 16
      modifies this
      ensures old(pending) <= pending
      ensures Valid() && Sent() == old(Sent()) + LsbBits(value, length)
    {
      hide Pow2, Shl, Shr, Low, Or, LsbBits, BitsOf;
      if biValid > 16 - length {
        SplitWord(biBuf, biValid, value, length);
        biBuf := Low(Or(biBuf, Shl(value, biValid)), 16);
        PutShort(biBuf);
        ShortBytes(biBuf);
        BitsOfAppend(old(pending), [Low(biBuf, 8), Shr(biBuf, 8)]);
        ghost var w := biBuf;
        biBuf := Shr(value, 16 - biValid);
        biValid := biValid + length - 16;
        Regroup(BitsOf(old(pending)), LsbBits(w, 16), LsbBits(biBuf, biValid), LsbBits(old(biBuf), old(biValid)),
                LsbBits(value, length));
      } else {
        AddBits(biBuf, biValid, value, length);
        biBuf := Or(biBuf, Shl(value, biValid));
        biValid := biValid + length;
        Regroup(BitsOf(pending), LsbBits(biBuf, biValid), [], LsbBits(old(biBuf), old(biValid)), LsbBits(value, length));
      }
    }

    /** Leaves at most 7 bits in the buffer. */
    method BiFlush()
      requires Valid()
      modifies this
      ensures old(pending) <= pending
      ensures Valid() && Sent() == old(Sent()) && biValid < 8
    {
      hide Pow2, Shr, Low, LsbBits, BitsOf;
      if biValid == 16 {
        Pow2Values();
        ShortBytes(biBuf);
        PutShort(biBuf);
        BitsOfAppend(old(pending), [Low(biBuf, 8), Shr(biBuf, 8)]);
        biBuf := 0;
        biValid := 0;
        NoBits();
      } else if biValid >= 8 {
        OneByte(biBuf, biValid);
        pending := pending + [Low(biBuf, 8)];
        BitsOfAppend(old(pending), [Low(biBuf, 8)]);
        biBuf := Shr(biBuf, 8);
        biValid := biValid - 8;
        assert Sent() == old(Sent());
      }
    }

    /** Fills up the last byte with zeros. */
    method BiWindup()
      requires Valid()
      modifies this
      ensures Valid() && biValid == 0 && biBuf == 0 && Sent() == BitsOf(pending)
      ensures Sent() == old(Sent()) + Zeros(Padding(|old(Sent())|)) && old(pending) <= pending
    {
      hide Pow2, Shr, Low, LsbBits, BitsOf, Zeros, Padding;
      NoBits();
      SentLength();
      PaddingIs(|pending|, biValid);
      if biValid > 8 {
        PadShort(biBuf, biValid);
        PutShort(biBuf);
        BitsOfAppend(old(pending), [Low(biBuf, 8), Shr(biBuf, 8)]);
        assert BitsOf(pending) == BitsOf(old(pending)) + (LsbBits(biBuf, biValid) + Zeros(16 - biValid));
      } else if biValid > 0 {
        PadByte(biBuf, biValid);
        pending := pending + [Low(biBuf, 8)];
        BitsOfAppend(old(pending), [Low(biBuf, 8)]);
        assert BitsOf(pending) == BitsOf(old(pending)) + (LsbBits(biBuf, biValid) + Zeros(8 - biValid));
      } else {
        assert Zeros(0) == [];
      }
      biBuf, biValid := 0, 0;
      assert Sent() == BitsOf(pending);
    }

    lemma SentLength()
      requires Valid()
      ensures |Sent()| == 8 * |pending| + biValid
    {
    }
  }

  lemma Regroup(a: seq<bool>, x: seq<bool>, y: seq<bool>, u: seq<bool>, v: seq<bool>)
    requires x + y == u + v
    ensures a + x + y == a + u + v
  {
    assert a + x + y == a + (x + y);
    assert a + u + v == a + (u + v);
  }

  /** Zero bits up to the next byte boundary. */
  function Padding(n: nat): nat {
    (8 - n % 8) % 8
  }

  function Zeros(n: nat): (r: seq<bool>)
    ensures |r| == n && forall i | 0 <= i < n :: !r[i]
  {
    seq(n, i => false)
  }

  lemma NoBits()
    ensures LsbBits(0, 0) == [] && Holds(0, 0)
  {
  }

  /** A 16-bit word as two bytes. */
  lemma ShortBytes(w: nat)
    requires w < 0x1_0000
    ensures BitsOf([Low(w, 8), Shr(w, 8)]) == LsbBits(w, 16)
    ensures Low(w, 8) < 256 && Shr(w, 8) < 256
  {
    hide Pow2, Shr, Low, LsbBits;
    Pow2Values();
    LsbSplit(w, 8, 8);
    LsbOfLow(w, 8);
    ShrShort(w, 8, 8);
    TwoBytes(Low(w, 8), Shr(w, 8));
  }

  lemma TwoBytes(l: nat, h: nat)
    ensures BitsOf([l, h]) == LsbBits(l, 8) + LsbBits(h, 8)
    ensures BitsOf([l]) == LsbBits(l, 8)
  {
    hide LsbBits;
    assert [l, h][1..] == [h] && [h][1..] == [] && [l][1..] == [];
  }

  /** When the value does not fit in the buffer, its low bits fill the word that goes out and its high bits stay. */
  lemma SplitWord(buf: nat, valid: nat, value: nat, length: nat)
    requires Holds(buf, valid) && valid <= 16 && length <= 16 && value < Pow2(length) && valid > 16 - length
    ensures var w := Low(Or(buf, Shl(value, valid)), 16);
      && w < 0x1_0000 && Holds(Shr(value, 16 - valid), valid + length - 16)
      && LsbBits(w, 16) + LsbBits(Shr(value, 16 - valid), valid + length - 16) == LsbBits(buf, valid) + LsbBits(value, length)
  {
    hide Pow2, Shl, Shr, Low, Or, LsbBits;
    Pow2Values();
    var k := 16 - valid;
    OrDisjoint(buf, value, valid);
    LsbOfLow(buf + Shl(value, valid), 16);
    LsbOfSum(buf, value, valid, k);
    LsbSplit(value, k, length - k);
    ShrShort(value, length - k, k);
  }

  lemma AddBits(buf: nat, valid: nat, value: nat, length: nat)
    requires Holds(buf, valid) && value < Pow2(length)
    ensures Holds(Or(buf, Shl(value, valid)), valid + length)
    ensures LsbBits(Or(buf, Shl(value, valid)), valid + length) == LsbBits(buf, valid) + LsbBits(value, length)
  {
    hide Pow2, Shl, Or, LsbBits;
    OrDisjoint(buf, value, valid);
    LsbOfSum(buf, value, valid, length);
    ShlBound(value, length, valid);
  }

  lemma OneByte(buf: nat, valid: nat)
    requires Holds(buf, valid) && 8 <= valid
    ensures Low(buf, 8) < 256 && Holds(Shr(buf, 8), valid - 8)
    ensures BitsOf([Low(buf, 8)]) + LsbBits(Shr(buf, 8), valid - 8) == LsbBits(buf, valid)
  {
    hide Pow2, Shr, Low, LsbBits, BitsOf;
    Pow2Values();
    LsbSplit(buf, 8, valid - 8);
    LsbOfLow(buf, 8);
    ShrShort(buf, valid - 8, 8);
    TwoBytes(Low(buf, 8), 0);
  }

  lemma {:induction false} ZeroBits(n: nat)
    ensures LsbBits(0, n) == Zeros(n)
  {
    if n > 0 {
      ZeroBits(n - 1);
    }
  }

  lemma PaddingIs(k: nat, v: nat)
    requires v <= 16
    ensures Padding(8 * k + v) == if v == 0 then 0 else if v <= 8 then 8 - v else 16 - v
  {
    assert (8 * k + v) % 8 == v % 8;
  }

  lemma PadShort(buf: nat, valid: nat)
    requires Holds(buf, valid) && 8 < valid <= 16
    ensures buf < 0x1_0000 && Low(buf, 8) < 256 && Shr(buf, 8) < 256
    ensures BitsOf([Low(buf, 8), Shr(buf, 8)]) == LsbBits(buf, valid) + Zeros(16 - valid)
  {
    hide Pow2, Shr, Low, LsbBits, BitsOf;
    Pow2Values();
    Pow2Mono(valid, 16);
    ShortBytes(buf);
    LsbSplit(buf, valid, 16 - valid);
    LowSmall(buf, valid);
    ZeroBits(16 - valid);
  }

  lemma PadByte(buf: nat, valid: nat)
    requires Holds(buf, valid) && 0 < valid <= 8
    ensures Low(buf, 8) < 256 && BitsOf([Low(buf, 8)]) == LsbBits(buf, valid) + Zeros(8 - valid)
  {
    hide Pow2, Shr, Low, LsbBits, BitsOf;
    Pow2Values();
    LsbSplit(buf, valid, 8 - valid);
    LowSmall(buf, valid);
    ZeroBits(8 - valid);
    LsbOfLow(buf, 8);
    TwoBytes(Low(buf, 8), 0);
  }
}
