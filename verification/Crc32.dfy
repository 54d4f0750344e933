/** The CRC-32 of src/ext/zlib/crc32.c (section 8 of RFC 1952): table construction, the byte-wise loop, the two
    word-at-a-time loops and the combination of two checksums by squared GF(2) operators, all related to a register
    that takes in the data one bit at a time. */
module Crc32 {
  import opened Bits

  type byte = x: nat | x < 256
  type word = x: nat | x < 0x1_0000_0000

  // ---------------------------------------------------------------- one bit at a time

  const POLY: word := 0xedb88320
  const ONES: word := 0xffff_ffff

  /** One clock of the shift register with no data on the input. */
  function Shift(c: nat): nat {
    if c % 2 == 1 then Xor(POLY, c / 2) else c / 2
  }

  function ShiftN(c: nat, n: nat): nat
    decreases n
  {
    if n == 0 then c else ShiftN(Shift(c), n - 1)
  }

  /** Clocks the low `n` bits of `w` into the register, least significant bit first. */
  function FeedBits(c: nat, w: nat, n: nat): nat
    decreases n
  {
    if n == 0 then c else FeedBits(Shift(Xor(c, w % 2)), w / 2, n - 1)
  }

  function Register(c: nat, data: seq<byte>): nat
    decreases |data|
  {
    if data == [] then c else Register(FeedBits(c, data[0], 8), data[1..])
  }

  /** The checksum that follows `crc` once `data` has been taken in; a fresh checksum starts from 0. */
  function Checksum(crc: word, data: seq<byte>): (r: word)
  {
    RegisterBound(ONES - crc, data);
    ONES - Register(ONES - crc, data)
  }

  // ---------------------------------------------------------------- the register is linear

  lemma ShiftBound(c: nat)
    requires c < Pow2(32)
    ensures Shift(c) < Pow2(32)
  {
    Pow2Values();
    XorBound(POLY, c / 2, 32);
  }

  lemma {:induction false} FeedBitsBound(c: nat, w: nat, n: nat)
    requires c < Pow2(32)
    ensures FeedBits(c, w, n) < Pow2(32)
    decreases n
  {
    if n > 0 {
      Pow2Values();
      XorBound(c, w % 2, 32);
      ShiftBound(Xor(c, w % 2));
      FeedBitsBound(Shift(Xor(c, w % 2)), w / 2, n - 1);
    }
  }

  lemma {:induction false} RegisterBound(c: nat, data: seq<byte>)
    requires c <= ONES
    ensures Register(c, data) <= ONES
    decreases |data|
  {
    Pow2Values();
    if data != [] {
      FeedBitsBound(c, data[0], 8);
      RegisterBound(FeedBits(c, data[0], 8), data[1..]);
    }
  }

  lemma ShiftXor(x: nat, y: nat)
    ensures Shift(Xor(x, y)) == Xor(Shift(x), Shift(y))
  {
    XorHalf(x, y);
    var p, a, b := POLY, x / 2, y / 2;
    XorPairs(p, a, p, b);
    XorZero(p);
    XorZero(Xor(a, b));
    XorAssoc(p, a, b);
    XorSwap(p, b, a);
    XorComm(a, b);
    XorComm(a, Xor(p, b));
  }

  lemma {:induction false} ShiftNXor(x: nat, y: nat, n: nat)
    ensures ShiftN(Xor(x, y), n) == Xor(ShiftN(x, n), ShiftN(y, n))
    decreases n
  {
    if n > 0 {
      ShiftXor(x, y);
      ShiftNXor(Shift(x), Shift(y), n - 1);
    }
  }

  lemma {:induction false} ShiftNAdd(x: nat, m: nat, n: nat)
    ensures ShiftN(ShiftN(x, m), n) == ShiftN(x, m + n)
    decreases m
  {
    if m > 0 {
      ShiftNAdd(Shift(x), m - 1, n);
    }
  }

  /** Clocks that only move an empty low part out of the register. */
  lemma {:induction false} ShiftOut(x: nat, n: nat)
    ensures ShiftN(Shl(x, n), n) == x
  {
    if n > 0 {
      ShiftOut(x, n - 1);
    }
  }

  /** The step every table-driven loop rests on. */
  lemma ShiftByTable(x: nat, n: nat)
    ensures ShiftN(x, n) == Xor(ShiftN(Low(x, n), n), Shr(x, n))
  {
    SplitLow(x, n);
    XorDisjoint(Low(x, n), Shr(x, n), n);
    ShiftNXor(Low(x, n), Shl(Shr(x, n), n), n);
    ShiftOut(Shr(x, n), n);
  }

  /** Taking bits in one by one is adding them all to the register first and clocking it afterwards. */
  lemma {:induction false} FeedBitsIsShiftN(c: nat, w: nat, n: nat)
    requires w < Pow2(n)
    ensures FeedBits(c, w, n) == ShiftN(Xor(c, w), n)
    decreases n
  {
    if n == 0 {
      XorZero(c);
    } else {
      var low, high := w % 2, w / 2;
      FeedBitsIsShiftN(Shift(Xor(c, low)), high, n - 1);
      XorDisjoint(low, high, 1);
      assert Shl(high, 0) == high;
      assert Shl(high, 1) == 2 * high;
      XorAssoc(c, low, 2 * high);
      ShiftXor(Xor(c, low), 2 * high);
    }
  }

  lemma Halved(l: nat, s: nat)
    ensures (l + 2 * s) % 2 == l % 2 && (l + 2 * s) / 2 == l / 2 + s
  {
  }

  lemma {:induction false} FeedBitsJoin(c: nat, l: nat, h: nat, m: nat, n: nat)
    requires l < Pow2(m)
    ensures FeedBits(FeedBits(c, l, m), h, n) == FeedBits(c, l + Shl(h, m), m + n)
    decreases m
  {
    hide Xor, Shift;
    if m > 0 {
      FeedBitsJoin(Shift(Xor(c, l % 2)), l / 2, h, m - 1, n);
      Halved(l, Shl(h, m - 1));
    }
  }

  lemma {:induction false} RegisterAppend(c: nat, a: seq<byte>, b: seq<byte>)
    ensures Register(c, a + b) == Register(Register(c, a), b)
    decreases |a|
  {
    if a == [] {
      assert a + b == b;
    } else {
      assert (a + b)[1..] == a[1..] + b;
      RegisterAppend(FeedBits(c, a[0], 8), a[1..], b);
    }
  }

  lemma RegisterByte(c: nat, b: byte)
    ensures Register(c, [b]) == ShiftN(Xor(c, b), 8)
  {
    assert [b][1..] == [];
    Pow2Values();
    FeedBitsIsShiftN(c, b, 8);
  }

  // ---------------------------------------------------------------- words

  /** The value of four bytes, the first one lowest. */
  function Pack(b0: byte, b1: byte, b2: byte, b3: byte): (w: word) {
    b0 + 0x100 * b1 + 0x1_0000 * b2 + 0x100_0000 * b3
  }

  function Byte(w: nat, i: nat): (b: byte) {
    assert Pow2(8) == 256;
    Low(Shr(w, 8 * i), 8)
  }

  /** The byte reversal of a word (the macro REV). */
  function Rev(w: nat): word {
    Pack(Byte(w, 3), Byte(w, 2), Byte(w, 1), Byte(w, 0))
  }

  lemma PackIsShl(b0: byte, b1: byte, b2: byte, b3: byte)
    ensures Pack(b0, b1, b2, b3) == b0 + Shl(b1 + Shl(b2 + Shl(b3, 8), 8), 8)
  {
    Pow2Values();
    ShlIsMul(b3, 8);
    ShlIsMul(b2 + Shl(b3, 8), 8);
    ShlIsMul(b1 + Shl(b2 + Shl(b3, 8), 8), 8);
  }

  lemma PackBytes(b0: byte, b1: byte, b2: byte, b3: byte)
    ensures var w := Pack(b0, b1, b2, b3);
      Byte(w, 0) == b0 && Byte(w, 1) == b1 && Byte(w, 2) == b2 && Byte(w, 3) == b3 && Shr(w, 24) == b3
  {
    var w := Pack(b0, b1, b2, b3);
    Shr0(w);
    PackIsShl(b0, b1, b2, b3);
    Horner(b0, b1, b2, b3, w);
  }

  lemma Shr0(w: nat)
    ensures Shr(w, 0) == w
  {
  }

  lemma Horner(b0: byte, b1: byte, b2: byte, b3: byte, w: nat)
    requires w == b0 + Shl(b1 + Shl(b2 + Shl(b3, 8), 8), 8)
    ensures Low(w, 8) == b0 && Low(Shr(w, 8), 8) == b1 && Low(Shr(w, 16), 8) == b2 && Low(Shr(w, 24), 8) == b3
    ensures Shr(w, 24) == b3
  {
    hide *;
    var w2 := b2 + Shl(b3, 8);
    var w1 := b1 + Shl(w2, 8);
    HornerStep(b0, w1, w);
    HornerStep(b1, w2, w1);
    HornerStep(b2, b3, w2);
    ByteLow(b3);
    ShrShr(w, 8, 8);
    ShrShr(w, 16, 8);
  }

  lemma HornerStep(b: byte, h: nat, w: nat)
    requires w == b + Shl(h, 8)
    ensures Low(w, 8) == b && Shr(w, 8) == h
  {
    assert Pow2(8) == 256;
    hide *;
    LowShrUnique(b, h, 8);
  }

  lemma ByteLow(b: byte)
    ensures Low(b, 8) == b
  {
    assert Pow2(8) == 256;
    hide *;
    LowSmall(b, 8);
  }

  lemma UnpackWord(w: word)
    ensures Pack(Byte(w, 0), Byte(w, 1), Byte(w, 2), Byte(w, 3)) == w
  {
    hide Pack, Shl, Shr, Low, Pow2;
    Shr0(w);
    PackIsShl(Byte(w, 0), Byte(w, 1), Byte(w, 2), Byte(w, 3));
    Unhorner(w);
  }

  lemma Unhorner(w: word)
    ensures w == Low(w, 8) + Shl(Low(Shr(w, 8), 8) + Shl(Low(Shr(w, 16), 8) + Shl(Low(Shr(w, 24), 8), 8), 8), 8)
  {
    Pow2Values();
    hide *;
    SplitLow(w, 8);
    SplitLow(Shr(w, 8), 8);
    SplitLow(Shr(w, 16), 8);
    ShrShr(w, 8, 8);
    ShrShr(w, 16, 8);
    SplitLow(w, 24);
    ShlIsMul(Shr(w, 24), 24);
    assert Shr(w, 24) < 256;
    LowSmall(Shr(w, 24), 8);
  }

  lemma RevRev(w: word)
    ensures Rev(Rev(w)) == w
  {
    PackBytes(Byte(w, 3), Byte(w, 2), Byte(w, 1), Byte(w, 0));
    UnpackWord(w);
  }

  lemma ByteXor(x: nat, y: nat, i: nat)
    ensures Byte(Xor(x, y), i) == Xor(Byte(x, i), Byte(y, i))
  {
    XorShr(x, y, 8 * i);
    XorLow(Shr(x, 8 * i), Shr(y, 8 * i), 8);
  }

  lemma JoinXor(l: nat, h: nat, l': nat, h': nat, k: nat)
    requires l < Pow2(k) && l' < Pow2(k)
    ensures Xor(l + Shl(h, k), l' + Shl(h', k)) == Xor(l, l') + Shl(Xor(h, h'), k)
    ensures Xor(l, l') < Pow2(k)
  {
    XorDisjoint(l, h, k);
    XorDisjoint(l', h', k);
    XorPairs(l, Shl(h, k), l', Shl(h', k));
    XorShl(h, h', k);
    XorBound(l, l', k);
    XorDisjoint(Xor(l, l'), Xor(h, h'), k);
  }

  function XorByte(x: byte, y: byte): (r: byte)
    ensures r == Xor(x, y)
  {
    Pow2Values();
    XorBound(x, y, 8);
    Xor(x, y)
  }

  lemma PackXor(a0: byte, a1: byte, a2: byte, a3: byte, b0: byte, b1: byte, b2: byte, b3: byte)
    ensures Xor(Pack(a0, a1, a2, a3), Pack(b0, b1, b2, b3))
         == Pack(XorByte(a0, b0), XorByte(a1, b1), XorByte(a2, b2), XorByte(a3, b3))
  {
    hide Shl, Shr, Low, Pow2, Pack, Xor;
    Pow2Values();
    PackIsShl(a0, a1, a2, a3);
    PackIsShl(b0, b1, b2, b3);
    PackIsShl(XorByte(a0, b0), XorByte(a1, b1), XorByte(a2, b2), XorByte(a3, b3));
    JoinXor(a2, a3, b2, b3, 8);
    JoinXor(a1, a2 + Shl(a3, 8), b1, b2 + Shl(b3, 8), 8);
    JoinXor(a0, a1 + Shl(a2 + Shl(a3, 8), 8), b0, b1 + Shl(b2 + Shl(b3, 8), 8), 8);
  }

  lemma RevXor(x: nat, y: nat)
    ensures Rev(Xor(x, y)) == Xor(Rev(x), Rev(y))
  {
    ByteXor(x, y, 0);
    ByteXor(x, y, 1);
    ByteXor(x, y, 2);
    ByteXor(x, y, 3);
    PackXor(Byte(x, 3), Byte(x, 2), Byte(x, 1), Byte(x, 0), Byte(y, 3), Byte(y, 2), Byte(y, 1), Byte(y, 0));
  }

  lemma RegisterFour(c: nat, b0: byte, b1: byte, b2: byte, b3: byte)
    ensures Register(c, [b0, b1, b2, b3]) == FeedBits(FeedBits(FeedBits(FeedBits(c, b0, 8), b1, 8), b2, 8), b3, 8)
  {
    hide FeedBits;
    var c1 := FeedBits(c, b0, 8);
    var c2 := FeedBits(c1, b1, 8);
    var c3 := FeedBits(c2, b2, 8);
    RegisterCons(c, b0, [b1, b2, b3], [b0, b1, b2, b3]);
    RegisterCons(c1, b1, [b2, b3], [b1, b2, b3]);
    RegisterCons(c2, b2, [b3], [b2, b3]);
    RegisterCons(c3, b3, [], [b3]);
  }

  lemma RegisterCons(c: nat, b: byte, rest: seq<byte>, data: seq<byte>)
    requires data == [b] + rest
    ensures Register(c, data) == Register(FeedBits(c, b, 8), rest)
  {
    assert data[1..] == rest;
  }

  /** Four bytes at once: 32 clocks of the register after the word has been added to it. */
  lemma RegisterWord(c: nat, b0: byte, b1: byte, b2: byte, b3: byte)
    ensures Register(c, [b0, b1, b2, b3]) == ShiftN(Xor(c, Pack(b0, b1, b2, b3)), 32)
  {
    hide FeedBits, ShiftN, Shl, Pow2, Pack;
    Pow2Values();
    RegisterFour(c, b0, b1, b2, b3);
    var c1 := FeedBits(c, b0, 8);
    var c2 := FeedBits(c1, b1, 8);
    FeedBitsJoin(c2, b2, b3, 8, 8);
    FeedBitsJoin(c1, b1, b2 + Shl(b3, 8), 8, 16);
    FeedBitsJoin(c, b0, b1 + Shl(b2 + Shl(b3, 8), 8), 8, 24);
    PackIsShl(b0, b1, b2, b3);
    FeedBitsIsShiftN(c, Pack(b0, b1, b2, b3), 32);
  }

  /** 32 clocks are four table look-ups. */
  lemma ShiftWord(w: word)
    ensures ShiftN(w, 32) == Xor(Xor(Xor(ShiftN(Byte(w, 0), 32), ShiftN(Byte(w, 1), 24)), ShiftN(Byte(w, 2), 16)),
                                 ShiftN(Byte(w, 3), 8))
  {
    hide *;
    ShiftWordRight(w);
    var a, b, c, d := ShiftN(Byte(w, 0), 32), ShiftN(Byte(w, 1), 24), ShiftN(Byte(w, 2), 16), ShiftN(Byte(w, 3), 8);
    XorAssoc(a, b, Xor(c, d));
    XorAssoc(Xor(a, b), c, d);
  }

  lemma ShiftWordRight(w: word)
    ensures ShiftN(w, 32) == Xor(ShiftN(Byte(w, 0), 32), Xor(ShiftN(Byte(w, 1), 24),
                                 Xor(ShiftN(Byte(w, 2), 16), ShiftN(Byte(w, 3), 8))))
  {
    hide *;
    ShiftNNone(0);
    WordFits(w);
    LookUp(w, 0, 0, 8, 24);
    LookUp(w, 1, 8, 16, 16);
    LookUp(w, 2, 16, 24, 8);
    LookUp(w, 3, 24, 32, 0);
    XorZero(ShiftN(Byte(w, 3), 8));
  }

  lemma ShiftNNone(x: nat)
    ensures ShiftN(x, 0) == x
  {
  }

  lemma WordFits(w: word)
    ensures Shr(w, 0) == w && Shr(w, 32) == 0
  {
    Pow2Values();
    LowSmall(w, 32);
  }

  lemma LookUp(w: nat, i: nat, j: nat, k: nat, n: nat)
    requires j == 8 * i && k == j + 8
    ensures ShiftN(Shr(w, j), 8 + n) == Xor(ShiftN(Byte(w, i), 8 + n), ShiftN(Shr(w, k), n))
  {
    ShrShr(w, j, 8);
    ShiftByTable8(Shr(w, j), n);
  }

  lemma ShiftByTable8(x: nat, n: nat)
    ensures ShiftN(x, 8 + n) == Xor(ShiftN(Low(x, 8), 8 + n), ShiftN(Shr(x, 8), n))
  {
    ShiftNAdd(x, 8, n);
    ShiftByTable(x, 8);
    ShiftNXor(ShiftN(Low(x, 8), 8), Shr(x, 8), n);
    ShiftNAdd(Low(x, 8), 8, n);
  }

  // ---------------------------------------------------------------- tables

  /** What entry n of table k has to hold: the register left by n after 8 * (k + 1) clocks; tables 4 to 7 are the byte
      reversals of tables 0 to 3. */
  ghost function Entry(k: nat, n: nat): nat {
    if k < 4 then ShiftN(n, 8 * (k + 1)) else Rev(ShiftN(n, 8 * (k - 3)))
  }

  ghost predicate TablesReady(t: array2<nat>)
    reads t
  {
    && t.Length0 == 8 && t.Length1 == 256
    && forall k, n | 0 <= k < 8 && 0 <= n < 256 :: t[k, n] == Entry(k, n)
  }

  /** The exclusive-or pattern of the polynomial, from the exponents of its first n terms. */
  function Pattern(n: nat): nat
    requires n <= |TERMS|
  {
    if n == 0 then 0 else Or(Pattern(n - 1), Shl(1, 31 - TERMS[n - 1]))
  }

  const TERMS: seq<nat> := [0, 1, 2, 4, 5, 7, 8, 10, 11, 12, 16, 22, 23, 26]

  lemma {:induction false} ShiftNBound(c: nat, n: nat)
    requires c <= ONES
    ensures ShiftN(c, n) <= ONES
    decreases n
  {
    Pow2Values();
    if n > 0 {
      ShiftBound(c);
      ShiftNBound(Shift(c), n - 1);
    }
  }

  lemma ShiftNLast(c: nat, n: nat)
    ensures ShiftN(c, n + 1) == Shift(ShiftN(c, n))
  {
    ShiftNAdd(c, n, 1);
    assert ShiftN(ShiftN(c, n), 1) == Shift(ShiftN(c, n));
  }

  method MakeCrcTable(t: array2<nat>)
    requires t.Length0 == 8 && t.Length1 == 256
    modifies t
    ensures TablesReady(t)
  {
    hide Xor, Shift, ShiftN, Rev, Shl, Or;
    var poly := 0;
    for n := 0 to |TERMS|
      invariant poly == Pattern(n)
    {
      poly := Or(poly, Shl(1, 31 - TERMS[n]));
    }
    PatternIsPoly();
    for n := 0 to 256
      invariant forall m | 0 <= m < n :: t[0, m] == Entry(0, m)
    {
      var c := ByteEntry(poly, n);
      t[0, n] := c;
    }
    FillTables(t);
  }

  method ByteEntry(poly: nat, n: nat) returns (c: nat)
    requires poly == POLY
    ensures c == ShiftN(n, 8)
  {
    c := n;
    for k := 0 to 8
      invariant c == ShiftN(n, k)
    {
      ShiftNLast(n, k);
      c := if c % 2 == 1 then Xor(poly, c / 2) else c / 2;
    }
  }

  /** The tables that follow table 0: each value followed by one, two and three zero bytes, and the reversals. */
  method FillTables(t: array2<nat>)
    requires t.Length0 == 8 && t.Length1 == 256
    requires forall m | 0 <= m < 256 :: t[0, m] == Entry(0, m)
    modifies t
    ensures TablesReady(t)
  {
    hide Rev, ShiftN, Low, Shr, Xor;
    for n := 0 to 256
      invariant forall m | 0 <= m < 256 :: t[0, m] == Entry(0, m)
      invariant forall k, m | 0 <= k < 8 && 0 <= m < n :: t[k, m] == Entry(k, m)
    {
      var c := t[0, n];
      t[4, n] := Rev(c);
      for k := 1 to 4
        invariant forall m | 0 <= m < 256 :: t[0, m] == Entry(0, m)
        invariant forall k, m | 0 <= k < 8 && 0 <= m < n :: t[k, m] == Entry(k, m)
        invariant c == ShiftN(n, 8 * k)
        invariant forall j | 0 <= j < k || 4 <= j < k + 4 :: t[j, n] == Entry(j, n)
      {
        NextEntry(n, k);
        c := Xor(t[0, LowByte(c)], Shr(c, 8));
        t[k, n] := c;
        t[k + 4, n] := Rev(c);
      }
    }
  }

  function LowByte(c: nat): (b: byte)
    ensures b == Low(c, 8)
  {
    assert Pow2(8) == 256;
    Low(c, 8)
  }

  lemma NextEntry(n: nat, k: nat)
    ensures ShiftN(n, 8 * (k + 1)) == Xor(ShiftN(LowByte(ShiftN(n, 8 * k)), 8), Shr(ShiftN(n, 8 * k), 8))
  {
    hide ShiftN, Xor, Shr;
    ShiftByTable(ShiftN(n, 8 * k), 8);
    ShiftNAdd(n, 8 * k, 8);
  }

  lemma PatternStep(n: nat, e: nat, p: nat, y: nat, q: nat)
    requires n < |TERMS| && e == TERMS[n] && Pattern(n) == p && q == Pow2(31 - e) && p == y * (2 * q)
    ensures Pattern(n + 1) == p + q
  {
    assert Pattern(n + 1) == Or(Pattern(n), Shl(1, 31 - e));
    PatternOr(p, y, 31 - e);
  }

  lemma PatternOr(p: nat, y: nat, k: nat)
    requires p == y * Pow2(k + 1)
    ensures Or(p, Shl(1, k)) == p + Pow2(k)
  {
    hide *;
    ShlIsMul(1, k);
    ShlIsMul(y, k + 1);
    OrComm(p, Pow2(k));
    Pow2Mono(k, k + 1);
    OrDisjoint(Pow2(k), y, k + 1);
  }

  lemma PatternPowers()
    ensures Pow2(31) == 0x8000_0000 && Pow2(30) == 0x4000_0000 && Pow2(29) == 0x2000_0000 && Pow2(27) == 0x800_0000
    ensures Pow2(26) == 0x400_0000 && Pow2(24) == 0x100_0000 && Pow2(23) == 0x80_0000
  {
    Pow2Values();
    hide Pow2;
    Pow2Add(16, 15);
    Pow2Add(16, 14);
    Pow2Add(16, 13);
    Pow2Add(24, 3);
    Pow2Add(24, 2);
    Pow2Add(16, 7);
  }

  lemma PatternLowPowers()
    ensures Pow2(21) == 0x20_0000 && Pow2(20) == 0x10_0000 && Pow2(19) == 0x8_0000 && Pow2(15) == 0x8000
    ensures Pow2(9) == 0x200 && Pow2(8) == 0x100 && Pow2(5) == 0x20
  {
    Pow2Values();
    hide Pow2;
    Pow2Add(16, 5);
    Pow2Add(16, 4);
    Pow2Add(16, 3);
  }

  lemma PatternNone()
    ensures Pattern(0) == 0
  {
  }

  lemma PatternHalf()
    ensures Pattern(7) == 0xed800000
  {
    hide Pattern, Pow2, Shl, Shr, Or, Xor;
    PatternNone();
    PatternPowers();
    PatternStep(0, 0, 0x0, 0x0, 0x80000000);
    PatternStep(1, 1, 0x80000000, 0x1, 0x40000000);
    PatternStep(2, 2, 0xc0000000, 0x3, 0x20000000);
    PatternStep(3, 4, 0xe0000000, 0xe, 0x8000000);
    PatternStep(4, 5, 0xe8000000, 0x1d, 0x4000000);
    PatternStep(5, 7, 0xec000000, 0x76, 0x1000000);
    PatternStep(6, 8, 0xed000000, 0xed, 0x800000);
  }

  lemma PatternIsPoly()
    ensures Pattern(|TERMS|) == POLY
  {
    hide Pattern, Pow2;
    PatternHalf();
    PatternLowPowers();
    PatternStep(7, 10, 0xed800000, 0x3b6, 0x200000);
    PatternStep(8, 11, 0xeda00000, 0x76d, 0x100000);
    PatternStep(9, 12, 0xedb00000, 0xedb, 0x80000);
    PatternStep(10, 16, 0xedb80000, 0xedb8, 0x8000);
    PatternStep(11, 22, 0xedb88000, 0x3b6e20, 0x200);
    PatternStep(12, 23, 0xedb88200, 0x76dc41, 0x100);
    PatternStep(13, 26, 0xedb88300, 0x3b6e20c, 0x20);
  }

  // ---------------------------------------------------------------- the byte-wise loop

  /** The macro DO1. */
  function TableStep(t: array2<nat>, c: nat, b: byte): nat
    requires t.Length0 == 8 && t.Length1 == 256
    reads t
  {
    Xor(t[0, LowByte(Xor(c, b))], Shr(c, 8))
  }

  lemma TableStepIsRegister(t: array2<nat>, c: nat, b: byte)
    requires TablesReady(t)
    ensures TableStep(t, c, b) == Register(c, [b])
  {
    hide ShiftN, Xor, Shr, Low, Register;
    RegisterByte(c, b);
    ShiftByTable(Xor(c, b), 8);
    ByteStep(c, b);
    assert t[0, LowByte(Xor(c, b))] == Entry(0, LowByte(Xor(c, b)));
  }

  lemma ByteStep(c: nat, b: byte)
    ensures Shr(Xor(c, b), 8) == Shr(c, 8)
  {
    assert Pow2(8) == 256;
    hide *;
    XorShr(c, b, 8);
    LowSmall(b, 8);
    XorZero(Shr(c, 8));
  }

  lemma RegisterPrefix(c: nat, buf: seq<byte>, i: nat, n: nat)
    requires i + n <= |buf|
    ensures Register(c, buf[..i + n]) == Register(Register(c, buf[..i]), buf[i..i + n])
  {
    assert buf[..i + n] == buf[..i] + buf[i..i + n];
    RegisterAppend(c, buf[..i], buf[i..i + n]);
  }

  /** One table look-up per byte, as many as `n` times from position i on. */
  method TableSteps(t: array2<nat>, c: nat, buf: seq<byte>, i: nat, n: nat) returns (r: nat)
    requires TablesReady(t) && i + n <= |buf|
    ensures r == Register(c, buf[i..i + n])
  {
    hide Register, TableStep;
    r := c;
    RegisterNone(c);
    assert buf[i..i] == [];
    for j := 0 to n
      invariant r == Register(c, buf[i..i + j])
    {
      assert buf[i..i + j + 1] == buf[i..i + j] + [buf[i + j]];
      RegisterAppend(c, buf[i..i + j], [buf[i + j]]);
      TableStepIsRegister(t, r, buf[i + j]);
      r := TableStep(t, r, buf[i + j]);
    }
  }

  lemma RegisterNone(c: nat)
    ensures Register(c, []) == c
  {
  }

  method Crc32Bytewise(t: array2<nat>, crc: word, buf: seq<byte>) returns (r: word)
    requires TablesReady(t)
    ensures r == Checksum(crc, buf)
  {
    hide Register;
    var c, i := Not(crc), 0;
    RegisterNone(c);
    while |buf| - i >= 8
      invariant 0 <= i <= |buf| && c == Register(ONES - crc, buf[..i])
    {
      RegisterPrefix(ONES - crc, buf, i, 8);
      c := TableSteps(t, c, buf, i, 8);
      i := i + 8;
    }
    while i < |buf|
      invariant 0 <= i <= |buf| && c == Register(ONES - crc, buf[..i])
    {
      RegisterPrefix(ONES - crc, buf, i, 1);
      c := TableSteps(t, c, buf, i, 1);
      i := i + 1;
    }
    assert buf[..i] == buf;
    RegisterBound(ONES - crc, buf);
    r := Not(c);
  }

  /** c ^ 0xffffffff */
  function Not(c: word): (r: word)
    ensures r == ONES - c
  {
    NotIs(c);
    Xor(c, ONES)
  }

  // ---------------------------------------------------------------- four bytes at a time, little-endian

  /** The macro DOLIT4 once the word has been loaded. */
  function LittleStep(t: array2<nat>, c: nat, w: nat): nat
    requires t.Length0 == 8 && t.Length1 == 256
    reads t
  {
    var x := Xor(c, w);
    Xor(Xor(Xor(t[3, Byte(x, 0)], t[2, Byte(x, 1)]), t[1, Byte(x, 2)]), t[0, Byte(x, 3)])
  }

  lemma LittleStepIsRegister(t: array2<nat>, c: word, b0: byte, b1: byte, b2: byte, b3: byte)
    requires TablesReady(t)
    ensures LittleStep(t, c, Pack(b0, b1, b2, b3)) == Register(c, [b0, b1, b2, b3])
  {
    hide Register, ShiftN, Xor, Pack, Byte, Rev;
    var w := Pack(b0, b1, b2, b3);
    RegisterWord(c, b0, b1, b2, b3);
    WordXor(c, w);
    ShiftWord(Xor(c, w));
    var x := Xor(c, w);
    assert t[3, Byte(x, 0)] == Entry(3, Byte(x, 0));
    assert t[2, Byte(x, 1)] == Entry(2, Byte(x, 1));
    assert t[1, Byte(x, 2)] == Entry(1, Byte(x, 2));
    assert t[0, Byte(x, 3)] == Entry(0, Byte(x, 3));
  }

  lemma WordXor(c: word, w: word)
    ensures Xor(c, w) <= ONES
  {
    Pow2Values();
    XorBound(c, w, 32);
  }

  lemma FourFrom(buf: seq<byte>, i: nat)
    requires i + 4 <= |buf|
    ensures buf[i..i + 4] == [buf[i], buf[i + 1], buf[i + 2], buf[i + 3]]
  {
  }

  /** Eight unrolled DOLIT4 (DOLIT32), or one of them. */
  method LittleSteps(t: array2<nat>, c: word, buf: seq<byte>, i: nat, n: nat) returns (r: word)
    requires TablesReady(t) && i + 4 * n <= |buf|
    ensures r == Register(c, buf[i..i + 4 * n])
  {
    hide Register, LittleStep, Pack;
    r := c;
    RegisterNone(c);
    assert buf[i..i] == [];
    for j := 0 to n
      invariant r == Register(c, buf[i..i + 4 * j])
    {
      var k := i + 4 * j;
      FourFrom(buf, k);
      assert buf[i..k + 4] == buf[i..k] + buf[k..k + 4];
      RegisterAppend(c, buf[i..k], buf[k..k + 4]);
      LittleStepIsRegister(t, r, buf[k], buf[k + 1], buf[k + 2], buf[k + 3]);
      RegisterBound(c, buf[i..k + 4]);
      r := LittleStep(t, r, Pack(buf[k], buf[k + 1], buf[k + 2], buf[k + 3]));
    }
  }

  /** `align` is the address of buf; only its low two bits matter. */
  method Crc32Little(t: array2<nat>, crc: word, buf: seq<byte>, align: nat) returns (r: word)
    requires TablesReady(t)
    ensures r == Checksum(crc, buf)
  {
    hide Register;
    var c: word, i := Not(crc), 0;
    RegisterNone(c);
    while i < |buf| && (align + i) % 4 != 0
      invariant 0 <= i <= |buf| && c == Register(ONES - crc, buf[..i])
    {
      RegisterPrefix(ONES - crc, buf, i, 1);
      RegisterBound(ONES - crc, buf[..i + 1]);
      c := TableSteps(t, c, buf, i, 1);
      i := i + 1;
    }
    while |buf| - i >= 32
      invariant 0 <= i <= |buf| && c == Register(ONES - crc, buf[..i])
    {
      RegisterPrefix(ONES - crc, buf, i, 32);
      c := LittleSteps(t, c, buf, i, 8);
      i := i + 32;
    }
    while |buf| - i >= 4
      invariant 0 <= i <= |buf| && c == Register(ONES - crc, buf[..i])
    {
      RegisterPrefix(ONES - crc, buf, i, 4);
      c := LittleSteps(t, c, buf, i, 1);
      i := i + 4;
    }
    while i < |buf|
      invariant 0 <= i <= |buf| && c == Register(ONES - crc, buf[..i])
    {
      RegisterPrefix(ONES - crc, buf, i, 1);
      RegisterBound(ONES - crc, buf[..i + 1]);
      c := TableSteps(t, c, buf, i, 1);
      i := i + 1;
    }
    assert buf[..i] == buf;
    r := Not(c);
  }

  // ---------------------------------------------------------------- four bytes at a time, big-endian

  /** c << 8 in a 32-bit word. */
  function ShiftLeftByte(c: word): (r: word) {
    0x100 * (c % 0x100_0000)
  }

  /** The byte step of crc32_big, on a register kept byte-reversed. */
  function BigByteStep(t: array2<nat>, c: word, b: byte): nat
    requires t.Length0 == 8 && t.Length1 == 256
    reads t
  {
    Xor(t[4, XorByte(Byte(c, 3), b)], ShiftLeftByte(c))
  }

  lemma ShiftLeftRev(c: word)
    ensures ShiftLeftByte(Rev(c)) == Rev(Shr(c, 8))
    ensures Byte(Rev(c), 3) == LowByte(c)
  {
    hide *;
    var d := Shr(c, 8);
    ByteUp(c, 0);
    ByteUp(c, 1);
    ByteUp(c, 2);
    ByteUp(c, 3);
    TopEmpty(c);
    RevIsPack(c);
    RevIsPack(d);
    PackLeft(Byte(c, 3), Byte(c, 2), Byte(c, 1), Byte(c, 0));
    RevByte(c);
    ByteZero(c);
  }

  lemma RevIsPack(w: nat)
    ensures Rev(w) == Pack(Byte(w, 3), Byte(w, 2), Byte(w, 1), Byte(w, 0))
  {
  }

  lemma ByteZero(c: nat)
    ensures Byte(c, 0) == LowByte(c)
  {
    Shr0(c);
  }

  lemma ByteUp(c: nat, i: nat)
    ensures Byte(Shr(c, 8), i) == Byte(c, i + 1)
  {
    ShrShr(c, 8, 8 * i);
  }

  lemma TopEmpty(c: word)
    ensures Byte(c, 4) == 0
  {
    hide Low, Shr;
    WordFits(c);
    LowZero();
  }

  lemma PackLeft(b0: byte, b1: byte, b2: byte, b3: byte)
    ensures ShiftLeftByte(Pack(b0, b1, b2, b3)) == Pack(0, b0, b1, b2)
  {
    TopDropped(b0 + 0x100 * b1 + 0x1_0000 * b2, b3);
  }

  lemma TopDropped(x: nat, k: nat)
    requires x < 0x100_0000
    ensures (x + 0x100_0000 * k) % 0x100_0000 == x
  {
  }

  lemma LowZero()
    ensures Low(0, 8) == 0
  {
  }

  lemma BigByteStepIsRegister(t: array2<nat>, c: word, b: byte)
    requires TablesReady(t)
    ensures BigByteStep(t, Rev(c), b) == Rev(Register(c, [b]))
  {
    hide ShiftN, Xor, Shr, Low, Register, Rev, Pack, ShiftLeftByte, Byte;
    RegisterByte(c, b);
    ShiftByTable(Xor(c, b), 8);
    ByteStep(c, b);
    ShiftLeftRev(c);
    XorLow(c, b, 8);
    ByteLow(b);
    var n := XorByte(LowByte(c), b);
    assert n == LowByte(Xor(c, b));
    assert t[4, n] == Entry(4, n);
    RevXor(ShiftN(n, 8), Shr(c, 8));
  }

  /** The macro DOBIG4 once the word has been loaded. */
  function BigStep(t: array2<nat>, c: nat, w: nat): nat
    requires t.Length0 == 8 && t.Length1 == 256
    reads t
  {
    var x := Xor(c, w);
    Xor(Xor(Xor(t[4, Byte(x, 0)], t[5, Byte(x, 1)]), t[6, Byte(x, 2)]), t[7, Byte(x, 3)])
  }

  lemma RevByte(w: word)
    ensures Byte(Rev(w), 0) == Byte(w, 3) && Byte(Rev(w), 1) == Byte(w, 2)
    ensures Byte(Rev(w), 2) == Byte(w, 1) && Byte(Rev(w), 3) == Byte(w, 0)
  {
    hide Byte, Pack;
    PackBytes(Byte(w, 3), Byte(w, 2), Byte(w, 1), Byte(w, 0));
  }

  lemma RevPack(b0: byte, b1: byte, b2: byte, b3: byte)
    ensures Rev(Pack(b0, b1, b2, b3)) == Pack(b3, b2, b1, b0)
  {
    hide Byte, Pack;
    PackBytes(b0, b1, b2, b3);
  }

  lemma XorReverse(a: nat, b: nat, c: nat, d: nat)
    ensures Xor(Xor(Xor(a, b), c), d) == Xor(Xor(Xor(d, c), b), a)
  {
    hide Xor;
    XorComm(Xor(Xor(a, b), c), d);
    XorComm(Xor(a, b), c);
    XorComm(a, b);
    XorAssoc(d, c, Xor(b, a));
    XorAssoc(Xor(d, c), b, a);
  }

  lemma BigStepIsRegister(t: array2<nat>, c: word, b0: byte, b1: byte, b2: byte, b3: byte)
    requires TablesReady(t)
    ensures BigStep(t, Rev(c), Pack(b3, b2, b1, b0)) == Rev(Register(c, [b0, b1, b2, b3]))
  {
    hide Register, ShiftN, Xor, Pack, Byte, Rev;
    var w := Pack(b0, b1, b2, b3);
    RegisterWord(c, b0, b1, b2, b3);
    WordXor(c, w);
    var x := Xor(c, w);
    RevXor(c, w);
    RevPack(b0, b1, b2, b3);
    RevByte(x);
    ShiftWord(x);
    var s0, s1, s2, s3 := ShiftN(Byte(x, 0), 32), ShiftN(Byte(x, 1), 24), ShiftN(Byte(x, 2), 16), ShiftN(Byte(x, 3), 8);
    RevXor(Xor(Xor(s0, s1), s2), s3);
    RevXor(Xor(s0, s1), s2);
    RevXor(s0, s1);
    XorReverse(Rev(s0), Rev(s1), Rev(s2), Rev(s3));
    assert t[4, Byte(x, 3)] == Entry(4, Byte(x, 3));
    assert t[5, Byte(x, 2)] == Entry(5, Byte(x, 2));
    assert t[6, Byte(x, 1)] == Entry(6, Byte(x, 1));
    assert t[7, Byte(x, 0)] == Entry(7, Byte(x, 0));
  }

  method BigByteSteps(t: array2<nat>, c: word, buf: seq<byte>, i: nat, ghost g: word) returns (r: word)
    requires TablesReady(t) && i < |buf| && c == Rev(g)
    ensures r == Rev(Register(g, buf[i..i + 1]))
  {
    hide Register, BigByteStep, Rev;
    assert buf[i..i + 1] == [buf[i]];
    BigByteStepIsRegister(t, g, buf[i]);
    r := BigByteStep(t, c, buf[i]);
  }

  /** Eight unrolled DOBIG4 (DOBIG32), or one of them. */
  method BigSteps(t: array2<nat>, c: word, buf: seq<byte>, i: nat, n: nat, ghost g: word) returns (r: word)
    requires TablesReady(t) && i + 4 * n <= |buf| && c == Rev(g)
    ensures r == Rev(Register(g, buf[i..i + 4 * n]))
  {
    hide Register, BigStep, Pack, Rev;
    r := c;
    RegisterNone(g);
    assert buf[i..i] == [];
    for j := 0 to n
      invariant r == Rev(Register(g, buf[i..i + 4 * j]))
    {
      var k := i + 4 * j;
      FourFrom(buf, k);
      assert buf[i..k + 4] == buf[i..k] + buf[k..k + 4];
      RegisterBound(g, buf[i..k]);
      RegisterAppend(g, buf[i..k], buf[k..k + 4]);
      BigStepIsRegister(t, Register(g, buf[i..k]), buf[k], buf[k + 1], buf[k + 2], buf[k + 3]);
      r := BigStep(t, r, Pack(buf[k + 3], buf[k + 2], buf[k + 1], buf[k]));
    }
  }

  lemma RevNot(c: word)
    ensures ONES - Rev(c) == Rev(ONES - c)
  {
    hide Xor, Rev;
    assert Xor(c, ONES) == ONES - c by { NotIs(c); }
    assert Xor(Rev(c), ONES) == ONES - Rev(c) by { NotIs(Rev(c)); }
    RevXor(c, ONES);
    RevOnes();
  }

  lemma NotIs(c: word)
    ensures Xor(c, ONES) == ONES - c
  {
    Pow2Values();
    XorOnes(c, 32);
  }

  lemma RevOnes()
    ensures Rev(ONES) == ONES
  {
    RevPack(255, 255, 255, 255);
  }

  method Crc32Big(t: array2<nat>, crc: word, buf: seq<byte>, align: nat) returns (r: word)
    requires TablesReady(t)
    ensures r == Checksum(crc, buf)
  {
    hide Register, Rev;
    ghost var g := ONES - crc;
    RevNot(crc);
    var c: word, i := Not(Rev(crc)), 0;
    RegisterNone(g);
    while i < |buf| && (align + i) % 4 != 0
      invariant 0 <= i <= |buf| && c == Rev(Register(g, buf[..i]))
    {
      RegisterPrefix(g, buf, i, 1);
      RegisterBound(g, buf[..i]);
      c := BigByteSteps(t, c, buf, i, Register(g, buf[..i]));
      i := i + 1;
    }
    while |buf| - i >= 32
      invariant 0 <= i <= |buf| && c == Rev(Register(g, buf[..i]))
    {
      RegisterPrefix(g, buf, i, 32);
      RegisterBound(g, buf[..i]);
      c := BigSteps(t, c, buf, i, 8, Register(g, buf[..i]));
      i := i + 32;
    }
    while |buf| - i >= 4
      invariant 0 <= i <= |buf| && c == Rev(Register(g, buf[..i]))
    {
      RegisterPrefix(g, buf, i, 4);
      RegisterBound(g, buf[..i]);
      c := BigSteps(t, c, buf, i, 1, Register(g, buf[..i]));
      i := i + 4;
    }
    while i < |buf|
      invariant 0 <= i <= |buf| && c == Rev(Register(g, buf[..i]))
    {
      RegisterPrefix(g, buf, i, 1);
      RegisterBound(g, buf[..i]);
      c := BigByteSteps(t, c, buf, i, Register(g, buf[..i]));
      i := i + 1;
    }
    assert buf[..i] == buf;
    RegisterBound(g, buf);
    RevNot(Register(g, buf));
    RevRev(ONES - Register(g, buf));
    c := Not(c);
    r := Rev(c);
  }

  // ---------------------------------------------------------------- combining two checksums

  const GF2_DIM: nat := 32

  /** The product of a GF(2) matrix, one column per bit, and a vector: the columns selected by v from column i on. */
  function Times(m: seq<nat>, v: nat, i: nat): nat
    requires i <= |m| && v < Pow2(|m| - i)
    decreases v
  {
    if v == 0 then 0
    else
      SomeBits(v, |m| - i);
      Xor(if v % 2 == 1 then m[i] else 0, Times(m, v / 2, i + 1))
  }

  lemma SomeBits(v: nat, n: nat)
    requires 0 < v < Pow2(n)
    ensures n > 0
  {
  }

  /** The matrix that stands for n clocks of the register. */
  ghost predicate Clocks(m: seq<nat>, n: nat) {
    |m| == GF2_DIM && forall i | 0 <= i < GF2_DIM :: m[i] == ShiftN(Shl(1, i), n)
  }

  lemma {:induction false} TimesIsShift(m: seq<nat>, n: nat, v: nat, i: nat)
    requires Clocks(m, n) && i <= GF2_DIM && v < Pow2(GF2_DIM - i)
    ensures Times(m, v, i) == ShiftN(Shl(v, i), n)
    decreases v
  {
    if v == 0 {
      ShlZero(i);
      ShiftNZero(n);
    } else {
      hide ShiftN, Xor, Shl;
      TimesIsShift(m, n, v / 2, i + 1);
      SplitBit(v, i);
      ShiftNXor(if v % 2 == 1 then Shl(1, i) else 0, Shl(v / 2, i + 1), n);
      ShiftNZero(n);
    }
  }

  lemma {:induction false} ShiftNZero(n: nat)
    ensures ShiftN(0, n) == 0
  {
    if n > 0 {
      ShiftNZero(n - 1);
    }
  }

  /** Takes the lowest bit off a shifted value. */
  lemma {:induction false} SplitBit(v: nat, i: nat)
    ensures Shl(v, i) == Xor(if v % 2 == 1 then Shl(1, i) else 0, Shl(v / 2, i + 1))
  {
    if i > 0 {
      SplitBit(v, i - 1);
      XorHalf(if v % 2 == 1 then Shl(1, i) else 0, Shl(v / 2, i + 1));
    } else {
      assert Shl(v / 2, 1) == 2 * Shl(v / 2, 0);
      XorHalf(v % 2, 2 * (v / 2));
      XorZero(v / 2);
    }
  }

  method Gf2MatrixTimes(mat: array<nat>, vec: nat) returns (sum: nat)
    requires mat.Length == GF2_DIM && vec < Pow2(GF2_DIM)
    ensures sum == Times(mat[..], vec, 0)
  {
    hide Xor;
    sum := 0;
    var v: nat, i: nat := vec, 0;
    XorZero(Times(mat[..], vec, 0));
    while v != 0
      invariant i <= GF2_DIM && v < Pow2(GF2_DIM - i)
      invariant Xor(sum, Times(mat[..], v, i)) == Times(mat[..], vec, 0)
      decreases v
    {
      SomeBits(v, GF2_DIM - i);
      var column := if v % 2 == 1 then mat[i] else 0;
      XorAssoc(sum, column, Times(mat[..], v / 2, i + 1));
      XorZero(sum);
      if v % 2 == 1 {
        sum := Xor(sum, mat[i]);
      }
      v, i := v / 2, i + 1;
    }
    XorZero(sum);
  }

  method Gf2MatrixSquare(square: array<nat>, mat: array<nat>, ghost n: nat)
    requires square.Length == GF2_DIM && mat.Length == GF2_DIM && square != mat
    requires Clocks(mat[..], n)
    modifies square
    ensures Clocks(square[..], n + n)
  {
    hide Xor, Times, ShiftN, Shl, Pow2;
    for i := 0 to GF2_DIM
      invariant mat[..] == old(mat[..])
      invariant forall j | 0 <= j < i :: square[j] == ShiftN(Shl(1, j), n + n)
    {
      ColumnFits(i, n);
      square[i] := Gf2MatrixTimes(mat, mat[i]);
      TimesIsShift(mat[..], n, mat[i], 0);
      ShlNone(mat[i]);
      ShiftNAdd(Shl(1, i), n, n);
    }
  }

  lemma ShlNone(x: nat)
    ensures Shl(x, 0) == x
  {
  }

  lemma ColumnFits(i: nat, n: nat)
    requires i < GF2_DIM
    ensures ShiftN(Shl(1, i), n) < Pow2(GF2_DIM)
  {
    Pow2Values();
    hide Shl, ShiftN, Pow2;
    ShlIsMul(1, i);
    Pow2Mono(i, 32);
    ShiftNBound(Shl(1, i), n);
  }

  /** The operator for one zero bit. */
  method ZeroOperator(odd: array<nat>)
    requires odd.Length == GF2_DIM
    modifies odd
    ensures Clocks(odd[..], 1)
  {
    hide Xor, ShiftN, Shl, Shift;
    odd[0] := 0xedb8_8320;
    FirstColumn();
    ShlOfOne(0);
    var row := 1;
    for n := 1 to GF2_DIM
      invariant row == Shl(1, n - 1)
      invariant forall j | 0 <= j < n :: odd[j] == ShiftN(Shl(1, j), 1)
    {
      odd[n] := row;
      OtherColumn(n);
      ShlOfOne(n);
      row := 2 * row;
    }
  }

  lemma ShlOfOne(n: nat)
    ensures Shl(1, 0) == 1 && (n > 0 ==> Shl(1, n) == 2 * Shl(1, n - 1))
  {
  }

  lemma FirstColumn()
    ensures ShiftN(Shl(1, 0), 1) == 0xedb8_8320
  {
    XorZero(POLY);
    assert Shift(1) == POLY;
    assert ShiftN(Shift(1), 0) == POLY;
  }

  lemma OtherColumn(n: nat)
    requires n > 0
    ensures ShiftN(Shl(1, n), 1) == Shl(1, n - 1)
  {
    var s := Shl(1, n - 1);
    assert Shl(1, n) == 2 * s;
    assert Shift(2 * s) == s;
    assert ShiftN(Shift(2 * s), 0) == s;
  }

  lemma WordIsVector(c: word)
    ensures c < Pow2(GF2_DIM)
  {
    Pow2Values();
  }

  /** Applies the operator for a run of zero bytes when the lowest bit of len2 asks for it. */
  method ApplyZeros(op: array<nat>, crc1: word, len2: nat, ghost n: nat) returns (r: word)
    requires op.Length == GF2_DIM && Clocks(op[..], n)
    ensures r == ShiftN(crc1, if len2 % 2 == 1 then n else 0)
  {
    hide ShiftN, Times, Pow2, Shl, Clocks;
    ShiftNNone(crc1);
    r := crc1;
    if len2 % 2 == 1 {
      WordIsVector(crc1);
      TimesIsShift(op[..], n, crc1, 0);
      ShlNone(crc1);
      ShiftNBound(crc1, n);
      r := Gf2MatrixTimes(op, crc1);
    }
  }

  /** len2 is a signed file offset in the source; a negative one would shift right forever. */
  method Crc32Combine(crc1: word, crc2: word, len2: nat) returns (r: word)
    ensures r == if len2 == 0 then crc1 else Xor(ShiftN(crc1, 8 * len2), crc2)
  {
    hide ShiftN, Clocks, Xor;
    if len2 == 0 {
      return crc1;
    }
    var even, odd := new nat[GF2_DIM], new nat[GF2_DIM];
    ZeroOperator(odd);
    Gf2MatrixSquare(even, odd, 1);
    Gf2MatrixSquare(odd, even, 2);
    var crc, len := crc1, len2;
    ghost var weight, done := 1, 0;
    ShiftNNone(crc1);
    while true
      invariant fresh(even) && fresh(odd)
      invariant crc == ShiftN(crc1, 8 * done) && crc <= ONES
      invariant weight * len + done == len2 && len > 0
      invariant Clocks(odd[..], 4 * weight)
      decreases len
    {
      Gf2MatrixSquare(even, odd, 4 * weight);
      NextWeight(crc1, done, weight, len);
      crc := ApplyZeros(even, crc, len, 8 * weight);
      done := done + if len % 2 == 1 then weight else 0;
      len := len / 2;
      if len == 0 {
        break;
      }
      Gf2MatrixSquare(odd, even, 8 * weight);
      NextWeight(crc1, done, 2 * weight, len);
      crc := ApplyZeros(odd, crc, len, 16 * weight);
      done := done + if len % 2 == 1 then 2 * weight else 0;
      len := len / 2;
      if len == 0 {
        break;
      }
      weight := 4 * weight;
    }
    WordXor(crc, crc2);
    r := Xor(crc, crc2);
  }

  lemma NextWeight(crc1: nat, done: nat, weight: nat, len: nat)
    ensures weight * len + done == 2 * weight * (len / 2) + (done + if len % 2 == 1 then weight else 0)
    ensures ShiftN(ShiftN(crc1, 8 * done), if len % 2 == 1 then 8 * weight else 0)
         == ShiftN(crc1, 8 * (done + if len % 2 == 1 then weight else 0))
  {
    hide ShiftN;
    HalfTimes(weight, len, len / 2);
    ShiftNAdd(crc1, 8 * done, if len % 2 == 1 then 8 * weight else 0);
  }

  lemma HalfTimes(weight: nat, len: nat, h: nat)
    requires h == len / 2
    ensures weight * len == 2 * weight * h + if len % 2 == 1 then weight else 0
  {
    if len % 2 == 1 {
      assert weight * (2 * h + 1) == 2 * weight * h + weight;
    } else {
      assert weight * (2 * h) == 2 * weight * h;
    }
  }

  lemma {:induction false} RegisterXor(x: nat, y: nat, data: seq<byte>)
    ensures Register(Xor(x, y), data) == Xor(Register(x, data), ShiftN(y, 8 * |data|))
    decreases |data|
  {
    hide ShiftN, Xor, FeedBits, Pow2;
    if data == [] {
      ShiftNNone(y);
    } else {
      ByteIsBits(data[0]);
      FeedBitsIsShiftN(Xor(x, y), data[0], 8);
      FeedBitsIsShiftN(x, data[0], 8);
      XorSwap(x, y, data[0]);
      ShiftNXor(Xor(x, data[0]), y, 8);
      RegisterXor(FeedBits(x, data[0], 8), ShiftN(y, 8), data[1..]);
      ShiftNAdd(y, 8, 8 * |data[1..]|);
    }
  }

  lemma ByteIsBits(b: byte)
    ensures b < Pow2(8)
  {
  }

  /** What crc32_combine computes from two checksums is the checksum of the data of both. */
  lemma CombineIsConcatenation(crc: word, a: seq<byte>, b: seq<byte>)
    ensures var crc1, crc2 := Checksum(crc, a), Checksum(0, b);
      (if |b| == 0 then crc1 else Xor(ShiftN(crc1, 8 * |b|), crc2)) == Checksum(crc, a + b)
  {
    hide ShiftN, Xor, Register;
    var g, crc1 := ONES - crc, Checksum(crc, a);
    RegisterBound(g, a);
    RegisterAppend(g, a, b);
    NotIs(crc1);
    XorComm(crc1, ONES);
    RegisterXor(ONES, crc1, b);
    var s, t := Register(ONES, b), ShiftN(crc1, 8 * |b|);
    RegisterBound(ONES, b);
    RegisterBound(g, a + b);
    assert ONES - Register(g, a + b) == Xor(Xor(s, t), ONES) by { NotIs(Xor(s, t)); }
    NotIs(s);
    XorSwap(s, t, ONES);
    XorComm(Xor(s, ONES), t);
    if |b| == 0 {
      assert a + b == a;
    }
  }

  /** The contract of crc32_combine as its callers use it. */
  method CombineChecksums(crc: word, ghost a: seq<byte>, ghost b: seq<byte>, crc1: word, crc2: word, len2: nat) returns (r: word)
    requires crc1 == Checksum(crc, a) && crc2 == Checksum(0, b) && len2 == |b|
    ensures r == Checksum(crc, a + b)
  {
    CombineIsConcatenation(crc, a, b);
    r := Crc32Combine(crc1, crc2, len2);
  }

  // ---------------------------------------------------------------- a known checksum

  function DigitXor(a: nat, b: nat): nat {
    (if a % 2 == b % 2 then 0 else 1) + (if a / 2 % 2 == b / 2 % 2 then 0 else 2)
    + (if a / 4 % 2 == b / 4 % 2 then 0 else 4) + (if a / 8 % 2 == b / 8 % 2 then 0 else 8)
  }

  lemma MoreBit(x: nat, y: nat, a: nat, b: nat)
    requires a < 2 && b < 2
    ensures Xor(2 * x + a, 2 * y + b) == 2 * Xor(x, y) + if a == b then 0 else 1
  {
  }

  lemma FourBits(x: nat, y: nat, a3: nat, a2: nat, a1: nat, a0: nat, b3: nat, b2: nat, b1: nat, b0: nat)
    requires a3 < 2 && a2 < 2 && a1 < 2 && a0 < 2 && b3 < 2 && b2 < 2 && b1 < 2 && b0 < 2
    ensures Xor(16 * x + 8 * a3 + 4 * a2 + 2 * a1 + a0, 16 * y + 8 * b3 + 4 * b2 + 2 * b1 + b0) ==
      16 * Xor(x, y) + (if a3 == b3 then 0 else 8) + (if a2 == b2 then 0 else 4) + (if a1 == b1 then 0 else 2) + (if a0 == b0 then 0 else 1)
  {
    hide Xor;
    MoreBit(x, y, a3, b3);
    MoreBit(2 * x + a3, 2 * y + b3, a2, b2);
    MoreBit(4 * x + 2 * a3 + a2, 4 * y + 2 * b3 + b2, a1, b1);
    MoreBit(8 * x + 4 * a3 + 2 * a2 + a1, 8 * y + 4 * b3 + 2 * b2 + b1, a0, b0);
  }

  lemma DigitBits(a: nat)
    requires a < 16
    ensures a == 8 * (a / 8 % 2) + 4 * (a / 4 % 2) + 2 * (a / 2 % 2) + a % 2
  {
  }

  /** Another hexadecimal digit. */
  lemma MoreDigits(x: nat, y: nat, a: nat, b: nat)
    requires a < 16 && b < 16
    ensures Xor(16 * x + a, 16 * y + b) == 16 * Xor(x, y) + DigitXor(a, b)
  {
    hide Xor;
    DigitBits(a);
    DigitBits(b);
    FourBits(x, y, a / 8 % 2, a / 4 % 2, a / 2 % 2, a % 2, b / 8 % 2, b / 4 % 2, b / 2 % 2, b % 2);
  }

  lemma NextDigit(x: nat, y: nat, z: nat, a: nat, b: nat, c: nat)
    requires Xor(x, y) == z && a < 16 && b < 16 && c == DigitXor(a, b)
    ensures Xor(16 * x + a, 16 * y + b) == 16 * z + c
  {
    hide Xor, DigitXor;
    MoreDigits(x, y, a, b);
  }

  lemma Clock0()
    ensures Xor(0xedb88320, 0x3fffffff) == 0xd2477cdf
  {
    hide Xor;
    XorZero(0);
    NextDigit(0x0, 0x0, 0x0, 0xe, 0x3, 0xd);
    NextDigit(0xe, 0x3, 0xd, 0xd, 0xf, 0x2);
    NextDigit(0xed, 0x3f, 0xd2, 0xb, 0xf, 0x4);
    NextDigit(0xedb, 0x3ff, 0xd24, 0x8, 0xf, 0x7);
    NextDigit(0xedb8, 0x3fff, 0xd247, 0x8, 0xf, 0x7);
    NextDigit(0xedb88, 0x3ffff, 0xd2477, 0x3, 0xf, 0xc);
    NextDigit(0xedb883, 0x3fffff, 0xd2477c, 0x2, 0xf, 0xd);
    NextDigit(0xedb8832, 0x3ffffff, 0xd2477cd, 0x0, 0xf, 0xf);
  }

  lemma Clock1()
    ensures Xor(0xedb88320, 0x6923be6f) == 0x849b3d4f
  {
    hide Xor;
    XorZero(0);
    NextDigit(0x0, 0x0, 0x0, 0xe, 0x6, 0x8);
    NextDigit(0xe, 0x6, 0x8, 0xd, 0x9, 0x4);
    NextDigit(0xed, 0x69, 0x84, 0xb, 0x2, 0x9);
    NextDigit(0xedb, 0x692, 0x849, 0x8, 0x3, 0xb);
    NextDigit(0xedb8, 0x6923, 0x849b, 0x8, 0xb, 0x3);
    NextDigit(0xedb88, 0x6923b, 0x849b3, 0x3, 0xe, 0xd);
    NextDigit(0xedb883, 0x6923be, 0x849b3d, 0x2, 0x6, 0x4);
    NextDigit(0xedb8832, 0x6923be6, 0x849b3d4, 0x0, 0xf, 0xf);
  }

  lemma Clock2()
    ensures Xor(0xedb88320, 0x424d9ea7) == 0xaff51d87
  {
    hide Xor;
    XorZero(0);
    NextDigit(0x0, 0x0, 0x0, 0xe, 0x4, 0xa);
    NextDigit(0xe, 0x4, 0xa, 0xd, 0x2, 0xf);
    NextDigit(0xed, 0x42, 0xaf, 0xb, 0x4, 0xf);
    NextDigit(0xedb, 0x424, 0xaff, 0x8, 0xd, 0x5);
    NextDigit(0xedb8, 0x424d, 0xaff5, 0x8, 0x9, 0x1);
    NextDigit(0xedb88, 0x424d9, 0xaff51, 0x3, 0xe, 0xd);
    NextDigit(0xedb883, 0x424d9e, 0xaff51d, 0x2, 0xa, 0x8);
    NextDigit(0xedb8832, 0x424d9ea, 0xaff51d8, 0x0, 0x7, 0x7);
  }

  lemma Clock3()
    ensures Xor(0xedb88320, 0x57fa8ec3) == 0xba420de3
  {
    hide Xor;
    XorZero(0);
    NextDigit(0x0, 0x0, 0x0, 0xe, 0x5, 0xb);
    NextDigit(0xe, 0x5, 0xb, 0xd, 0x7, 0xa);
    NextDigit(0xed, 0x57, 0xba, 0xb, 0xf, 0x4);
    NextDigit(0xedb, 0x57f, 0xba4, 0x8, 0xa, 0x2);
    NextDigit(0xedb8, 0x57fa, 0xba42, 0x8, 0x8, 0x0);
    NextDigit(0xedb88, 0x57fa8, 0xba420, 0x3, 0xe, 0xd);
    NextDigit(0xedb883, 0x57fa8e, 0xba420d, 0x2, 0xc, 0xe);
    NextDigit(0xedb8832, 0x57fa8ec, 0xba420de, 0x0, 0x3, 0x3);
  }

  /** The checksum of the one byte "a". */
  lemma ChecksumOfA()
    ensures Checksum(0, [0x61]) == 0xe8b7be43
  {
    hide Xor;
    Clock0();
    Clock1();
    Clock2();
    Clock3();
    XorZero(0x7fffffff);
    XorZero(0xd2477cdf);
    XorZero(0x849b3d4f);
    XorZero(0xaff51d87);
    XorZero(0x2e908378);
    XorZero(0);
    MoreBit(0x7fffffff, 0, 1, 1);
    MoreBit(0x5d2106f1, 0, 1, 1);
    MoreBit(0x2e908378, 0, 1, 1);
    XorZero(0x5d2106f1);
    assert Shift(Xor(0xffffffff, 1)) == 0x7fffffff && Shift(0x7fffffff) == 0xd2477cdf && Shift(0xd2477cdf) == 0x849b3d4f;
    assert Shift(0x849b3d4f) == 0xaff51d87 && Shift(0xaff51d87) == 0xba420de3 && Shift(Xor(0xba420de3, 1)) == 0x5d2106f1;
    assert Shift(Xor(0x5d2106f1, 1)) == 0x2e908378 && Shift(0x2e908378) == 0x174841bc;
    FedOfA();
    assert [0x61][1..] == [];
  }

  lemma FedOfA()
    requires Shift(Xor(0xffffffff, 1)) == 0x7fffffff && Shift(Xor(0x7fffffff, 0)) == 0xd2477cdf
      && Shift(Xor(0xd2477cdf, 0)) == 0x849b3d4f && Shift(Xor(0x849b3d4f, 0)) == 0xaff51d87
      && Shift(Xor(0xaff51d87, 0)) == 0xba420de3 && Shift(Xor(0xba420de3, 1)) == 0x5d2106f1
      && Shift(Xor(0x5d2106f1, 1)) == 0x2e908378 && Shift(Xor(0x2e908378, 0)) == 0x174841bc
    ensures FeedBits(0xffffffff, 0x61, 8) == 0x174841bc
  {
    hide Xor, Shift;
    assert FeedBits(0xffffffff, 97, 8) == FeedBits(0x7fffffff, 48, 7);
    assert FeedBits(0x7fffffff, 48, 7) == FeedBits(0xd2477cdf, 24, 6);
    assert FeedBits(0xd2477cdf, 24, 6) == FeedBits(0x849b3d4f, 12, 5);
    assert FeedBits(0x849b3d4f, 12, 5) == FeedBits(0xaff51d87, 6, 4);
    assert FeedBits(0xaff51d87, 6, 4) == FeedBits(0xba420de3, 3, 3);
    assert FeedBits(0xba420de3, 3, 3) == FeedBits(0x5d2106f1, 1, 2);
    assert FeedBits(0x5d2106f1, 1, 2) == FeedBits(0x2e908378, 0, 1);
    assert FeedBits(0x2e908378, 0, 1) == FeedBits(0x174841bc, 0, 0);
  }
}
