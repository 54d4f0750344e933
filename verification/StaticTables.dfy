/** tr_static_init (src/ext/zlib/trees.c): the tables from lengths and distances to codes, and the fixed codes. */
module StaticTables {
  import opened Bits
  import opened LengthLimit
  import opened CodeLengths
  import opened Canonical
  import opened DecodeTables
  import opened InfTrees
  import opened Reading
  import opened Inflation
  import opened Blocks
  import opened FixedCodes
  import GenCodes

  /** The constant tables. */
  datatype Tables = Tables(lengthCode: seq<nat>, distCode: seq<nat>, baseLength: seq<nat>, baseDist: seq<nat>,
                           lcode: seq<nat>, llen: seq<nat>, dcode: seq<nat>, dlen: seq<nat>) {

    ghost predicate Shaped() {
      && |lengthCode| == 256 && |distCode| == 512 && |baseLength| == 29 && |baseDist| == 30
      && |lcode| == 288 && |llen| == 288 && |dcode| == 30 && |dlen| == 30
    }

    /** The tables agree with the format. */
    ghost predicate Valid() {
      && Shaped()
      && (forall l | 0 <= l < 256 :: lengthCode[l] == LengthCode(l))
      && (forall d | 0 <= d < 32768 :: DCode(distCode, d) == DistanceCode(d))
      && (forall c | 0 <= c < 28 :: baseLength[c] + 3 == LBase(257 + c))
      && (forall c | 0 <= c < 30 :: baseDist[c] + 1 == DBase(c))
      && llen == FixedLengths() && (forall s | 0 <= s < 288 :: lcode[s] == FixedCode(FixedLengths(), s))
      && (forall s | 0 <= s < 30 :: dlen[s] == 5 && dcode[s] == FixedCode(FixedDistances(), s))
    }
  }

  /** The fixed codes are the ones that section 3.2.6 of RFC 1951 lists, first bit lowest. */
  method TrStaticInit() returns (tables: Tables)
    ensures tables.Valid()
    ensures forall s | 0 <= s < 144 :: tables.llen[s] == 8 && tables.lcode[s] == Reversed(48 + s, 8)
    ensures forall s | 144 <= s < 256 :: tables.llen[s] == 9 && tables.lcode[s] == Reversed(400 + (s - 144), 9)
    ensures forall s | 256 <= s < 280 :: tables.llen[s] == 7 && tables.lcode[s] == Reversed(s - 256, 7)
    ensures forall s | 280 <= s < 288 :: tables.llen[s] == 8 && tables.lcode[s] == Reversed(192 + (s - 280), 8)
    ensures forall s | 0 <= s < 30 :: tables.dlen[s] == 5 && tables.dcode[s] == Reversed(s, 5)
  {
    hide LengthCode, DistanceCode, LBase, DBase, FixedLengths, FixedDistances, FixedCode, DCode, Reversed;
    var lengthCode, baseLength := InitLengths();
    var distCode, baseDist := InitDistances();
    var lcode, llen := InitLiteralCode();
    var dcode, dlen := InitDistanceCode();
    tables := Tables(lengthCode[..], distCode[..], baseLength[..], baseDist[..], lcode[..], llen[..], dcode[..], dlen[..]);
    forall s: nat | s < 288
      ensures s < 144 ==> tables.llen[s] == 8 && tables.lcode[s] == Reversed(48 + s, 8)
      ensures 144 <= s < 256 ==> tables.llen[s] == 9 && tables.lcode[s] == Reversed(400 + (s - 144), 9)
      ensures 256 <= s < 280 ==> tables.llen[s] == 7 && tables.lcode[s] == Reversed(s - 256, 7)
      ensures 280 <= s ==> tables.llen[s] == 8 && tables.lcode[s] == Reversed(192 + (s - 280), 8)
    {
      SentCodeIs(s);
    }
    forall s: nat | s < 30 ensures tables.dcode[s] == Reversed(s, 5) {
      DistanceFixed(s);
    }
  }

  lemma SentCodeIs(s: nat)
    requires s < 288
    ensures var l, c := FixedLengths()[s], FixedCode(FixedLengths(), s);
      && (s < 144 ==> l == 8 && c == Reversed(48 + s, 8)) && (144 <= s < 256 ==> l == 9 && c == Reversed(400 + (s - 144), 9))
      && (256 <= s < 280 ==> l == 7 && c == Reversed(s - 256, 7)) && (280 <= s ==> l == 8 && c == Reversed(192 + (s - 280), 8))
  {
    hide Reversed, Code, Counts;
    FixedCodeIs(s);
  }

  /** The macro d_code of deflate.h. */
  function DCode(distCode: seq<nat>, d: nat): nat
    requires |distCode| == 512 && d < 32768
  {
    if d < 256 then distCode[d] else distCode[256 + d / 128]
  }

  /** A fixed code as it is sent, first bit lowest. */
  ghost function FixedCode(lens: seq<nat>, s: nat): nat
    requires s < |lens| && lens[s] <= 15
  {
    Reversed(Code(lens, Counts(lens), s), lens[s])
  }

  // ---------------------------------------------------------------- lengths

  ghost predicate InLength(c: nat, l: nat) {
    c < 28 && LBase(257 + c) <= l + 3 < LBase(257 + c) + Pow2(LengthExtra(c))
  }

  lemma {:induction false} LengthBasesRise(a: nat, b: nat)
    requires a < b < 28
    ensures LBase(257 + a) + Pow2(LengthExtra(a)) <= LBase(257 + b)
    decreases b
  {
    hide LBase, LExt, LengthExtra, Pow2;
    LengthBases(b - 1);
    if a < b - 1 {
      LengthBasesRise(a, b - 1);
    }
  }

  lemma OneLengthCode(c: nat, l: nat)
    requires InLength(c, l) && l < 255
    ensures LengthCode(l) == c
  {
    hide LBase, LExt, LengthExtra, Pow2;
    LengthBases(27);
    SearchLengthFinds(l, 27);
    var r := SearchLength(l, 27);
    if r < c {
      LengthBasesRise(r, c);
    } else if c < r {
      LengthBasesRise(c, r);
    }
  }

  method InitLengths() returns (lengthCode: array<nat>, baseLength: array<nat>)
    ensures lengthCode.Length == 256 && baseLength.Length == 29 && fresh(lengthCode) && fresh(baseLength)
    ensures forall l | 0 <= l < 256 :: lengthCode[l] == LengthCode(l)
    ensures forall c | 0 <= c < 28 :: baseLength[c] + 3 == LBase(257 + c)
  {
    hide LBase, LExt, LengthExtra, Pow2, SearchLength;
    lengthCode, baseLength := new nat[256], new nat[29];
    var length := 0;
    LengthBases(0);
    for code := 0 to 28
      invariant length <= 256 && length + 3 == if code < 28 then LBase(257 + code) else 259
      invariant forall l | 0 <= l < length :: InLength(lengthCode[l], l)
      invariant forall c | 0 <= c < code :: baseLength[c] + 3 == LBase(257 + c)
    {
      LengthBases(code);
      LengthEnd(code);
      baseLength[code] := length;
      for n := 0 to Pow2(LengthExtra(code))
        invariant length <= 256 && length + 3 == LBase(257 + code) + n
        invariant forall l | 0 <= l < length :: InLength(lengthCode[l], l)
        invariant forall c | 0 <= c <= code :: baseLength[c] + 3 == LBase(257 + c)
      {
        lengthCode[length] := code;
        length := length + 1;
      }
    }
    lengthCode[length - 1] := 28;
    forall l | 0 <= l < 256 ensures lengthCode[l] == LengthCode(l) {
      if l < 255 {
        OneLengthCode(lengthCode[l], l);
      }
    }
  }

  lemma {:induction false} LengthEnd(c: nat)
    requires c < 28
    ensures LBase(257 + c) + Pow2(LengthExtra(c)) <= 259
  {
    hide LBase, LExt, LengthExtra, Pow2;
    LengthBases(c);
    LengthBases(27);
    if c < 27 {
      LengthBasesRise(c, 27);
    }
  }

  // ---------------------------------------------------------------- distances

  ghost predicate InDistance(c: nat, d: nat) {
    c < 30 && DBase(c) <= d + 1 < DBase(c) + Pow2(DistanceExtra(c))
  }

  lemma {:induction false} DistanceBasesRise(a: nat, b: nat)
    requires a < b < 30
    ensures DBase(a) + Pow2(DistanceExtra(a)) <= DBase(b)
    decreases b
  {
    hide DBase, DExt, DistanceExtra, Pow2;
    DistanceBases(b - 1);
    if a < b - 1 {
      DistanceBasesRise(a, b - 1);
    }
  }

  lemma DistanceEnd(c: nat)
    requires c < 30
    ensures DBase(c) + Pow2(DistanceExtra(c)) <= 32769
    ensures c < 16 ==> DBase(c) + Pow2(DistanceExtra(c)) <= 257
    ensures DBase(16) == 257 && DBase(0) == 1
  {
    hide DBase, DExt, DistanceExtra, Pow2;
    DistanceBases(c);
    DistanceBases(29);
    DistanceBases(15);
    SixteenthBase();
    if c < 29 {
      DistanceBasesRise(c, 29);
    }
    if c < 16 {
      DistanceBasesRise(c, 16);
    }
  }

  lemma SixteenthBase()
    ensures DBase(16) == 257
  {
  }

  lemma OneDistanceCode(c: nat, d: nat)
    requires InDistance(c, d) && d < 32768
    ensures DistanceCode(d) == c
  {
    hide DBase, DExt, DistanceExtra, Pow2;
    DistanceBases(29);
    SearchDistanceFinds(d, 29);
    var r := SearchDistance(d, 29);
    if r < c {
      DistanceBasesRise(r, c);
    } else if c < r {
      DistanceBasesRise(c, r);
    }
  }

  /** Codes from 16 on stand for whole multiples of 128 distances. */
  lemma LargeDistances(c: nat)
    requires 16 <= c < 30
    ensures DistanceExtra(c) >= 7 && Pow2(DistanceExtra(c)) == 128 * Pow2(DistanceExtra(c) - 7)
  {
    Pow2Add(7, DistanceExtra(c) - 7);
    Pow2Values();
  }

  /** All distances of the q-th 128 have code c. */
  ghost predicate InDistances(c: nat, q: nat) {
    forall d: nat | d / 128 == q :: InDistance(c, d)
  }

  method InitDistances() returns (distCode: array<nat>, baseDist: array<nat>)
    ensures distCode.Length == 512 && baseDist.Length == 30 && fresh(distCode) && fresh(baseDist)
    ensures forall d | 0 <= d < 32768 :: DCode(distCode[..], d) == DistanceCode(d)
    ensures forall c | 0 <= c < 30 :: baseDist[c] + 1 == DBase(c)
  {
    hide DBase, DExt, DistanceExtra, Pow2, SearchDistance, InDistances;
    distCode, baseDist := new nat[512], new nat[30];
    var dist := 0;
    DistanceEnd(0);
    for code := 0 to 16
      invariant dist <= 256 && dist + 1 == DBase(code)
      invariant forall d | 0 <= d < dist :: InDistance(distCode[d], d)
      invariant forall c | 0 <= c < code :: baseDist[c] + 1 == DBase(c)
    {
      DistanceBases(code);
      DistanceEnd(code);
      baseDist[code] := dist;
      for n := 0 to Pow2(DistanceExtra(code))
        invariant dist <= 256 && dist + 1 == DBase(code) + n
        invariant forall d | 0 <= d < dist :: InDistance(distCode[d], d)
        invariant forall c | 0 <= c <= code :: baseDist[c] + 1 == DBase(c)
      {
        distCode[dist] := code;
        dist := dist + 1;
      }
    }
    dist := dist / 128;
    for code := 16 to 30
      invariant 2 <= dist <= 256 && 128 * dist + 1 == if code < 30 then DBase(code) else 32769
      invariant forall d | 0 <= d < 256 :: InDistance(distCode[d], d)
      invariant forall i | 258 <= i < 256 + dist :: InDistances(distCode[i], i - 256)
      invariant forall c | 0 <= c < code :: baseDist[c] + 1 == DBase(c)
    {
      DistanceBases(code);
      DistanceEnd(code);
      LargeDistances(code);
      baseDist[code] := 128 * dist;
      for n := 0 to Pow2(DistanceExtra(code) - 7)
        invariant 2 <= dist <= 256 && 128 * dist + 1 == DBase(code) + 128 * n
        invariant forall d | 0 <= d < 256 :: InDistance(distCode[d], d)
        invariant forall i | 258 <= i < 256 + dist :: InDistances(distCode[i], i - 256)
        invariant forall c | 0 <= c <= code :: baseDist[c] + 1 == DBase(c)
      {
        WholeBlock(code, dist);
        distCode[256 + dist] := code;
        dist := dist + 1;
      }
    }
    forall d | 0 <= d < 32768 ensures DCode(distCode[..], d) == DistanceCode(d) {
      if d >= 256 {
        assert InDistances(distCode[256 + d / 128], d / 128);
        InBlock(distCode[256 + d / 128], d);
      }
      OneDistanceCode(DCode(distCode[..], d), d);
    }
  }

  lemma WholeBlock(c: nat, q: nat)
    requires c < 30 && DBase(c) <= 128 * q + 1 && 128 * q + 129 <= DBase(c) + Pow2(DistanceExtra(c))
    ensures InDistances(c, q)
  {
    hide DBase, DistanceExtra, Pow2;
  }

  lemma InBlock(c: nat, d: nat)
    requires InDistances(c, d / 128)
    ensures InDistance(c, d)
  {
    hide InDistance;
  }

  // ---------------------------------------------------------------- the fixed codes

  method InitLiteralCode() returns (lcode: array<nat>, llen: array<nat>)
    ensures lcode.Length == llen.Length == 288 && fresh(lcode) && fresh(llen)
    ensures llen[..] == FixedLengths()
    ensures forall s | 0 <= s < 288 :: lcode[s] == FixedCode(FixedLengths(), s)
  {
    hide Count, GenCodes.Assigned, Codable;
    lcode, llen := new nat[288], new nat[288];
    var blCount := new nat[16](i => 0);
    var n := 0;
    forall b | 0 <= b < 16 ensures Count(FixedLengths()[..0], b) == 0 {
      CountNone(FixedLengths()[..0], b);
    }
    while n <= 143
      invariant n <= 144 && Fixing(llen[..], blCount[..], n)
    {
      n := FixOne(llen, blCount, n, 8);
    }
    while n <= 255
      invariant 144 <= n <= 256 && Fixing(llen[..], blCount[..], n)
    {
      n := FixOne(llen, blCount, n, 9);
    }
    while n <= 279
      invariant 256 <= n <= 280 && Fixing(llen[..], blCount[..], n)
    {
      n := FixOne(llen, blCount, n, 7);
    }
    while n <= 287
      invariant 280 <= n <= 288 && Fixing(llen[..], blCount[..], n)
    {
      n := FixOne(llen, blCount, n, 8);
    }
    assert llen[..] == FixedLengths();
    assert FixedLengths()[..288] == FixedLengths();
    CountNone(FixedLengths(), 0);
    assert blCount[..] == Counts(FixedLengths());
    FixedLengthsUsable();
    AcceptableIsSound(LENS, FixedLengths());
    SoundIsCodable(FixedLengths());
    assert llen[..288] == FixedLengths();
    GenCodes.GenCodes(lcode, llen, 288, 287, blCount, 15);
    FixedAssigned(lcode[..], FixedLengths());
  }

  /** The lengths below n are set and counted. */
  ghost predicate Fixing(llen: seq<nat>, bl: seq<nat>, n: nat) {
    && |llen| == 288 && |bl| == 16 && n <= 288 && (forall s | 0 <= s < n :: llen[s] == FixedLength(s))
    && forall b | 0 <= b < 16 :: bl[b] == Count(FixedLengths()[..n], b)
  }

  method FixOne(llen: array<nat>, blCount: array<nat>, n: nat, len: nat) returns (m: nat)
    requires llen != blCount && Fixing(llen[..], blCount[..], n) && n < 288 && len == FixedLength(n)
    modifies llen, blCount
    ensures m == n + 1 && Fixing(llen[..], blCount[..], m)
  {
    hide Count;
    assert FixedLengths()[..n + 1] == FixedLengths()[..n] + [len];
    forall b | 0 <= b < 16
      ensures Count(FixedLengths()[..n + 1], b) == Count(FixedLengths()[..n], b) + if len == b then 1 else 0
    {
      CountAppend(FixedLengths()[..n], len, b);
    }
    llen[n] := len;
    blCount[len] := blCount[len] + 1;
    m := n + 1;
  }

  lemma FixedAssigned(fc: seq<nat>, lens: seq<nat>)
    requires |fc| >= |lens| == 288 && lens == FixedLengths() && GenCodes.Assigned(fc, lens, Counts(lens), 288)
    ensures forall s | 0 <= s < 288 :: fc[s] == FixedCode(lens, s)
  {
    hide Code, Counts;
  }

  method InitDistanceCode() returns (dcode: array<nat>, dlen: array<nat>)
    ensures dcode.Length == dlen.Length == 30 && fresh(dcode) && fresh(dlen)
    ensures forall s | 0 <= s < 30 :: dlen[s] == 5 && dcode[s] == FixedCode(FixedDistances(), s)
  {
    hide FixedCode, FixedDistances, Reversed;
    dcode, dlen := new nat[30], new nat[30];
    for n := 0 to 30
      invariant forall s | 0 <= s < n :: dlen[s] == 5 && dcode[s] == FixedCode(FixedDistances(), s)
    {
      dlen[n] := 5;
      dcode[n] := GenCodes.BiReverse(n, 5);
      DistanceFixed(n);
    }
  }

  /** With 32 codes of 5 bits the code of a symbol is the symbol. */
  lemma DistanceFixed(n: nat)
    requires n < 30
    ensures FixedCode(FixedDistances(), n) == Reversed(n, 5) && n < 0x1_0000
  {
    hide Reversed, Code, Counts;
    FixedDistanceIs(n);
  }
}
