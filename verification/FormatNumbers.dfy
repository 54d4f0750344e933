/** The constants of RFC 1951 in numbers: what the fields of a block mean to the decompressor, without the tables and functions
    that both sides share. */
module FormatNumbers {
  import opened Bits
  import opened Reversal
  import opened Streams
  import opened Canonical
  import opened DecodeTables
  import opened InfTrees
  import opened Reading
  import opened Inflation
  import opened ZlibFormat
  import opened Blocks
  import opened Headers
  import opened Wrapper
  import opened FixedCodes
  import Adler32

  /** Section 3.2.5: the shortest length and the extra bits of a length symbol. */
  lemma LengthNumbers(s: nat)
    requires 257 <= s < 286
    ensures s < 265 ==> LBase(s) == s - 254 && LExt(s) == 16
    ensures 265 <= s < 285 ==> LExt(s) == 16 + (s - 261) / 4 && LBase(s) == 3 + (4 + (s - 261) % 4) * Pow2((s - 261) / 4)
    ensures s == 285 ==> LBase(s) == 258 && LExt(s) == 16
  {
    Pow2Values();
  }

  /** The shortest distance and the extra bits of a distance symbol. */
  lemma DistanceNumbers(s: nat)
    requires s < 30
    ensures s < 4 ==> DBase(s) == s + 1 && DExt(s) == 16
    ensures 4 <= s ==> DExt(s) == 16 + (s / 2 - 1) && DBase(s) == 1 + (2 + s % 2) * Pow2(s / 2 - 1)
  {
    Pow2Values();
    Pow2Upper();
  }

  /** A length is sent with the symbol whose range it lies in, and 258 with the last one, although it lies in the range of the one before. */
  lemma LengthSymbol(length: nat)
    requires 3 <= length <= 258
    ensures var s := 257 + LengthCode(length - 3);
      && LBase(s) <= length < LBase(s) + Pow2(LExt(s) - 16) && (s == 285 <==> length == 258)
  {
    hide LBase, LExt, SearchLength;
    LengthInCode(length - 3);
  }

  /** And a distance with the one whose range it lies in. */
  lemma DistanceSymbol(dist: nat)
    requires 1 <= dist <= 32768
    ensures var s := DistanceCode(dist - 1); DBase(s) <= dist < DBase(s) + Pow2(DExt(s) - 16)
  {
    hide DBase, DExt, SearchDistance;
    DistanceInCode(dist - 1);
  }

  /** Section 3.2.7: the lengths of the code length code begin with those of 16, 17, 18 and 0, and go on outwards from 8. */
  lemma OrderNumbers(i: nat)
    requires i < 19
    ensures i < 3 ==> ORDER[i] == 16 + i
    ensures i == 3 ==> ORDER[i] == 0
    ensures 4 <= i && i % 2 == 0 ==> ORDER[i] == 8 + (i - 4) / 2
    ensures 4 <= i && i % 2 == 1 ==> ORDER[i] == 7 - (i - 5) / 2
  {
  }

  /** Section 3.2.3: the three bits in front of a block. */
  lemma TypeNumbers(m: Machine, last: bool, low: bool, high: bool, rest: seq<bool>)
    requires Proper(m) && m.mode == TYPE && !m.last
    ensures var s := Next(m, [last, low, high] + rest);
      && s.Take? && s.n == 3 && s.next.last == last && s.next.history == m.history
      && s.next.mode == (if high then if low then BAD else TABLE else if low then LEN else STORED)
  {
    hide Proper, FixedLengths, FixedDistances;
    var b := [last, low, high] + rest;
    NextIs(m, b);
    assert b[1..][..2] == [low, high];
    TwoBits(low, high);
  }

  lemma TwoBits(low: bool, high: bool)
    ensures ValueOf([low, high]) == (if low then 1 else 0) + (if high then 2 else 0)
  {
    assert [low, high][1..] == [high] && [high][1..] == [];
  }

  /** Section 3.2.4: the length of a stored block and its complement, least significant byte first. */
  lemma StoredNumbers(m: Machine, l0: byte, l1: byte, n0: byte, n1: byte, rest: seq<byte>)
    requires Proper(m) && m.mode == STORED
    ensures Next(m, BitsOf([l0, l1, n0, n1] + rest)) ==
      Take(32, if l0 + n0 == 255 && l1 + n1 == 255 then m.(mode := COPY, length := l0 + 256 * l1) else m.(mode := BAD))
  {
    hide Proper, BitsOf, Field, Low, Shr, Xor, Next;
    var b := BitsOf([l0, l1, n0, n1] + rest);
    StoredField(l0, l1, n0, n1, rest);
    Complement(l0, l1, n0, n1);
    StoredTakes(m, b, l0 + 256 * l1, n0 + 256 * n1);
  }

  lemma StoredTakes(m: Machine, b: seq<bool>, l: nat, n: nat)
    requires Proper(m) && m.mode == STORED && |b| % 8 == 0 && |b| >= 32
    requires Low(Field(b, 32), 16) == l && Shr(Field(b, 32), 16) == n && n < 65536
    ensures Next(m, b) == Take(32, if l == 65535 - n then m.(mode := COPY, length := l) else m.(mode := BAD))
  {
    hide Proper, Field, Low, Shr, Xor, Next;
    Pow2Values();
    XorOnes(n, 16);
    NextIs(m, b);
    assert b[0..] == b;
  }

  lemma StoredField(l0: byte, l1: byte, n0: byte, n1: byte, rest: seq<byte>)
    ensures var b := BitsOf([l0, l1, n0, n1] + rest);
      && |b| >= 32 && Low(Field(b, 32), 16) == l0 + 256 * l1 && Shr(Field(b, 32), 16) == n0 + 256 * n1
  {
    hide ValueOf, BitsOf, Field, Low, Shr, Shl, Pow2;
    BitsOfAppend([l0, l1, n0, n1], rest);
    FieldIs(BitsOf([l0, l1, n0, n1]), BitsOf(rest));
    assert [l0, l1] + [n0, n1] == [l0, l1, n0, n1] && [n0, n1] + [] == [n0, n1];
    ValueOfBytes(l0, l1, [n0, n1]);
    ValueOfBytes(n0, n1, []);
    ValueOfNothing();
    Pow2Values();
    ShlValues(n0 + 256 * n1);
    LowShrUnique(l0 + 256 * l1, n0 + 256 * n1, 16);
  }

  lemma Complement(l0: byte, l1: byte, n0: byte, n1: byte)
    ensures l0 + 256 * l1 == 65535 - (n0 + 256 * n1) <==> l0 + n0 == 255 && l1 + n1 == 255
  {
  }

  /** Section 3.2.7: the counts in front of a dynamic block. */
  lemma TableNumbers(m: Machine, hlit: nat, hdist: nat, hclen: nat, rest: seq<bool>)
    requires Proper(m) && m.mode == TABLE && hlit < 32 && hdist < 32 && hclen < 16
    ensures Next(m, LsbBits(hlit, 5) + LsbBits(hdist, 5) + LsbBits(hclen, 4) + rest) ==
      Take(14, m.(nlen := 257 + hlit, ndist := 1 + hdist, ncode := 4 + hclen, lens := [],
                  mode := if hlit > 29 || hdist > 29 then BAD else LENLENS))
  {
    hide Proper, LsbBits, Field, Next;
    var a, c, d := LsbBits(hlit, 5), LsbBits(hdist, 5), LsbBits(hclen, 4);
    var b := a + c + d + rest;
    Pow2Values();
    ReadsField(hlit, 5, c + d + rest);
    ReadsField(hdist, 5, d + rest);
    ReadsField(hclen, 4, rest);
    assert b == a + (c + d + rest) && b[5..] == c + (d + rest) && c + (d + rest) == c + d + rest && b[10..] == d + rest;
    NextIs(m, b);
  }

  /** The symbols of the code length code: a length, or a repetition of the last one 3 to 6 times, or of 0 3 to 10 or 11 to 138 times. */
  lemma RepeatNumbers(m: Machine, s: nat, v: nat, rest: seq<bool>)
    requires Proper(m) && m.mode == CODELENS && |m.lens| < m.nlen + m.ndist && HasCode(m.ll, s)
    requires v < (if s == 16 then 4 else if s == 17 then 8 else 128)
    ensures var c := Bitstring(m.ll, s); var at := |c|;
      && (s < 16 ==> Next(m, c + rest) == Take(at, m.(lens := m.lens + [s])))
      && (s == 16 && m.lens == [] ==> Next(m, c + LsbBits(v, 2) + rest) == Take(at, m.(mode := BAD)))
      && (s == 16 && m.lens != [] ==>
            Next(m, c + LsbBits(v, 2) + rest) == Take(at + 2, Repeating(m, m.lens[|m.lens| - 1], 3 + v)))
      && (s == 17 ==> Next(m, c + LsbBits(v, 3) + rest) == Take(at + 3, Repeating(m, 0, 3 + v)))
      && (s == 18 ==> Next(m, c + LsbBits(v, 7) + rest) == Take(at + 7, Repeating(m, 0, 11 + v)))
  {
    hide Proper, LsbBits, Field, Next, Bitstring, ReadSymbol, Usable;
    Pow2Values();
    var c := Bitstring(m.ll, s);
    if s < 16 {
      CodeLengthRead(m, s, rest);
      NextIs(m, c + rest);
    } else {
      var n := if s == 16 then 2 else if s == 17 then 3 else 7;
      var x := LsbBits(v, n);
      assert c + x + rest == c + (x + rest) && (c + x + rest)[|c|..] == x + rest;
      CodeLengthRead(m, s, x + rest);
      ReadsField(v, n, rest);
      NextIs(m, c + x + rest);
    }
  }

  /** Room for so many lengths x, or an error. */
  function Repeating(m: Machine, x: nat, n: nat): Machine {
    if |m.lens| + n > m.nlen + m.ndist then m.(mode := BAD) else m.(lens := m.lens + seq(n, i => x))
  }

  lemma CodeLengthRead(m: Machine, s: nat, rest: seq<bool>)
    requires Proper(m) && m.mode == CODELENS && HasCode(m.ll, s)
    ensures ReadSymbol(m.ll, Bitstring(m.ll, s) + rest) == Symbol(s) && |Bitstring(m.ll, s)| == m.ll[s] && s < 19
  {
    hide Usable, ReadSymbol;
    ReadsSymbol(CODES, m.ll, s, rest);
  }

  // ---------------------------------------------------------------- a stream

  /** What zlib makes of the one byte "a" at its default level. */
  const STREAM_OF_A: seq<byte> := [0x78, 0x9C, 0x4B, 0x04, 0x00, 0x00, 0x62, 0x00, 0x62]

  lemma LsbTwice(v: nat, n: nat)
    ensures LsbBits(v, n + 2) == [v % 2 == 1, v / 2 % 2 == 1] + LsbBits(v / 4, n)
  {
    assert LsbBits(v, n + 2) == [v % 2 == 1] + LsbBits(v / 2, n + 1);
    assert LsbBits(v / 2, n + 1) == [v / 2 % 2 == 1] + LsbBits(v / 2 / 2, n);
  }

  /** The three bytes of its block. */
  lemma BytesOfA()
    ensures LsbBits(0x4B, 8) == [true, true, false, true, false, false, true, false]
    ensures LsbBits(0x04, 8) == [false, false, true, false, false, false, false, false]
    ensures LsbBits(0x00, 8) == [false, false, false, false, false, false, false, false]
  {
    hide LsbBits;
    LsbTwice(75, 6);
    LsbTwice(18, 4);
    LsbTwice(4, 6);
    LsbTwice(4, 2);
    LsbTwice(1, 4);
    LsbTwice(1, 0);
    LsbTwice(0, 6);
    LsbTwice(0, 4);
    LsbTwice(0, 2);
    LsbTwice(0, 0);
    LsbNothing(0);
  }

  lemma LsbNothing(v: nat)
    ensures LsbBits(v, 0) == []
  {
  }

  lemma MsbTwice(v: nat, n: nat)
    ensures MsbBits(v, n + 2) == MsbBits(v / 4, n) + [v / 2 % 2 == 1, v % 2 == 1]
  {
    assert MsbBits(v, n + 2) == MsbBits(v / 2, n + 1) + [v % 2 == 1];
    assert MsbBits(v / 2, n + 1) == MsbBits(v / 2 / 2, n) + [v / 2 % 2 == 1];
  }

  /** The codes of the byte 97 and of the end of a block. */
  lemma TextsOfA()
    ensures FixedText(97) == [true, false, false, true, false, false, false, true]
    ensures FixedText(256) == [false, false, false, false, false, false, false]
  {
    hide MsbBits;
    MsbTwice(145, 6);
    MsbTwice(36, 4);
    MsbTwice(9, 2);
    MsbTwice(2, 0);
    MsbShort(0);
    MsbTwice(0, 5);
    MsbTwice(0, 3);
    MsbTwice(0, 1);
  }

  lemma MsbShort(v: nat)
    ensures MsbBits(v, 0) == [] && MsbBits(v, 1) == [v % 2 == 1]
  {
    assert MsbBits(v, 1) == MsbBits(v / 2, 0) + [v % 2 == 1];
  }

  lemma BlockOfA(rest: seq<byte>)
    ensures BitsOf([0x4B, 0x04, 0x00] + rest) ==
      [true, true, false] + (FixedText(97) + (FixedText(256) + ([false, false, false, false, false, false] + BitsOf(rest))))
  {
    hide LsbBits, FixedText, BitsOf;
    assert [0x4B, 0x04, 0x00] + rest == [0x4B] + ([0x04] + ([0x00] + rest));
    ByteBits(0x4B, [0x04] + ([0x00] + rest));
    ByteBits(0x04, [0x00] + rest);
    ByteBits(0x00, rest);
    BytesOfA();
    TextsOfA();
    var b := BitsOf(rest);
    assert LsbBits(0x4B, 8) + (LsbBits(0x04, 8) + (LsbBits(0x00, 8) + b)) ==
      [true, true, false] + (FixedText(97) + (FixedText(256) + ([false, false, false, false, false, false] + b)));
  }

  /** The steps of the machine on it. */
  lemma StepsOfA(m: Machine, tail: seq<bool>) returns (c: Machine)
    requires Proper(m) && m.mode == TYPE && !m.last && |tail| % 8 == 0
    ensures Proper(c) && c.mode == CHECK && c.wrap == m.wrap && c.history == m.history + [97]
    ensures Run(m, [true, true, false] + (FixedText(97) + (FixedText(256) + ([false, false, false, false, false, false] + tail)))) ==
      Run(c, tail)
  {
    hide Proper, Run, Next, FixedText, FixedLengths, FixedDistances;
    var pad := [false, false, false, false, false, false];
    var x := FixedText(256) + (pad + tail);
    var b := [true, true, false] + (FixedText(97) + x);
    var n := FixedBegins(m, true, FixedText(97) + x);
    RunStep(m, b);
    assert b[3..] == FixedText(97) + x;
    FixedNext(n, 97, x);
    RunStep(n, FixedText(97) + x);
    assert (FixedText(97) + x)[|FixedText(97)|..] == x;
    var l := LiteralRuns(n.(mode := LIT, length := 97), x);
    FixedNext(l, 256, pad + tail);
    RunStep(l, x);
    assert x[|FixedText(256)|..] == pad + tail;
    var t := l.(mode := TYPE);
    LastTyped(t, pad + tail);
    RunStep(t, pad + tail);
    assert (pad + tail)[6..] == tail;
    c := t.(mode := CHECK);
  }

  lemma LiteralRuns(k: Machine, x: seq<bool>) returns (l: Machine)
    requires Proper(k) && k.mode == LIT && k.length < 256
    ensures l == k.(mode := LEN, history := k.history + [k.length], tokens := l.tokens) && Proper(l) && Run(k, x) == Run(l, x)
  {
    hide Proper, Run, Next;
    NextIs(k, x);
    RunStep(k, x);
    assert x[0..] == x;
    l := Next(k, x).next;
  }

  /** That stream decodes to that byte. */
  lemma StreamOfADecodes()
    ensures Decodes(true, BitsOf(STREAM_OF_A), [97])
  {
    hide Proper, Run, BitsOf, FixedText;
    var b0, b1, rest := STREAM_OF_A[0], STREAM_OF_A[1], STREAM_OF_A[2..];
    assert STREAM_OF_A == [b0, b1] + rest;
    HeaderDecides(b0, b1, rest);
    var trailer: seq<byte> := [0x00, 0x62, 0x00, 0x62];
    assert rest == [0x4B, 0x04, 0x00] + trailer;
    BlockOfA(trailer);
    var c := StepsOfA(Start(true).(mode := TYPE), BitsOf(trailer));
    assert BitsOf(trailer) + [] == BitsOf(trailer);
    SumsOfA();
    CheckDecides(c, 0x00, 0x62, 0x00, 0x62, []);
  }

  lemma SumsOfA()
    ensures Adler32.Unreduced(1, 0, [97]) == (98, 98)
  {
    assert [97][..0] == [];
  }
}
