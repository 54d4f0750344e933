/** The three forms of a block (section 3.2.3 of RFC 1951), and that each of them delivers the bytes it stands for to the
    machine that models inflate, wherever it stands in the stream. */
module Delivery {
  import opened Bits
  import opened Canonical
  import opened Streams
  import opened DecodeTables
  import opened InfTrees
  import opened Reading
  import opened Inflation
  import opened SendBits
  import opened Blocks
  import opened Headers
  import RunLength

  // ---------------------------------------------------------------- the three header bits

  function TypeBits(kind: nat, eof: bool): (b: seq<bool>)
    requires kind < 3
    ensures |b| == 3
  {
    LsbBits(2 * kind + (if eof then 1 else 0), 3)
  }

  lemma TypeField(kind: nat, eof: bool, rest: seq<bool>)
    requires kind < 3
    ensures var b := TypeBits(kind, eof) + rest; b[0] == eof && Field(b[1..], 2) == kind
  {
    var v := 2 * kind + (if eof then 1 else 0);
    assert v / 2 == kind && (v % 2 == 1) == eof;
    var x, y := [v % 2 == 1], LsbBits(kind, 2);
    assert LsbBits(v, 3) == x + y;
    Pow2Values();
    ReadsField(kind, 2, rest);
    assert (TypeBits(kind, eof) + rest)[1..] == y + rest;
  }

  lemma TypeDecodes(m: Machine, kind: nat, eof: bool, rest: seq<bool>)
    requires Proper(m) && m.mode == TYPE && !m.last && kind < 3
    ensures var n := m.(last := eof);
      var r := if kind == 0 then n.(mode := STORED)
               else if kind == 1 then n.(mode := LEN, ll := FixedLengths(), dd := FixedDistances())
               else n.(mode := TABLE);
      && Proper(r) && Run(m, TypeBits(kind, eof) + rest) == Run(r, rest)
      && Rest(m, TypeBits(kind, eof) + rest) == Rest(r, rest)
  {
    hide Run, Rest, TypeBits, FixedLengths, FixedDistances, Field, Usable;
    TypeField(kind, eof, rest);
    var n := m.(last := eof);
    OneStep(m, TypeBits(kind, eof), rest,
            if kind == 0 then n.(mode := STORED)
            else if kind == 1 then n.(mode := LEN, ll := FixedLengths(), dd := FixedDistances())
            else n.(mode := TABLE));
  }

  // ---------------------------------------------------------------- stored blocks

  /** A stored block whose first bit is bit `at` of the stream. */
  ghost function StoredBits(at: nat, buf: seq<byte>, eof: bool): seq<bool>
    requires |buf| < 65536
  {
    TypeBits(0, eof) + Zeros(Padding(at + 3)) + LsbBits(|buf|, 16) + LsbBits(65535 - |buf|, 16) + BitsOf(buf)
  }

  lemma StoredLengthField(len: nat)
    requires len < 65536
    ensures var w := len + Shl(65535 - len, 16);
      && w < Pow2(32) && Low(w, 16) == len && Shr(w, 16) == 65535 - len && Xor(65535 - len, 0xffff) == len
      && LsbBits(w, 32) == LsbBits(len, 16) + LsbBits(65535 - len, 16)
  {
    hide Pow2, Low, Shr, Shl, Xor, LsbBits;
    Pow2Values();
    LowShrUnique(len, 65535 - len, 16);
    XorOnes(65535 - len, 16);
    LsbOfSum(len, 65535 - len, 16, 16);
    ShlBound(65535 - len, 16, 16);
  }

  lemma StoredHeaderDecodes(m: Machine, len: nat, pad: nat, rest: seq<bool>)
    requires Proper(m) && m.mode == STORED && len < 65536 && pad < 8
    requires (pad + 32 + |rest|) % 8 == pad
    ensures var b := Zeros(pad) + LsbBits(len, 16) + LsbBits(65535 - len, 16);
      var n := m.(mode := COPY, length := len);
      Proper(n) && Run(m, b + rest) == Run(n, rest) && Rest(m, b + rest) == Rest(n, rest)
  {
    hide Run, Rest, LsbBits, Field, Pow2, Low, Shr, Shl, Xor;
    var w := len + Shl(65535 - len, 16);
    StoredLengthField(len);
    var z, x, y := Zeros(pad), LsbBits(len, 16), LsbBits(65535 - len, 16);
    assert z + x + y == z + LsbBits(w, 32);
    ReadsBehind(z, w, 32, rest);
    OneStep(m, z + x + y, rest, m.(mode := COPY, length := len));
  }

  lemma {:induction false} CopyingDecodes(m: Machine, buf: seq<byte>, rest: seq<bool>)
    requires Proper(m) && m.mode == COPY && m.length == |buf|
    ensures var n := m.(mode := TYPE, length := 0, history := m.history + buf);
      Proper(n) && Run(m, BitsOf(buf) + rest) == Run(n, rest) && Rest(m, BitsOf(buf) + rest) == Rest(n, rest)
    decreases |buf|
  {
    hide Run, Rest, LsbBits, Field, Pow2;
    if buf == [] {
      assert [] + rest == rest && m.history + [] == m.history;
      OneStep(m, [], rest, m.(mode := TYPE));
    } else {
      var x, y := LsbBits(buf[0], 8), BitsOf(buf[1..]);
      Pow2Values();
      ReadsField(buf[0], 8, y + rest);
      var n := m.(length := m.length - 1, history := m.history + [buf[0]]);
      OneStep(m, x, y + rest, n);
      CopyingDecodes(n, buf[1..], rest);
      assert x + y + rest == x + (y + rest);
      assert m.history + [buf[0]] + buf[1..] == m.history + buf;
    }
  }

  lemma StoredDecodes(m: Machine, at: nat, buf: seq<byte>, eof: bool, rest: seq<bool>)
    requires Proper(m) && m.mode == TYPE && !m.last && |buf| < 65536 && (at + |StoredBits(at, buf, eof)| + |rest|) % 8 == 0
    ensures var b, r := StoredBits(at, buf, eof), m.(last := eof, length := 0, history := m.history + buf);
      Proper(r) && Run(m, b + rest) == Run(r, rest) && Rest(m, b + rest) == Rest(r, rest)
  {
    hide Run, Rest, TypeBits, Proper, Padding, StoredBits, StoredBody;
    StoredGrouped(at, buf, eof, rest);
    StoredTypeDecodes(m, eof, StoredBody(Padding(at + 3), buf, rest));
    StoredBodyDecodes(m.(last := eof, mode := STORED), Padding(at + 3), buf, rest);
  }

  lemma StoredTypeDecodes(m: Machine, eof: bool, rest: seq<bool>)
    requires Proper(m) && m.mode == TYPE && !m.last
    ensures var n := m.(last := eof, mode := STORED);
      && Proper(n) && Run(m, TypeBits(0, eof) + rest) == Run(n, rest)
      && Rest(m, TypeBits(0, eof) + rest) == Rest(n, rest)
  {
    hide Run, Rest, TypeBits, Proper, FixedLengths, FixedDistances;
    TypeDecodes(m, 0, eof, rest);
  }

  /** The bits of a stored block after its type, and what follows. */
  ghost function StoredBody(pad: nat, buf: seq<byte>, rest: seq<bool>): seq<bool>
    requires |buf| < 65536
  {
    Zeros(pad) + LsbBits(|buf|, 16) + LsbBits(65535 - |buf|, 16) + (BitsOf(buf) + rest)
  }

  lemma StoredGrouped(at: nat, buf: seq<byte>, eof: bool, rest: seq<bool>)
    requires |buf| < 65536 && (at + |StoredBits(at, buf, eof)| + |rest|) % 8 == 0
    ensures StoredBits(at, buf, eof) + rest == TypeBits(0, eof) + StoredBody(Padding(at + 3), buf, rest)
    ensures Padding(at + 3) < 8 && (Padding(at + 3) + 32 + |BitsOf(buf) + rest|) % 8 == Padding(at + 3)
  {
    hide LsbBits, BitsOf, TypeBits, Padding, Zeros;
    var t, z, x, y, d := TypeBits(0, eof), Zeros(Padding(at + 3)), LsbBits(|buf|, 16), LsbBits(65535 - |buf|, 16), BitsOf(buf);
    Grouped(t, z, x, y, d, rest);
    PaddingFits(at + 3, 32 + |d + rest|);
  }

  lemma Grouped(t: seq<bool>, z: seq<bool>, x: seq<bool>, y: seq<bool>, d: seq<bool>, rest: seq<bool>)
    ensures t + z + x + y + d + rest == t + (z + x + y + (d + rest))
  {
  }

  /** A stored block after its type. */
  lemma StoredBodyDecodes(n: Machine, pad: nat, buf: seq<byte>, rest: seq<bool>)
    requires n.mode == STORED && |buf| < 65536 && pad < 8 && (pad + 32 + |BitsOf(buf) + rest|) % 8 == pad
    ensures var b := StoredBody(pad, buf, rest);
      var r := n.(mode := TYPE, length := 0, history := n.history + buf);
      Proper(n) && Proper(r) && Run(n, b) == Run(r, rest) && Rest(n, b) == Rest(r, rest)
  {
    hide Run, Rest, LsbBits, BitsOf, Proper, Zeros;
    PlainProper(n);
    StoredHeaderDecodes(n, |buf|, pad, BitsOf(buf) + rest);
    CopyingDecodes(n.(mode := COPY, length := |buf|), buf, rest);
  }

  lemma PlainProper(m: Machine)
    requires m.mode == TYPE || m.mode == STORED || m.mode == TABLE
    ensures Proper(m)
  {
  }

  /** The padding that was sent is what is left to the byte boundary. */
  lemma PaddingFits(at: nat, n: nat)
    requires (at + Padding(at) + n) % 8 == 0
    ensures Padding(at) < 8 && (Padding(at) + n) % 8 == Padding(at)
  {
  }

  // ---------------------------------------------------------------- blocks of tokens

  ghost function StaticBits(ts: seq<Token>, eof: bool): seq<bool>
    requires AllCoded(FixedLengths(), FixedDistances(), ts)
  {
    TypeBits(1, eof) + BlockBits(FixedLengths(), FixedDistances(), ts)
  }

  ghost function DynamicBits(ll: seq<nat>, dd: seq<nat>, cl: seq<nat>, n: nat, lops: seq<RunLength.Op>, dops: seq<RunLength.Op>,
                             ts: seq<Token>, eof: bool): seq<bool>
    requires Describes(ll, dd, cl, n, lops, dops) && AllCoded(ll, dd, ts)
  {
    TypeBits(2, eof) + HeaderBits(|ll|, |dd|, cl, n, lops, dops) + BlockBits(ll, dd, ts)
  }

  lemma FixedCodesAll(ts: seq<Token>)
    requires forall i | 0 <= i < |ts| :: GoodToken(ts[i])
    ensures AllCoded(FixedLengths(), FixedDistances(), ts)
  {
  }

  lemma StaticDecodes(m: Machine, ts: seq<Token>, eof: bool, rest: seq<bool>)
    requires Proper(m) && m.mode == TYPE && !m.last && AllCoded(FixedLengths(), FixedDistances(), ts)
    ensures var n := AppliedAll(m.(mode := LEN, last := eof, ll := FixedLengths(), dd := FixedDistances()), ts);
      Proper(n) && Run(m, StaticBits(ts, eof) + rest) ==
        if AllReach(m.history, ts) then Run(n.(mode := TYPE), rest) else n
  {
    hide Run, Rest, TypeBits, FixedLengths, FixedDistances, BlockBits, Usable, AllReach, AppliedAll;
    var t, b := TypeBits(1, eof), BlockBits(FixedLengths(), FixedDistances(), ts);
    assert t + b + rest == t + (b + rest);
    TypeDecodes(m, 1, eof, b + rest);
    BlockDecodes(m.(mode := LEN, last := eof, ll := FixedLengths(), dd := FixedDistances()), ts, rest);
  }

  lemma DynamicDecodes(m: Machine, ll: seq<nat>, dd: seq<nat>, cl: seq<nat>, n: nat, lops: seq<RunLength.Op>,
                       dops: seq<RunLength.Op>, ts: seq<Token>, eof: bool, rest: seq<bool>)
    requires Proper(m) && m.mode == TYPE && !m.last && Describes(ll, dd, cl, n, lops, dops) && AllCoded(ll, dd, ts)
    ensures var r := AppliedAll(m.(mode := LEN, last := eof, nlen := |ll|, ndist := |dd|, ncode := n, lens := ll + dd,
                                   ll := ll, dd := dd), ts);
      Proper(r) && Run(m, DynamicBits(ll, dd, cl, n, lops, dops, ts, eof) + rest) ==
        if AllReach(m.history, ts) then Run(r.(mode := TYPE), rest) else r
  {
    hide Run, Rest, TypeBits, HeaderBits, BlockBits, Usable, AllReach, AppliedAll, Describes;
    HeaderShape(ll, dd, cl, n, lops, dops);
    var t, h, b := TypeBits(2, eof), HeaderBits(|ll|, |dd|, cl, n, lops, dops), BlockBits(ll, dd, ts);
    assert t + h + b + rest == t + (h + (b + rest));
    TypeDecodes(m, 2, eof, h + (b + rest));
    HeaderDecodes(m.(mode := TABLE, last := eof), ll, dd, cl, n, lops, dops, b + rest);
    BlockDecodes(m.(mode := LEN, last := eof, nlen := |ll|, ndist := |dd|, ncode := n, lens := ll + dd, ll := ll, dd := dd),
                 ts, rest);
  }

  lemma HeaderShape(ll: seq<nat>, dd: seq<nat>, cl: seq<nat>, n: nat, lops: seq<RunLength.Op>, dops: seq<RunLength.Op>)
    requires Describes(ll, dd, cl, n, lops, dops)
    ensures 257 <= |ll| <= 286 && 1 <= |dd| <= 30 && |cl| == 19 && 4 <= n <= 19 && OpsCoded(cl, lops) && OpsCoded(cl, dops)
  {
    hide Usable, OpsCoded, RunLength.Decodable, RunLength.Grown;
  }

  // ---------------------------------------------------------------- delivery

  /** After b the machine stands between blocks again, or at the end, with history h'. */
  ghost predicate LeadsTo(m: Machine, b: seq<bool>, rest: seq<bool>, h': seq<byte>, eof: bool)
    requires Proper(m)
  {
    exists r: Machine :: Reached(m, b, rest, h', eof, r)
  }

  ghost predicate Reached(m: Machine, b: seq<bool>, rest: seq<bool>, h': seq<byte>, eof: bool, r: Machine)
    requires Proper(m)
  {
    && Proper(r) && r.mode == TYPE && r.last == eof && r.history == h' && r.wrap == m.wrap
    && Run(m, b + rest) == Run(r, rest)
  }

  ghost predicate Between(m: Machine, h: seq<byte>) {
    Proper(m) && m.mode == TYPE && !m.last && m.history == h
  }

  /** The bits b, sent from bit `at` on, take a decoder from history h to history h', whatever bytes follow. */
  ghost predicate Delivers(b: seq<bool>, at: nat, h: seq<byte>, h': seq<byte>, eof: bool) {
    forall m: Machine, rest: seq<bool> {:trigger LeadsTo(m, b, rest, h', eof)} ::
      Between(m, h) && (at + |b| + |rest|) % 8 == 0 ==> LeadsTo(m, b, rest, h', eof)
  }

  lemma StoredDelivers(at: nat, buf: seq<byte>, eof: bool, h: seq<byte>)
    requires |buf| < 65536
    ensures Delivers(StoredBits(at, buf, eof), at, h, h + buf, eof)
  {
    hide StoredBits, Run, Proper;
    var b := StoredBits(at, buf, eof);
    forall m: Machine, rest: seq<bool> {:trigger LeadsTo(m, b, rest, h + buf, eof)}
      | Between(m, h) && (at + |b| + |rest|) % 8 == 0
      ensures LeadsTo(m, b, rest, h + buf, eof)
    {
      StoredDecodes(m, at, buf, eof, rest);
      PlainProper(m.(last := eof, length := 0, history := m.history + buf));
      assert Reached(m, b, rest, h + buf, eof, m.(last := eof, length := 0, history := m.history + buf));
    }
  }

  lemma {:induction false} AppliedKeeps(m: Machine, ts: seq<Token>)
    requires forall i | 0 <= i < |ts| :: GoodToken(ts[i])
    ensures AppliedAll(m, ts).wrap == m.wrap && AppliedAll(m, ts).last == m.last
  {
    hide CopyBack;
    if ts != [] {
      AppliedKeeps(m, ts[..|ts| - 1]);
    }
  }

  lemma TokensGood(ll: seq<nat>, dd: seq<nat>, ts: seq<Token>)
    requires AllCoded(ll, dd, ts)
    ensures forall i | 0 <= i < |ts| :: GoodToken(ts[i])
  {
  }

  lemma StaticDelivers(at: nat, ts: seq<Token>, eof: bool, h: seq<byte>)
    requires AllCoded(FixedLengths(), FixedDistances(), ts) && AllReach(h, ts)
    ensures Delivers(StaticBits(ts, eof), at, h, ExpandAll(h, ts), eof)
  {
    hide StaticBits, Run, Proper, AppliedAll, AllReach, ExpandAll, AllCoded, FixedLengths, FixedDistances;
    var b := StaticBits(ts, eof);
    TokensGood(FixedLengths(), FixedDistances(), ts);
    forall m: Machine, rest: seq<bool> {:trigger LeadsTo(m, b, rest, ExpandAll(h, ts), eof)}
      | Between(m, h) && (at + |b| + |rest|) % 8 == 0
      ensures LeadsTo(m, b, rest, ExpandAll(h, ts), eof)
    {
      StaticDecodes(m, ts, eof, rest);
      var s := m.(mode := LEN, last := eof, ll := FixedLengths(), dd := FixedDistances());
      AppliedAllIs(s, ts);
      AppliedKeeps(s, ts);
      PlainProper(AppliedAll(s, ts).(mode := TYPE));
      assert Reached(m, b, rest, ExpandAll(h, ts), eof, AppliedAll(s, ts).(mode := TYPE));
    }
  }

  lemma DynamicDelivers(at: nat, ll: seq<nat>, dd: seq<nat>, cl: seq<nat>, n: nat, lops: seq<RunLength.Op>,
                        dops: seq<RunLength.Op>, ts: seq<Token>, eof: bool, h: seq<byte>)
    requires Describes(ll, dd, cl, n, lops, dops) && AllCoded(ll, dd, ts) && AllReach(h, ts)
    ensures Delivers(DynamicBits(ll, dd, cl, n, lops, dops, ts, eof), at, h, ExpandAll(h, ts), eof)
  {
    hide DynamicBits, Run, Proper, AppliedAll, AllReach, ExpandAll, AllCoded, Describes;
    var b := DynamicBits(ll, dd, cl, n, lops, dops, ts, eof);
    TokensGood(ll, dd, ts);
    forall m: Machine, rest: seq<bool> {:trigger LeadsTo(m, b, rest, ExpandAll(h, ts), eof)}
      | Between(m, h) && (at + |b| + |rest|) % 8 == 0
      ensures LeadsTo(m, b, rest, ExpandAll(h, ts), eof)
    {
      DynamicDecodes(m, ll, dd, cl, n, lops, dops, ts, eof, rest);
      var s := m.(mode := LEN, last := eof, nlen := |ll|, ndist := |dd|, ncode := n, lens := ll + dd, ll := ll, dd := dd);
      AppliedAllIs(s, ts);
      AppliedKeeps(s, ts);
      PlainProper(AppliedAll(s, ts).(mode := TYPE));
      assert Reached(m, b, rest, ExpandAll(h, ts), eof, AppliedAll(s, ts).(mode := TYPE));
    }
  }

  // ---------------------------------------------------------------- one block after another

  lemma DeliversNothing(at: nat, h: seq<byte>)
    ensures Delivers([], at, h, h, false)
  {
    hide Run, Proper;
    forall m: Machine, rest: seq<bool> {:trigger LeadsTo(m, [], rest, h, false)} | Between(m, h) && (at + |rest|) % 8 == 0
      ensures LeadsTo(m, [], rest, h, false)
    {
      assert [] + rest == rest;
      assert Reached(m, [], rest, h, false, m);
    }
  }

  lemma DeliversTwo(a: seq<bool>, at: nat, h: seq<byte>, h1: seq<byte>, b: seq<bool>, h2: seq<byte>, eof: bool)
    requires Delivers(a, at, h, h1, false) && Delivers(b, at + |a|, h1, h2, eof)
    ensures Delivers(a + b, at, h, h2, eof)
  {
    hide Run, Proper;
    forall m: Machine, rest: seq<bool> {:trigger LeadsTo(m, a + b, rest, h2, eof)}
      | Between(m, h) && (at + |a + b| + |rest|) % 8 == 0
      ensures LeadsTo(m, a + b, rest, h2, eof)
    {
      assert a + b + rest == a + (b + rest);
      assert LeadsTo(m, a, b + rest, h1, false);
      var r: Machine :| Reached(m, a, b + rest, h1, false, r);
      assert LeadsTo(r, b, rest, h2, eof);
      var q: Machine :| Reached(r, b, rest, h2, eof, q);
      assert Reached(m, a + b, rest, h2, eof, q);
    }
  }
}
