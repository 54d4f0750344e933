/** The zlib wrapper that deflate() of src/ext/zlib/deflate.c puts around its blocks (RFC 1950), and what a decoder makes of a
    whole stream. */
module ZlibFormat {
  import opened Bits
  import opened Canonical
  import opened Reversal
  import opened Streams
  import opened Inflation
  import opened Simulation
  import opened SendBits
  import opened Blocks
  import opened Delivery
  import Adler32

  /** The 16-bit header, most significant byte first: method and window size, level, and check bits. */
  function Header(wBits: nat, levelFlags: nat): nat
    requires 8 <= wBits
  {
    var header := (8 + 16 * (wBits - 8)) * 256 + levelFlags * 64;
    header + 31 - header % 31
  }

  /** A 16-bit number, most significant byte first: putShortMSB. */
  function Msb(b: nat): seq<nat> {
    [b / 256, b % 256]
  }

  lemma HeaderParts(wBits: nat, f: nat) returns (k: nat, c: nat)
    requires 9 <= wBits <= 15 && f < 4
    ensures k == wBits - 8 && c < 32 && Header(wBits, f) / 256 == 8 + 16 * k && Header(wBits, f) % 256 == c + 32 * (2 * f)
    ensures Header(wBits, f) % 31 == 0 && Header(wBits, f) < 65536
  {
    k := wBits - 8;
    var h0 := (8 + 16 * k) * 256 + f * 64;
    c := 31 - h0 % 31;
    assert (h0 + 31 - h0 % 31) % 31 == 0;
  }

  lemma ShlValues(x: nat)
    ensures Shl(x, 4) == 16 * x && Shl(x, 5) == 32 * x && Shl(x, 8) == 256 * x && Shl(x, 16) == 65536 * x
      && Shl(x, 24) == 0x1_00_0000 * x
  {
    hide Shl, Pow2;
    ShlIsMul(x, 4);
    ShlIsMul(x, 5);
    ShlIsMul(x, 8);
    ShlIsMul(x, 16);
    ShlIsMul(x, 24);
    Pow2Values();
  }

  /** What inflate finds in the header. */
  lemma HeaderIsGood(wBits: nat, f: nat)
    requires 9 <= wBits <= 15 && f < 4
    ensures var h := Header(wBits, f); GoodHeader(h / 256 + 256 * (h % 256)) && Shr(h / 256 + 256 * (h % 256), 13) % 2 == 0
  {
    hide Low, Shr, Shl, Pow2, Header;
    Pow2Values();
    var k, c := HeaderParts(wBits, f);
    var m, g := 8 + 16 * k, c + 32 * (2 * f);
    var w := m + 256 * g;
    ShlValues(g);
    LowShrUnique(m, g, 8);
    ShlValues(k + 16 * g);
    LowShrUnique(8, k + 16 * g, 4);
    LowShrUnique(k, g, 4);
    ShlValues(2 * f);
    LowShrUnique(c, 2 * f, 5);
    ShrShr(w, 8, 5);
  }

  lemma ValueOfByte(b: nat, x: seq<bool>)
    requires b < 256
    ensures ValueOf(LsbBits(b, 8) + x) == b + 256 * ValueOf(x)
  {
    hide LsbBits, Low, Pow2;
    Pow2Values();
    ValueOfJoin(LsbBits(b, 8), x);
    ValueOfLsb(b, 8);
    LowSmall(b, 8);
  }

  lemma Scaled(p: nat, v: nat)
    ensures 2 * (p * v) == 2 * p * v
  {
  }

  lemma {:induction false} ValueOfJoin(a: seq<bool>, x: seq<bool>)
    ensures ValueOf(a + x) == ValueOf(a) + Pow2(|a|) * ValueOf(x)
  {
    if a == [] {
      assert a + x == x;
    } else {
      ValueOfJoin(a[1..], x);
      assert (a + x)[1..] == a[1..] + x;
      Scaled(Pow2(|a| - 1), ValueOf(x));
    }
  }

  lemma ValueOfBytes(b0: nat, b1: nat, x: seq<nat>)
    requires b0 < 256 && b1 < 256
    ensures ValueOf(BitsOf([b0, b1] + x)) == b0 + 256 * b1 + 65536 * ValueOf(BitsOf(x))
  {
    hide LsbBits, ValueOf;
    assert ([b0, b1] + x)[1..] == [b1] + x && ([b1] + x)[1..] == x;
    ValueOfByte(b0, BitsOf([b1] + x));
    ValueOfByte(b1, BitsOf(x));
  }

  lemma ValueOfNothing()
    ensures ValueOf(BitsOf([])) == 0
  {
  }

  /** What inflate finds in the trailer. */
  lemma TrailerIsSwapped(a: nat)
    requires a < 0x1_0000_0000
    ensures Swap(ValueOf(BitsOf(Msb(a / 65536) + Msb(a % 65536)))) == a
  {
    hide Low, Shr, Shl, Pow2, ValueOf, BitsOf;
    Pow2Values();
    var h, l := a / 65536, a % 65536;
    var b0, b1, b2, b3 := h / 256, h % 256, l / 256, l % 256;
    ValueOfBytes(b0, b1, [b2, b3]);
    assert [b2, b3] + [] == [b2, b3];
    ValueOfBytes(b2, b3, []);
    ValueOfNothing();
    var q := b0 + 256 * b1 + 65536 * (b2 + 256 * b3);
    ShlValues(b1 + 256 * b2 + 65536 * b3);
    LowShrUnique(b0, b1 + 256 * b2 + 65536 * b3, 8);
    ShlValues(b2 + 256 * b3);
    LowShrUnique(b0 + 256 * b1, b2 + 256 * b3, 16);
    ShlValues(b3);
    LowShrUnique(b0 + 256 * b1 + 65536 * b2, b3, 24);
    BytesApart(b0, b1, b2, b3);
  }

  lemma BytesApart(b0: nat, b1: nat, b2: nat, b3: nat)
    requires b0 < 256 && b1 < 256 && b2 < 256 && b3 < 256
    ensures (b1 + 256 * b2 + 65536 * b3) % 256 == b1 && (b2 + 256 * b3) % 256 == b2 && b3 % 256 == b3
    ensures (b0 + 256 * b1 + 65536 * (b2 + 256 * b3)) % 256 == b0
  {
  }

  // ---------------------------------------------------------------- decoding a whole stream

  /** Decoding the stream b ends well, with the output h. */
  ghost predicate Decodes(wrap: bool, b: seq<bool>, h: seq<byte>) {
    Proper(Start(wrap)) && Run(Start(wrap), b).mode == DONE && Run(Start(wrap), b).history == h
  }

  lemma BeginTyped(wrap: bool, b: seq<bool>)
    requires wrap ==> |b| >= 16 && GoodHeader(Field(b, 16)) && Shr(Field(b, 16), 13) % 2 == 0
    ensures Proper(Start(wrap)) && Proper(Start(wrap).(mode := TYPE))
    ensures Run(Start(wrap), b) == Run(Start(wrap).(mode := TYPE), if wrap then b[16..] else b)
  {
    hide Run, GoodHeader, Field, Shr, TypeStep, StoredStep, CopyStep, TableStep, LenLensStep, CodeLensStep, LenStep, LenExtStep,
         DistStep, DistExtStep, MatchStep, LitStep, CheckStep;
    RunStep(Start(wrap), b);
    assert b[0..] == b;
  }

  lemma LastTyped(r: Machine, b: seq<bool>)
    requires Proper(r) && r.mode == TYPE && r.last
    ensures Next(r, b) == Take(|b| % 8, r.(mode := CHECK)) && Proper(r.(mode := CHECK))
  {
    hide HeadStep, StoredStep, CopyStep, TableStep, LenLensStep, CodeLensStep, LenStep, LenExtStep, DistStep, DistExtStep, MatchStep,
         LitStep, CheckStep;
  }

  lemma Checks(c: Machine, tail: seq<bool>)
    requires Proper(c) && c.mode == CHECK && |tail| == (if c.wrap then 32 else 0)
    requires c.wrap ==> Swap(Field(tail, 32)) == Check(c.history)
    ensures Next(c, tail) == Take(|tail|, c.(mode := DONE)) && Proper(c.(mode := DONE))
      && Next(c.(mode := DONE), []) == Wait
  {
    hide Field, Swap, Check, HeadStep, TypeStep, StoredStep, CopyStep, TableStep, LenLensStep, CodeLensStep, LenStep, LenExtStep,
         DistStep, DistExtStep, MatchStep, LitStep;
  }

  /** After the last block: what is left of the byte, the check value, and the end. */
  lemma EndsWell(r: Machine, pad: seq<bool>, tail: seq<bool>)
    requires Proper(r) && r.mode == TYPE && r.last && |pad| < 8 && |tail| == (if r.wrap then 32 else 0)
    requires r.wrap ==> Swap(Field(tail, 32)) == Check(r.history)
    ensures Run(r, pad + tail).mode == DONE && Run(r, pad + tail).history == r.history
  {
    hide Run, Next, Proper, Field, Swap, Check, Pow2, LsbBits;
    var b, c := pad + tail, r.(mode := CHECK);
    LastTyped(r, b);
    RunStep(r, b);
    assert b[|pad|..] == tail;
    Checks(c, tail);
    RunStep(c, tail);
    assert tail[|tail|..] == [];
    RunWaits(c.(mode := DONE), []);
  }

  /** Header, blocks, padding and trailer, together. */
  lemma StreamDecodes(wrap: bool, head: seq<bool>, body: seq<bool>, pad: seq<bool>, tail: seq<bool>, h: seq<byte>)
    requires |head| == (if wrap then 16 else 0) && |tail| == (if wrap then 32 else 0) && |pad| < 8
    requires (|head| + |body| + |pad|) % 8 == 0 && Delivers(body, |head|, [], h, true)
    requires wrap ==> GoodHeader(Field(head, 16)) && Shr(Field(head, 16), 13) % 2 == 0 && Swap(Field(tail, 32)) == Check(h)
    ensures Decodes(wrap, head + body + pad + tail, h)
  {
    hide Run, Field, GoodHeader, Shr, Swap, Check, Proper;
    var b, rest := head + body + pad + tail, pad + tail;
    if wrap {
      SameField(b, head, 16);
    }
    BeginTyped(wrap, b);
    var m := Start(wrap).(mode := TYPE);
    assert (if wrap then b[16..] else b) == body + rest;
    assert LeadsTo(m, body, rest, h, true);
    var r: Machine :| Reached(m, body, rest, h, true, r);
    EndsWell(r, pad, tail);
  }

  /** What has been sent of a stream takes a decoder to the output h, where it waits for another block. */
  ghost predicate DecodesSoFar(wrap: bool, b: seq<bool>, h: seq<byte>) {
    Proper(Start(wrap)) && Run(Start(wrap), b).mode == TYPE && Run(Start(wrap), b).history == h
  }

  lemma BetweenBlocks(r: Machine)
    requires Proper(r) && r.mode == TYPE && !r.last
    ensures Run(r, []) == r
  {
    hide Run, Proper, StoredStep, CopyStep, TableStep, LenLensStep, CodeLensStep, LenStep, LenExtStep, DistStep, DistExtStep,
         MatchStep, LitStep, CheckStep;
    RunWaits(r, []);
  }

  /** Header and blocks up to a byte boundary. */
  lemma PartDecodes(wrap: bool, head: seq<bool>, body: seq<bool>, h: seq<byte>)
    requires |head| == (if wrap then 16 else 0) && (|head| + |body|) % 8 == 0 && Delivers(body, |head|, [], h, false)
    requires wrap ==> GoodHeader(Field(head, 16)) && Shr(Field(head, 16), 13) % 2 == 0
    ensures DecodesSoFar(wrap, head + body, h)
  {
    hide Run, Field, GoodHeader, Shr, Proper;
    var b := head + body;
    if wrap {
      SameField(b, head, 16);
    }
    BeginTyped(wrap, b);
    var m := Start(wrap).(mode := TYPE);
    assert (if wrap then b[16..] else b) == body + [];
    assert LeadsTo(m, body, [], h, false);
    var r: Machine :| Reached(m, body, [], h, false, r);
    BetweenBlocks(r);
  }

  /** A decoder of the stream b has put out h when it has to wait for more. */
  ghost predicate Delivered(wrap: bool, b: seq<bool>, h: seq<byte>) {
    Proper(Start(wrap)) && !Final(Run(Start(wrap), b).mode) && Run(Start(wrap), b).history == h
  }

  /** A few zero bits are not a block. */
  lemma ZerosWait(r: Machine, n: nat)
    requires Proper(r) && r.mode == TYPE && !r.last && n < 8
    ensures !Final(Run(r, Zeros(n)).mode) && Run(r, Zeros(n)).history == r.history
  {
    hide Run, Proper;
    var z := Zeros(n);
    NextIs(r, z);
    if n < 3 {
      RunWaits(r, z);
    } else {
      assert z[1..][..2] == [false, false];
      NoneSet();
      RunStep(r, z);
      var k := r.(last := false, mode := STORED);
      NextIs(k, z[3..]);
      RunWaits(k, z[3..]);
    }
  }

  lemma NoneSet()
    ensures ValueOf([false, false]) == 0
  {
    assert [false, false][1..] == [false] && [false][1..] == [];
  }

  /** The blocks in `body` and some bits after them. */
  lemma RunBlocks(wrap: bool, head: seq<bool>, body: seq<bool>, rest: seq<bool>, h: seq<byte>) returns (r: Machine)
    requires |head| == (if wrap then 16 else 0) && Delivers(body, |head|, [], h, false) && (|head| + |body| + |rest|) % 8 == 0
    requires wrap ==> GoodHeader(Field(head, 16)) && Shr(Field(head, 16), 13) % 2 == 0
    ensures Proper(Start(wrap)) && Proper(r) && r.mode == TYPE && !r.last && r.history == h
    ensures Run(Start(wrap), head + body + rest) == Run(r, rest)
  {
    hide Run, Field, GoodHeader, Shr, Proper;
    var b := head + body + rest;
    if wrap {
      SameField(b, head, 16);
    }
    BeginTyped(wrap, b);
    var m := Start(wrap).(mode := TYPE);
    assert (if wrap then b[16..] else b) == body + rest;
    StartTyped(wrap);
    assert LeadsTo(m, body, rest, h, false);
    r :| Reached(m, body, rest, h, false, r);
  }

  lemma StartTyped(wrap: bool)
    ensures Between(Start(wrap).(mode := TYPE), [])
  {
  }

  /** If the blocks before and after a mark stand for the same bytes, and the whole bytes sent end somewhere in the mark, a decoder has
      put out all of them. */
  lemma MarkedDecodes(wrap: bool, head: seq<bool>, before: seq<bool>, after: seq<bool>, b: seq<bool>, h: seq<byte>)
    requires |head| == (if wrap then 16 else 0) && Delivers(before, |head|, [], h, false) && Delivers(after, |head|, [], h, false)
    requires wrap ==> GoodHeader(Field(head, 16)) && Shr(Field(head, 16), 13) % 2 == 0
    requires |b| % 8 == 0 && head + before <= b <= head + after
    ensures Delivered(wrap, b, h)
  {
    hide Run, Rest, Field, GoodHeader, Shr, Proper, Delivers, Final;
    var x, y, n := b[|head| + |before|..], (head + after)[|b|..], (8 - (|head| + |after|) % 8) % 8;
    assert b == head + before + x;
    var r := RunBlocks(wrap, head, before, x, h);
    HistoryGrows(r, x);
    var z := Zeros(n);
    var q := RunBlocks(wrap, head, after, z, h);
    ZerosWait(q, n);
    assert head + after + z == b + (y + z);
    MoreRuns(Start(wrap), b, y + z);
    PrefixBothWays(h, Run(Start(wrap), b).history);
  }

  /** More input brings more output, and no more than that after an end. */
  lemma MoreRuns(m: Machine, b: seq<bool>, more: seq<bool>)
    requires Proper(m) && |more| % 8 == 0
    ensures Run(m, b).history <= Run(m, b + more).history
    ensures Final(Run(m, b).mode) ==> Run(m, b + more) == Run(m, b)
  {
    hide Run, Rest, Proper, Final;
    RunInParts(m, b, more);
    var now, left := Run(m, b), Rest(m, b) + more;
    HistoryGrows(now, left);
    if Final(now.mode) {
      FinalEnds(now, left);
    }
  }

  lemma PrefixBothWays(a: seq<byte>, b: seq<byte>)
    requires a <= b <= a
    ensures a == b
  {
  }

  lemma SameField(b: seq<bool>, head: seq<bool>, n: nat)
    requires n <= |head| && head <= b
    ensures Field(b, n) == Field(head, n)
  {
    assert b[..n] == head[..n];
  }
}
