/** The zlib wrapper in bytes and numbers (sections 2.2 and 2.3 of RFC 1950): which headers the decompressor refuses, and which four
    bytes after the blocks it takes for the check value of its output. */
module Wrapper {
  import opened Bits
  import opened Reversal
  import opened Streams
  import opened Canonical
  import opened DecodeTables
  import opened InfTrees
  import opened Reading
  import opened Inflation
  import opened Simulation
  import opened ZlibFormat
  import Adler32

  // ---------------------------------------------------------------- the header

  /** The first 16 bits of a stream, and what its bytes say. */
  lemma HeaderField(b0: byte, b1: byte, rest: seq<byte>)
    ensures var b := BitsOf([b0, b1] + rest);
      && |b| >= 16 && Field(b, 16) == b0 + 256 * b1 && b[16..] == BitsOf(rest)
  {
    hide LsbBits, ValueOf, Field, BitsOf;
    BitsOfAppend([b0, b1], rest);
    var b := BitsOf([b0, b1]);
    assert [b0, b1] + [] == [b0, b1];
    ValueOfBytes(b0, b1, []);
    ValueOfNothing();
    FieldIs(b, BitsOf(rest));
  }

  lemma FieldIs(b: seq<bool>, c: seq<bool>)
    ensures Field(b + c, |b|) == ValueOf(b) && (b + c)[|b|..] == c
  {
    assert (b + c)[..|b|] == b;
  }

  /** A number in two parts, the lower of k bits. */
  lemma Parts(x: nat, l: nat, h: nat, k: nat)
    requires (k == 4 && l < 16 && x == l + 16 * h) || (k == 5 && l < 32 && x == l + 32 * h) || (k == 8 && l < 256 && x == l + 256 * h)
    ensures Low(x, k) == l && Shr(x, k) == h
  {
    hide Low, Shr, Shl, Pow2;
    Pow2Values();
    ShlValues(h);
    LowShrUnique(l, h, k);
  }

  lemma HeaderNumbers(b0: byte, b1: byte)
    ensures GoodHeader(b0 + 256 * b1) <==> (256 * b0 + b1) % 31 == 0 && b0 % 16 == 8 && b0 / 16 <= 7
    ensures Shr(b0 + 256 * b1, 13) % 2 == b1 / 32 % 2
  {
    hide Low, Shr, GoodHeader;
    HeaderParted(b0, b1, b0 % 16, b0 / 16, b1 % 32, b1 / 32);
  }

  lemma HeaderParted(b0: nat, b1: nat, l: nat, h: nat, c: nat, d: nat)
    requires l < 16 && h < 16 && c < 32 && d < 8 && b0 == l + 16 * h && b1 == c + 32 * d
    ensures GoodHeader(b0 + 256 * b1) <==> (256 * b0 + b1) % 31 == 0 && l == 8 && h <= 7
    ensures Shr(b0 + 256 * b1, 13) == d
  {
    hide Low, Shr;
    var w := b0 + 256 * b1;
    Parts(w, b0, b1, 8);
    Parts(w, l, h + 16 * b1, 4);
    Parts(h + 16 * b1, h, b1, 4);
    Parts(b1, c, d, 5);
    ShrShr(w, 8, 5);
  }

  /** A header is refused if it is no multiple of 31, or has another method than 8, or a window of more than 32K. After any other, a
      preset dictionary is asked for or the first block begins, as bit 5 of the second byte says. */
  lemma HeaderDecides(b0: byte, b1: byte, rest: seq<byte>)
    ensures Proper(Start(true)) && Proper(Start(true).(mode := DICTID)) && Proper(Start(true).(mode := TYPE))
    ensures Run(Start(true), BitsOf([b0, b1] + rest)) ==
      if (256 * b0 + b1) % 31 != 0 || b0 % 16 != 8 || b0 / 16 > 7 then Start(true).(mode := BAD)
      else Run(Start(true).(mode := if b1 / 32 % 2 == 1 then DICTID else TYPE), BitsOf(rest))
  {
    hide Run, GoodHeader, Field, Shr, BitsOf, Next, Proper;
    var b := BitsOf([b0, b1] + rest);
    HeaderField(b0, b1, rest);
    HeaderNumbers(b0, b1);
    StartsProper();
    HeadTakes(b);
    RunStep(Start(true), b);
    if !GoodHeader(b0 + 256 * b1) {
      RunBad(Start(true).(mode := BAD), BitsOf(rest));
    }
  }

  lemma HeadTakes(b: seq<bool>)
    requires |b| >= 16
    ensures Proper(Start(true))
    ensures var w := Field(b, 16);
      Next(Start(true), b) == Take(16, Start(true).(mode := if !GoodHeader(w) then BAD else if Shr(w, 13) % 2 == 1 then DICTID else TYPE))
  {
    hide GoodHeader, Field, Shr;
    NextIs(Start(true), b);
  }

  lemma StartsProper()
    ensures Proper(Start(true)) && Proper(Start(true).(mode := DICTID)) && Proper(Start(true).(mode := TYPE))
      && Proper(Start(true).(mode := BAD))
  {
  }

  lemma RunBad(m: Machine, b: seq<bool>)
    requires m.mode == BAD || m.mode == DONE
    ensures Proper(m) && Run(m, b) == m
  {
    RunWaits(m, b);
  }

  /** Two bytes that are no header. */
  predicate Refused(s: seq<byte>) {
    |s| >= 2
    && var b0: nat, b1: nat := s[0], s[1];
       (256 * b0 + b1) % 31 != 0 || b0 % 16 != 8 || b0 / 16 > 7
  }

  lemma RefusedRun(s: seq<byte>)
    requires Refused(s)
    ensures Proper(Start(true)) && Run(Start(true), BitsOf(s)) == Start(true).(mode := BAD)
  {
    hide Run, BitsOf, Proper;
    assert s == [s[0], s[1]] + s[2..];
    HeaderDecides(s[0], s[1], s[2..]);
  }

  /** A byte of output is all but certain. */
  ghost predicate Writing(m: Machine) {
    (m.mode == COPY && m.length > 0) || m.mode == MATCH || m.mode == LIT
  }

  lemma WritingWrites(m: Machine, b: seq<bool>)
    requires Proper(m) && Writing(m)
    ensures Next(m, b).Take? ==> |Next(m, b).next.history| > 0
  {
    hide Codes, Field, Next, CopyStep;
    NextIs(m, b);
    CopyWrites(m, b);
  }

  lemma CopyWrites(m: Machine, b: seq<bool>)
    ensures m.length > 0 && CopyStep(m, b).Take? ==> |CopyStep(m, b).next.history| > 0
  {
    hide Field;
  }

  /** It cannot come where the stream has been refused. */
  lemma NotWriting(m: Machine, b: seq<bool>)
    requires Proper(m) && Writing(m)
    ensures Run(m, b) != Start(true).(mode := BAD)
  {
    hide Proper, Next, Run;
    WritingWrites(m, b);
    if Next(m, b).Wait? {
      RunWaits(m, b);
    } else {
      RunStep(m, b);
      HistoryGrows(Next(m, b).next, b[Next(m, b).n..]);
    }
  }

  /** A decoder in step with the machine that has come to a halt, with the rest of its input `more`. */
  lemma RefusedEnds(m: Machine, hold: nat, bits: nat, seen: seq<byte>, more: seq<byte>)
    requires Synced(true, seen, m, hold, bits) && Proper(m) && Refused(seen + more)
    requires Final(m.mode) || (more == [] && Next(m, LsbBits(hold, bits)).Wait?) || Writing(m)
    ensures m.mode == BAD && m.history == []
  {
    hide Proper, Next, Run, BitsOf, LsbBits, Synced, Refused, Writing, Simulates;
    RefusedRun(seen + more);
    if Final(m.mode) {
      SyncedDone(true, seen, m, hold, bits, more);
    } else if more == [] && Next(m, LsbBits(hold, bits)).Wait? {
      assert seen + more == seen;
      SyncedEnd(true, seen, m, hold, bits);
    } else {
      SyncedRun(true, seen, m, hold, bits, more);
      NotWriting(m, LsbBits(hold, bits) + BitsOf(more));
    }
  }

  // ---------------------------------------------------------------- the check value

  /** The number that the decompressor takes the next four bytes for. */
  lemma TrailerField(t0: byte, t1: byte, t2: byte, t3: byte, rest: seq<bool>)
    ensures var b := BitsOf([t0, t1, t2, t3]) + rest;
      |b| >= 32 && b[32..] == rest && Swap(Field(b, 32)) == 0x1_0000 * (256 * t0 + t1) + (256 * t2 + t3)
  {
    hide LsbBits, ValueOf, Field, BitsOf, Swap;
    var a := 0x1_0000 * (256 * t0 + t1) + (256 * t2 + t3);
    assert Msb(a / 65536) + Msb(a % 65536) == [t0, t1, t2, t3];
    TrailerIsSwapped(a);
    FieldIs(BitsOf([t0, t1, t2, t3]), rest);
  }

  /** The two sums of RFC 1950, and the number made of them. */
  lemma CheckNumbers(h: seq<byte>)
    ensures var u := Adler32.Unreduced(1, 0, h); Check(h) == 0x1_0000 * (u.1 % 65521) + u.0 % 65521
  {
    hide Adler32.Bytewise, Adler32.Unreduced;
    Adler32.BytewiseIsUnreduced(Adler32.Sums(1, 0), h);
  }

  /** The sums of the bytes h, each modulo 65521 and most significant byte first. */
  ghost predicate SumsTo(t0: byte, t1: byte, t2: byte, t3: byte, h: seq<byte>) {
    var u := Adler32.Unreduced(1, 0, h);
    256 * t0 + t1 == u.1 % 65521 && 256 * t2 + t3 == u.0 % 65521
  }

  /** The last four bytes of p are the sums of h. */
  ghost predicate EndsInSums(p: seq<nat>, h: seq<byte>) {
    var n := |p|;
    n >= 4 && p[n - 4] < 256 && p[n - 3] < 256 && p[n - 2] < 256 && p[n - 1] < 256
    && SumsTo(p[n - 4], p[n - 3], p[n - 2], p[n - 1], h)
  }

  lemma TrailerSums(p: seq<nat>, h: seq<byte>)
    ensures EndsInSums(p + (Msb(Check(h) / 65536) + Msb(Check(h) % 65536)), h)
  {
    hide Check, Adler32.Unreduced;
    CheckNumbers(h);
    var u, c := Adler32.Unreduced(1, 0, h), Check(h);
    assert c / 65536 == u.1 % 65521 && c % 65536 == u.0 % 65521;
  }

  /** After the last block of a wrapped stream the next four bytes decide. */
  lemma CheckDecides(c: Machine, t0: byte, t1: byte, t2: byte, t3: byte, rest: seq<bool>)
    requires Proper(c) && c.mode == CHECK && c.wrap
    ensures Run(c, BitsOf([t0, t1, t2, t3]) + rest) == c.(mode := if SumsTo(t0, t1, t2, t3, c.history) then DONE else BAD)
  {
    hide Run, Next, Proper, Field, Swap, Check, BitsOf, Adler32.Unreduced;
    var b := BitsOf([t0, t1, t2, t3]) + rest;
    TrailerField(t0, t1, t2, t3, rest);
    CheckNumbers(c.history);
    NextIs(c, b);
    RunStep(c, b);
    RunBad(c.(mode := if SumsTo(t0, t1, t2, t3, c.history) then DONE else BAD), rest);
  }

  /** On its way through the stream b machine m comes to machine c, with the stream `rest` before it. */
  ghost predicate Passes(m: Machine, b: seq<bool>, c: Machine, rest: seq<bool>)
    requires Proper(m)
    decreases |b|, Inflation.Rank(m.mode), m.length
  {
    || (m == c && b == rest)
    || (NextProper(m, b);
        match Next(m, b)
        case Wait => false
        case Take(n, next) => if n == 0 then NextDescends(m, b); Passes(next, b, c, rest) else Passes(next, b[n..], c, rest))
  }

  lemma PassesStep(m: Machine, b: seq<bool>, c: Machine, rest: seq<bool>)
    requires Proper(m)
    ensures Next(m, b).Take? ==> Next(m, b).n <= |b| && Proper(Next(m, b).next)
    ensures Passes(m, b, c, rest) <==>
      (m == c && b == rest) || (Next(m, b).Take? && Passes(Next(m, b).next, b[Next(m, b).n..], c, rest))
  {
    hide Next, Proper;
    NextProper(m, b);
    assert b[0..] == b;
  }

  lemma {:induction false} PassesRuns(m: Machine, b: seq<bool>, c: Machine, rest: seq<bool>)
    requires Proper(m) && Passes(m, b, c, rest)
    ensures Proper(c) && Run(m, b) == Run(c, rest) && c.wrap == m.wrap
    decreases |b|, Inflation.Rank(m.mode), m.length
  {
    hide Next, Proper, Run, Passes, Inflation.Rank;
    PassesStep(m, b, c, rest);
    if !(m == c && b == rest) {
      var n, next := Next(m, b).n, Next(m, b).next;
      RunStep(m, b);
      WrapStays(m, b);
      if n == 0 {
        NextDescends(m, b);
        assert b[0..] == b;
      }
      PassesRuns(next, b[n..], c, rest);
    }
  }

  ghost predicate KeepsWrap(m: Machine, s: Step) {
    s.Take? ==> s.next.wrap == m.wrap && (s.next.mode == DONE ==> m.mode == CHECK)
  }

  lemma FieldStepsKeepWrap(m: Machine, b: seq<bool>)
    ensures KeepsWrap(m, HeadStep(m, b)) && KeepsWrap(m, TypeStep(m, b)) && KeepsWrap(m, StoredStep(m, b))
    ensures m.mode == COPY ==> KeepsWrap(m, CopyStep(m, b))
    ensures KeepsWrap(m, TableStep(m, b)) && (m.mode == LENLENS ==> KeepsWrap(m, LenLensStep(m, b)))
    ensures m.mode == CHECK ==> KeepsWrap(m, CheckStep(m, b))
    ensures KeepsWrap(m, LenExtStep(m, b)) && KeepsWrap(m, DistExtStep(m, b)) && KeepsWrap(m, MatchStep(m))
      && KeepsWrap(m, LitStep(m))
  {
    hide Field, Acceptable, Permuted, GoodHeader, Shr, Low, Xor, Swap, Check, FixedLengths, FixedDistances, Pow2;
  }

  lemma SymbolStepsKeepWrap(m: Machine, b: seq<bool>)
    requires Proper(m)
    ensures m.mode == CODELENS ==> KeepsWrap(m, CodeLensStep(m, b))
    ensures m.mode == LEN ==> KeepsWrap(m, LenStep(m, b))
    ensures m.mode == DIST ==> KeepsWrap(m, DistStep(m, b))
  {
    hide Field, Acceptable, Bitstring, Repeat, LBase, LExt, DBase, DExt, Pow2;
  }

  lemma WrapStays(m: Machine, b: seq<bool>)
    requires Proper(m) && Next(m, b).Take?
    ensures Next(m, b).next.wrap == m.wrap && (Next(m, b).next.mode == DONE ==> m.mode == CHECK)
  {
    hide Proper, HeadStep, TypeStep, StoredStep, CopyStep, TableStep, LenLensStep, CodeLensStep, LenStep, LenExtStep, DistStep,
         DistExtStep, MatchStep, LitStep, CheckStep;
    FieldStepsKeepWrap(m, b);
    SymbolStepsKeepWrap(m, b);
  }

  /** The blocks have come to their end, and the next four bytes are the sums of the output. */
  ghost predicate EndsAt(b: seq<bool>, c: Machine, t0: byte, t1: byte, t2: byte, t3: byte, rest: seq<bool>) {
    && Proper(Start(true)) && Passes(Start(true), b, c, BitsOf([t0, t1, t2, t3]) + rest) && c.mode == CHECK
    && SumsTo(t0, t1, t2, t3, c.history)
  }

  /** The first 32 bits of a stream are four bytes. */
  lemma FourBytes(b: seq<bool>) returns (t0: byte, t1: byte, t2: byte, t3: byte)
    requires |b| >= 32
    ensures b == BitsOf([t0, t1, t2, t3]) + b[32..]
  {
    hide ValueOf, Pow2, BitsOf, LsbBits;
    t0, t1, t2, t3 := ByteOf(b[..8]), ByteOf(b[8..16]), ByteOf(b[16..24]), ByteOf(b[24..32]);
    ByteBits(t0, [t1, t2, t3]);
    ByteBits(t1, [t2, t3]);
    ByteBits(t2, [t3]);
    ByteBits(t3, []);
    BitsOfNothing();
    assert [t0] + [t1, t2, t3] == [t0, t1, t2, t3] && [t1] + [t2, t3] == [t1, t2, t3] && [t2] + [t3] == [t2, t3] && [t3] + [] == [t3];
    assert BitsOf([t0, t1, t2, t3]) == b[..8] + (b[8..16] + (b[16..24] + (b[24..32] + [])));
    assert b == b[..8] + (b[8..16] + (b[16..24] + (b[24..32] + []))) + b[32..];
  }

  function ByteOf(b: seq<bool>): (x: byte)
    requires |b| == 8
    ensures LsbBits(x, 8) == b
  {
    Pow2Values();
    LsbOfValue(b);
    ValueOf(b)
  }

  lemma ByteBits(x: byte, rest: seq<byte>)
    ensures BitsOf([x] + rest) == LsbBits(x, 8) + BitsOf(rest)
  {
    hide LsbBits;
    assert ([x] + rest)[1..] == rest;
  }

  lemma BitsOfNothing()
    ensures BitsOf([]) == []
  {
  }

  /** A wrapped machine that comes to a good end has come to the check value first, with the right four bytes. */
  lemma {:induction false} DonePasses(m: Machine, b: seq<bool>) returns (c: Machine, t0: byte, t1: byte, t2: byte, t3: byte, rest: seq<bool>)
    requires Proper(m) && m.wrap && m.mode != DONE && Run(m, b).mode == DONE
    ensures Passes(m, b, c, BitsOf([t0, t1, t2, t3]) + rest) && c.mode == CHECK
    ensures SumsTo(t0, t1, t2, t3, c.history) && c.history == Run(m, b).history
    decreases |b|, Inflation.Rank(m.mode), m.length
  {
    hide Next, Proper, Run, Passes, Inflation.Rank, BitsOf, SumsTo;
    if Next(m, b).Wait? {
      RunWaits(m, b);
    } else if m.mode == CHECK {
      CheckTakes(m, b);
      t0, t1, t2, t3 := FourBytes(b);
      c, rest := m, b[32..];
      CheckDecides(m, t0, t1, t2, t3, rest);
      PassesStep(m, b, m, b);
    } else {
      var n, next := Next(m, b).n, Next(m, b).next;
      RunStep(m, b);
      WrapStays(m, b);
      if n == 0 {
        NextDescends(m, b);
        assert b[0..] == b;
      }
      c, t0, t1, t2, t3, rest := DonePasses(next, b[n..]);
      PassesStep(m, b, c, BitsOf([t0, t1, t2, t3]) + rest);
    }
  }

  lemma CheckTakes(m: Machine, b: seq<bool>)
    requires Proper(m) && m.mode == CHECK && m.wrap && Next(m, b).Take?
    ensures |b| >= 32
  {
    hide Proper, Field, Swap, Check;
    NextIs(m, b);
  }

  /** A wrapped stream decodes well exactly if its blocks come to an end and the next four bytes are the two sums of the output: the
      second one first, most significant byte first. */
  lemma DoneIff(b: seq<bool>)
    ensures Proper(Start(true))
    ensures Run(Start(true), b).mode == DONE <==>
      exists c: Machine, t0: byte, t1: byte, t2: byte, t3: byte, rest: seq<bool> :: EndsAt(b, c, t0, t1, t2, t3, rest)
    ensures forall c: Machine, t0: byte, t1: byte, t2: byte, t3: byte, rest: seq<bool> ::
      EndsAt(b, c, t0, t1, t2, t3, rest) ==> Run(Start(true), b).history == c.history
  {
    hide Run, Proper, Passes, BitsOf, SumsTo;
    StartsProper();
    if Run(Start(true), b).mode == DONE {
      var c, t0, t1, t2, t3, rest := DonePasses(Start(true), b);
      assert EndsAt(b, c, t0, t1, t2, t3, rest);
    }
    forall c: Machine, t0: byte, t1: byte, t2: byte, t3: byte, rest: seq<bool> | EndsAt(b, c, t0, t1, t2, t3, rest)
      ensures Run(Start(true), b).mode == DONE && Run(Start(true), b).history == c.history
    {
      PassesRuns(Start(true), b, c, BitsOf([t0, t1, t2, t3]) + rest);
      CheckDecides(c, t0, t1, t2, t3, rest);
    }
  }

  /** With any other four bytes in that place it ends in error. */
  lemma OtherwiseBad(b: seq<bool>, c: Machine, t0: byte, t1: byte, t2: byte, t3: byte, rest: seq<bool>)
    requires Proper(Start(true)) && Passes(Start(true), b, c, BitsOf([t0, t1, t2, t3]) + rest) && c.mode == CHECK
    requires !SumsTo(t0, t1, t2, t3, c.history)
    ensures Run(Start(true), b).mode == BAD
  {
    hide Run, Proper, Passes, BitsOf, SumsTo;
    PassesRuns(Start(true), b, c, BitsOf([t0, t1, t2, t3]) + rest);
    CheckDecides(c, t0, t1, t2, t3, rest);
  }
}
