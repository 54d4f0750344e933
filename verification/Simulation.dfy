/** How a decoder that works in bits and pieces is compared with the machine that reads a whole stream. */
module Simulation {
  import opened Bits
  import opened Canonical
  import opened InfTrees
  import opened Streams
  import opened DecodeTables
  import opened Reading
  import opened Inflation

  /** The one machine with stream b and the other with stream c come to the same end, whatever bytes follow. */
  ghost predicate Simulates(m: Machine, b: seq<bool>, n: Machine, c: seq<bool>) {
    && Proper(m) && Proper(n)
    && forall more: seq<bool> {:trigger SameEnd(m, b, n, c, more)} :: |more| % 8 == 0 ==> SameEnd(m, b, n, c, more)
  }

  ghost predicate SameEnd(m: Machine, b: seq<bool>, n: Machine, c: seq<bool>, more: seq<bool>)
    requires Proper(m) && Proper(n)
  {
    Run(m, b + more) == Run(n, c + more)
  }

  lemma SimulatesSelf(m: Machine, b: seq<bool>)
    requires Proper(m)
    ensures Simulates(m, b, m, b)
  {
    hide Run, Proper;
  }

  lemma SimulatesOn(m: Machine, b: seq<bool>, n: Machine, c: seq<bool>, k: Machine, d: seq<bool>)
    requires Simulates(m, b, n, c) && Simulates(n, c, k, d)
    ensures Simulates(m, b, k, d)
  {
    hide Run, Proper;
    forall more: seq<bool> {:trigger SameEnd(m, b, k, d, more)} | |more| % 8 == 0 ensures SameEnd(m, b, k, d, more) {
      assert SameEnd(m, b, n, c, more) && SameEnd(n, c, k, d, more);
    }
  }

  /** More input on both sides. */
  lemma SimulatesMore(m: Machine, b: seq<bool>, n: Machine, c: seq<bool>, more: seq<bool>)
    requires Simulates(m, b, n, c) && |more| % 8 == 0
    ensures Simulates(m, b + more, n, c + more)
  {
    hide Run, Proper;
    forall yet: seq<bool> {:trigger SameEnd(m, b + more, n, c + more, yet)} | |yet| % 8 == 0
      ensures SameEnd(m, b + more, n, c + more, yet)
    {
      assert SameEnd(m, b, n, c, more + yet);
      assert b + more + yet == b + (more + yet) && c + more + yet == c + (more + yet);
    }
  }

  /** A step that the bits at hand allow. */
  lemma Stepped(m: Machine, held: seq<bool>, rest: seq<bool>)
    requires Proper(m) && Next(m, held).Take? && |rest| % 8 == 0
    ensures Next(m, held).n <= |held|
    ensures Simulates(m, held + rest, Next(m, held).next, held[Next(m, held).n..] + rest)
  {
    hide Run, Proper, Next;
    NextProper(m, held);
    var n, next := Next(m, held).n, Next(m, held).next;
    forall more: seq<bool> {:trigger SameEnd(m, held + rest, next, held[n..] + rest, more)} | |more| % 8 == 0
      ensures SameEnd(m, held + rest, next, held[n..] + rest, more)
    {
      assert held + rest + more == held + (rest + more);
      NextStable(m, held, rest + more);
      RunStep(m, held + (rest + more));
      assert (held + (rest + more))[n..] == held[n..] + rest + more;
    }
  }

  /** After a step to a final state it does not matter what is left of the stream. */
  lemma SteppedFinal(m: Machine, held: seq<bool>, rest: seq<bool>, c: seq<bool>)
    requires Proper(m) && Next(m, held).Take? && |rest| % 8 == 0 && Final(Next(m, held).next.mode)
    ensures Simulates(m, held + rest, Next(m, held).next, c)
  {
    hide Run, Proper, Next, Final;
    Stepped(m, held, rest);
    var n, next := Next(m, held).n, Next(m, held).next;
    forall more: seq<bool> {:trigger SameEnd(m, held + rest, next, c, more)} | |more| % 8 == 0
      ensures SameEnd(m, held + rest, next, c, more)
    {
      assert SameEnd(m, held + rest, next, held[n..] + rest, more);
      FinalEnds(next, held[n..] + rest + more);
      FinalEnds(next, c + more);
    }
  }

  lemma FinalEnds(m: Machine, b: seq<bool>)
    requires Proper(m) && Final(m.mode)
    ensures Run(m, b) == m
  {
    RunWaits(m, b);
  }

  /** In front of a stored block, bits up to the byte boundary may be dropped beforehand. */
  lemma AlignStored(m: Machine, b: seq<bool>, rest: seq<bool>)
    requires Proper(m) && m.mode == STORED && |rest| % 8 == 0
    ensures Simulates(m, b + rest, m, b[|b| % 8..] + rest)
  {
    hide Run, Proper, Next;
    var k := |b| % 8;
    forall more: seq<bool> {:trigger SameEnd(m, b + rest, m, b[k..] + rest, more)} | |more| % 8 == 0
      ensures SameEnd(m, b + rest, m, b[k..] + rest, more)
    {
      var s, t := b + rest + more, b[k..] + rest + more;
      assert t == s[k..] && |s| % 8 == k;
      StoredShift(m, s, t);
      if |t| >= 32 {
        RunStep(m, s);
        RunStep(m, t);
        assert t[32..] == s[k + 32..];
      } else {
        RunWaits(m, s);
        RunWaits(m, t);
      }
    }
  }

  lemma StoredShift(m: Machine, s: seq<bool>, t: seq<bool>)
    requires Proper(m) && m.mode == STORED && t == s[|s| % 8..]
    ensures |t| < 32 ==> Next(m, s).Wait? && Next(m, t).Wait?
    ensures |t| >= 32 ==>
      Next(m, s).Take? && Next(m, s).n == |s| % 8 + 32 && Next(m, t) == Take(32, Next(m, s).next)
  {
    hide Proper, Field, Next, Low, Shr, Xor, Pow2;
    NextIs(m, s);
    NextIs(m, t);
    assert t[0..] == t;
  }

  /** A machine that waits has come to its end. */
  lemma SimulatesEnd(m: Machine, b: seq<bool>, n: Machine, c: seq<bool>)
    requires Simulates(m, b, n, c) && Next(n, c).Wait?
    ensures Run(m, b) == n
  {
    hide Run, Proper, Next;
    assert SameEnd(m, b, n, c, []);
    assert b + [] == b && c + [] == c;
    RunWaits(n, c);
  }

  // ---------------------------------------------------------------- a decoder in step with the machine

  /** After the bytes `seen` the machine is m, with the accumulator's bits before it. */
  ghost predicate Synced(wrap: bool, seen: seq<byte>, m: Machine, hold: nat, bits: nat) {
    Proper(Start(wrap)) && Simulates(Start(wrap), BitsOf(seen), m, LsbBits(hold, bits))
  }

  lemma SyncedStart(wrap: bool)
    ensures Synced(wrap, [], Start(wrap), 0, 0)
  {
    SimulatesSelf(Start(wrap), []);
  }

  lemma SyncedPull(wrap: bool, seen: seq<byte>, m: Machine, hold: nat, bits: nat, b: byte)
    requires Synced(wrap, seen, m, hold, bits) && Holds(hold, bits)
    ensures Holds(hold + Shl(b, bits), bits + 8) && Synced(wrap, seen + [b], m, hold + Shl(b, bits), bits + 8)
  {
    hide Simulates, LsbBits, Shl, BitsOf, Pow2, Proper;
    PullByte(hold, bits, b);
    SimulatesMore(Start(wrap), BitsOf(seen), m, LsbBits(hold, bits), LsbBits(b, 8));
    BitsOfAppend(seen, [b]);
    OneByteBits(b);
  }

  lemma OneByteBits(b: nat)
    ensures BitsOf([b]) == LsbBits(b, 8)
  {
    hide LsbBits;
    assert [b][1..] == [];
  }

  lemma SyncedStep(wrap: bool, seen: seq<byte>, m: Machine, hold: nat, bits: nat, n: nat, next: Machine)
    requires Synced(wrap, seen, m, hold, bits) && Holds(hold, bits)
    requires Proper(m) && Next(m, LsbBits(hold, bits)) == Take(n, next)
    ensures n <= bits && Holds(Shr(hold, n), bits - n) && Proper(next) && Synced(wrap, seen, next, Shr(hold, n), bits - n)
  {
    hide LsbBits, Shr, BitsOf, Pow2, Proper, Run, Next;
    var held := LsbBits(hold, bits);
    Stepped(m, held, []);
    assert held + [] == held && held[n..] + [] == held[n..];
    DropBits(hold, bits, n);
    SimulatesOn(Start(wrap), BitsOf(seen), m, held, next, held[n..]);
  }

  lemma SyncedFinal(wrap: bool, seen: seq<byte>, m: Machine, hold: nat, bits: nat, n: nat, next: Machine, hold': nat, bits': nat)
    requires Synced(wrap, seen, m, hold, bits)
    requires Proper(m) && Next(m, LsbBits(hold, bits)) == Take(n, next) && Final(next.mode)
    ensures Proper(next) && Synced(wrap, seen, next, hold', bits')
  {
    hide LsbBits, Shr, BitsOf, Pow2, Proper, Run, Next, Final;
    var held := LsbBits(hold, bits);
    SteppedFinal(m, held, [], LsbBits(hold', bits'));
    assert held + [] == held;
    SimulatesOn(Start(wrap), BitsOf(seen), m, held, next, LsbBits(hold', bits'));
  }

  lemma SyncedAlign(wrap: bool, seen: seq<byte>, m: Machine, hold: nat, bits: nat)
    requires Synced(wrap, seen, m, hold, bits) && Holds(hold, bits) && Proper(m) && m.mode == STORED
    ensures Holds(Shr(hold, bits % 8), bits - bits % 8) && Synced(wrap, seen, m, Shr(hold, bits % 8), bits - bits % 8)
  {
    hide LsbBits, Shr, BitsOf, Pow2, Proper, Run, Next;
    var held, k := LsbBits(hold, bits), bits % 8;
    AlignStored(m, held, []);
    assert held + [] == held && held[k..] + [] == held[k..];
    DropBits(hold, bits, k);
    SimulatesOn(Start(wrap), BitsOf(seen), m, held, m, held[k..]);
  }

  lemma {:induction false} StoredBytes(m: Machine, s: seq<byte>)
    requires Proper(m) && m.mode == COPY && |s| <= m.length
    ensures var n := m.(length := m.length - |s|, history := m.history + s);
      Proper(n) && Simulates(m, BitsOf(s), n, [])
    decreases |s|
  {
    hide Simulates, LsbBits, Field, Pow2, Run;
    if s == [] {
      assert m.history + [] == m.history;
      SimulatesSelf(m, []);
    } else {
      var b, rest := s[0], BitsOf(s[1..]);
      var n := m.(length := m.length - 1, history := m.history + [b]);
      ByteStep(m, b);
      Stepped(m, LsbBits(b, 8), rest);
      assert LsbBits(b, 8)[8..] + rest == rest;
      StoredBytes(n, s[1..]);
      assert m.history + [b] + s[1..] == m.history + s;
      SimulatesOn(m, BitsOf(s), n, rest, n.(length := m.length - |s|, history := m.history + s), []);
    }
  }

  lemma ByteStep(m: Machine, b: byte)
    requires Proper(m) && m.mode == COPY && m.length > 0
    ensures Next(m, LsbBits(b, 8)) == Take(8, m.(length := m.length - 1, history := m.history + [b]))
  {
    hide Next, LsbBits, Pow2;
    NextIs(m, LsbBits(b, 8));
    Pow2Values();
    ValueOfLsb(b, 8);
    LowSmall(b, 8);
    assert LsbBits(b, 8)[..8] == LsbBits(b, 8);
  }

  /** Stored bytes that go by the accumulator. */
  lemma SyncedBytes(wrap: bool, seen: seq<byte>, m: Machine, s: seq<byte>)
    requires Synced(wrap, seen, m, 0, 0) && Proper(m) && m.mode == COPY && |s| <= m.length
    ensures var n := m.(length := m.length - |s|, history := m.history + s); Proper(n) && Synced(wrap, seen + s, n, 0, 0)
  {
    hide Simulates, BitsOf, Proper;
    var n := m.(length := m.length - |s|, history := m.history + s);
    SimulatesMore(Start(wrap), BitsOf(seen), m, LsbBits(0, 0), BitsOf(s));
    BitsOfAppend(seen, s);
    StoredBytes(m, s);
    assert LsbBits(0, 0) == [];
    assert LsbBits(0, 0) + BitsOf(s) == BitsOf(s);
    SimulatesOn(Start(wrap), BitsOf(seen + s), m, BitsOf(s), n, []);
  }

  /** The machine after k bytes of a match. */
  function Copied(m: Machine, k: nat): Machine
    requires m.mode == MATCH && k <= m.length && 1 <= m.offset <= |m.history|
  {
    m.(history := CopyBack(m.history, k, m.offset), length := m.length - k, mode := if k == m.length then LEN else MATCH)
  }

  /** One byte of a match needs no input. */
  lemma MatchNext(m: Machine, b: seq<bool>)
    requires Proper(m) && m.mode == MATCH
    ensures 1 <= m.length && 1 <= m.offset <= |m.history|
    ensures var n := m.(history := m.history + [m.history[|m.history| - m.offset]], length := m.length - 1,
                        mode := if m.length == 1 then LEN else MATCH);
      Proper(n) && Next(m, b) == Take(0, n)
  {
    hide Usable, HeadStep, TypeStep, StoredStep, CopyStep, TableStep, LenLensStep, CodeLensStep, LenStep, LenExtStep, DistStep,
         DistExtStep, LitStep, CheckStep, Pow2;
  }

  lemma {:induction false} MatchedBytes(m: Machine, k: nat, b: seq<bool>)
    requires Proper(m) && m.mode == MATCH && 0 < k <= m.length
    ensures 1 <= m.offset <= |m.history|
    ensures Proper(Copied(m, k)) && Simulates(m, b, Copied(m, k), b)
    decreases k
  {
    hide Simulates, Run, Next, Proper;
    MatchNext(m, b);
    var n := Next(m, b).next;
    Stepped(m, b, []);
    assert b + [] == b && b[0..] + [] == b;
    if k > 1 {
      MatchedBytes(n, k - 1, b);
      SimulatesOn(m, b, n, b, Copied(m, k), b);
    } else {
      assert CopyBack(n.history, 0, m.offset) == n.history;
    }
  }

  lemma SyncedMatch(wrap: bool, seen: seq<byte>, m: Machine, hold: nat, bits: nat, k: nat)
    requires Synced(wrap, seen, m, hold, bits) && Proper(m) && m.mode == MATCH && 0 < k <= m.length
    ensures 1 <= m.offset <= |m.history|
    ensures Proper(Copied(m, k)) && Synced(wrap, seen, Copied(m, k), hold, bits)
  {
    hide Simulates, BitsOf, LsbBits, CopyBack, Proper;
    MatchedBytes(m, k, LsbBits(hold, bits));
    SimulatesOn(Start(wrap), BitsOf(seen), m, LsbBits(hold, bits), Copied(m, k), LsbBits(hold, bits));
  }

  lemma {:induction false} CopyBackNext(h: seq<byte>, k: nat, d: nat)
    requires 1 <= d <= |h|
    ensures CopyBack(h, k + 1, d) == CopyBack(h, k, d) + [CopyBack(h, k, d)[|h| + k - d]]
    decreases k
  {
    if k > 0 {
      CopyBackNext(h + [h[|h| - d]], k - 1, d);
    }
  }

  /** A decoder that is in step and cannot go on has found all that its input determines. */
  lemma SyncedEnd(wrap: bool, seen: seq<byte>, m: Machine, hold: nat, bits: nat)
    requires Synced(wrap, seen, m, hold, bits) && Proper(m) && Next(m, LsbBits(hold, bits)).Wait?
    ensures Proper(Start(wrap)) && m == Run(Start(wrap), BitsOf(seen))
  {
    hide Run, Proper, Next;
    SimulatesEnd(Start(wrap), BitsOf(seen), m, LsbBits(hold, bits));
  }

  lemma SimulatesAt(m: Machine, b: seq<bool>, n: Machine, c: seq<bool>, more: seq<bool>)
    requires Simulates(m, b, n, c) && |more| % 8 == 0
    ensures Proper(m) && Proper(n) && Run(m, b + more) == Run(n, c + more)
  {
    hide Run, Proper;
    assert SameEnd(m, b, n, c, more);
  }

  /** What more input leads to. */
  lemma SyncedRun(wrap: bool, seen: seq<byte>, m: Machine, hold: nat, bits: nat, more: seq<byte>)
    requires Synced(wrap, seen, m, hold, bits) && Proper(m)
    ensures Proper(Start(wrap)) && Run(Start(wrap), BitsOf(seen + more)) == Run(m, LsbBits(hold, bits) + BitsOf(more))
  {
    hide Simulates, Run, Proper, BitsOf, LsbBits;
    BitsOfAppend(seen, more);
    SimulatesAt(Start(wrap), BitsOf(seen), m, LsbBits(hold, bits), BitsOf(more));
  }

  /** A final state stays, whatever input follows. */
  lemma SyncedDone(wrap: bool, seen: seq<byte>, m: Machine, hold: nat, bits: nat, more: seq<byte>)
    requires Synced(wrap, seen, m, hold, bits) && Proper(m) && Final(m.mode)
    ensures Proper(Start(wrap)) && m == Run(Start(wrap), BitsOf(seen + more))
  {
    hide Run, Proper, Next, Final, BitsOf, LsbBits, Pow2;
    BitsOfAppend(seen, more);
    assert SameEnd(Start(wrap), BitsOf(seen), m, LsbBits(hold, bits), BitsOf(more));
    FinalEnds(m, LsbBits(hold, bits) + BitsOf(more));
  }

  /** Whatever has been output is a beginning of what the input determines. */
  lemma SyncedPrefix(wrap: bool, seen: seq<byte>, m: Machine, hold: nat, bits: nat, more: seq<byte>)
    requires Synced(wrap, seen, m, hold, bits) && Proper(m)
    ensures Proper(Start(wrap)) && m.history <= Run(Start(wrap), BitsOf(seen + more)).history
  {
    hide Run, Proper, Next, Final, BitsOf, LsbBits, Pow2;
    BitsOfAppend(seen, more);
    assert SameEnd(Start(wrap), BitsOf(seen), m, LsbBits(hold, bits), BitsOf(more));
    HistoryGrows(m, LsbBits(hold, bits) + BitsOf(more));
  }

  lemma {:induction false} HistoryGrows(m: Machine, b: seq<bool>)
    requires Proper(m)
    ensures m.history <= Run(m, b).history
    decreases |b|, Inflation.Rank(m.mode), m.length
  {
    hide Proper, Next, Inflation.Rank;
    if Next(m, b).Take? {
      NextProper(m, b);
      NextAppends(m, b);
      RunStep(m, b);
      var n, next := Next(m, b).n, Next(m, b).next;
      if n == 0 {
        NextDescends(m, b);
        assert b[0..] == b;
      }
      HistoryGrows(next, b[n..]);
    } else {
      RunWaits(m, b);
    }
  }

  ghost predicate Appends(m: Machine, s: Step) {
    s.Take? ==> m.history <= s.next.history
  }

  lemma FieldStepsAppend(m: Machine, b: seq<bool>)
    ensures Appends(m, HeadStep(m, b)) && Appends(m, TypeStep(m, b)) && Appends(m, StoredStep(m, b))
      && Appends(m, CopyStep(m, b))
    ensures Appends(m, TableStep(m, b)) && Appends(m, LenLensStep(m, b)) && Appends(m, CheckStep(m, b))
    ensures Appends(m, LenExtStep(m, b)) && Appends(m, DistExtStep(m, b)) && Appends(m, MatchStep(m))
      && Appends(m, LitStep(m))
  {
    hide Field, Acceptable, Permuted, GoodHeader, Shr, Low, Xor, Swap, Check, FixedLengths, FixedDistances, Pow2;
  }

  lemma SymbolStepsAppend(m: Machine, b: seq<bool>)
    requires Proper(m)
    ensures m.mode == CODELENS ==> Appends(m, CodeLensStep(m, b))
    ensures m.mode == LEN ==> Appends(m, LenStep(m, b))
    ensures m.mode == DIST ==> Appends(m, DistStep(m, b))
  {
    hide Field, Acceptable, Bitstring, Repeat, LBase, LExt, DBase, DExt, Pow2;
  }

  lemma NextAppends(m: Machine, b: seq<bool>)
    requires Proper(m) && Next(m, b).Take?
    ensures m.history <= Next(m, b).next.history
  {
    hide Proper, HeadStep, TypeStep, StoredStep, CopyStep, TableStep, LenLensStep, CodeLensStep, LenStep, LenExtStep, DistStep,
         DistExtStep, MatchStep, LitStep, CheckStep;
    FieldStepsAppend(m, b);
    SymbolStepsAppend(m, b);
  }
}
