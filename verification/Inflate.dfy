/** inflate() of src/ext/zlib/inflate.c: a decoder that may be suspended wherever its input or its output space ends. Its
    state is tied to the machine that reads whole streams, so that nothing depends on where it was suspended. */
module Inflate {
  import opened Bits
  import opened Canonical
  import opened Reversal
  import opened Streams
  import opened DecodeTables
  import opened InfTrees
  import opened Reading
  import opened Inflation
  import opened Simulation
  import opened Window
  import opened Checking
  import Adler32

  // ---------------------------------------------------------------- how the state stands for the machine

  predicate Coding(mode: Mode) {
    mode == LEN || mode == LENEXT || mode == DIST || mode == DISTEXT || mode == MATCH || mode == LIT
  }

  /** The states in which output may still be copied from the history. */
  predicate Early(mode: Mode) {
    mode != CHECK && mode != DONE && mode != BAD
  }

  /** The scalar fields that matter in each state. */
  ghost predicate Matched(m: Machine, bits: nat, have: nat, nlen: nat, ndist: nat, ncode: nat, length: nat, offset: nat,
                          extra: nat)
  {
    match m.mode
    case HEAD => (bits == 0 || bits == 8) && m.history == []
    case DICTID => bits % 8 == 0 && m.history == []
    case DICT => m.history == []
    case CHECK => bits % 8 == 0
    case COPY => bits == 0 && length == m.length
    case LENLENS => nlen == m.nlen && ndist == m.ndist && ncode == m.ncode && have == |m.lens|
    case CODELENS => nlen == m.nlen && ndist == m.ndist && have == |m.lens|
    case LENEXT => length == m.length && extra == m.extra
    case DIST => length == m.length
    case DISTEXT => length == m.length && offset == m.offset && extra == m.extra
    case MATCH => length == m.length && offset == m.offset
    case LIT => length == m.length
    case _ => true
  }

  /** The output of this call follows what has been output before it. */
  ghost predicate Follows(history: seq<byte>, base: seq<byte>, output: seq<byte>, put: nat, left: nat, out: nat) {
    && left <= out && out - left <= put && put + left <= |output|
    && history == base + output[put - (out - left)..put]
  }

  // ---------------------------------------------------------------- the accumulator

  /** A field of the accumulator is a field of the stream. */
  lemma PeekIs(hold: nat, bits: nat, i: nat, n: nat)
    requires Holds(hold, bits) && i + n <= bits
    ensures Low(Shr(hold, i), n) == Field(LsbBits(hold, bits)[i..], n)
    ensures i == 0 ==> Low(hold, n) == Field(LsbBits(hold, bits), n)
  {
    hide LsbBits, Shr, Pow2, Low, Field;
    DropBits(hold, bits, i);
    TakeBits(Shr(hold, i), bits - i, n);
    TakeBits(hold, bits, n);
  }

  // ---------------------------------------------------------------- the machine's steps in terms of the accumulator

  /** Too few bits for the next step. */
  lemma ShortWaits(m: Machine, b: seq<bool>)
    requires Proper(m)
    requires (m.mode == HEAD && m.wrap && |b| < 16) || (m.mode == DICTID && |b| < 32) || (m.mode == TYPE && !m.last && |b| < 3)
      || (m.mode == TABLE && |b| < 14) || (m.mode == LENLENS && |m.lens| < m.ncode && |b| < 3)
      || (m.mode == LENEXT && |b| < m.extra) || (m.mode == DISTEXT && |b| < m.extra) || (m.mode == CHECK && m.wrap && |b| < 32)
      || (m.mode == STORED && |b| < |b| % 8 + 32) || (m.mode == COPY && m.length > 0 && |b| < 8)
    ensures Next(m, b) == Wait
  {
    hide Usable, Field, Permuted, Acceptable, Pow2, CodeLensStep, LenStep, DistStep, MatchStep, LitStep;
  }

  lemma HeadTakes(m: Machine, hold: nat, bits: nat)
    requires Proper(m) && m.mode == HEAD && Holds(hold, bits) && (!m.wrap || bits == 16)
    ensures !m.wrap ==> Next(m, LsbBits(hold, bits)) == Take(0, m.(mode := TYPE))
    ensures m.wrap ==>
      Next(m, LsbBits(hold, bits)) ==
        Take(16, m.(mode := if !GoodHeader(hold) then BAD else if Shr(hold, 13) % 2 == 1 then DICTID else TYPE))
  {
    hide GoodHeader, Shr, LsbBits, Pow2, TypeStep, StoredStep, CopyStep, TableStep, LenLensStep, CodeLensStep, LenStep, LenExtStep,
         DistStep, DistExtStep, MatchStep, LitStep, CheckStep, Field;
    if m.wrap {
      WholeField(hold, bits);
    }
  }

  lemma WholeField(hold: nat, bits: nat)
    requires Holds(hold, bits)
    ensures Field(LsbBits(hold, bits), bits) == hold
  {
    hide LsbBits, Pow2;
    TakeBits(hold, bits, bits);
    LowSmall(hold, bits);
  }

  lemma DictIdTakes(m: Machine, b: seq<bool>)
    requires Proper(m) && m.mode == DICTID && |b| == 32
    ensures Next(m, b) == Take(32, m.(mode := DICT))
  {
    hide HeadStep, TypeStep, StoredStep, CopyStep, TableStep, LenLensStep, CodeLensStep, LenStep, LenExtStep,
         DistStep, DistExtStep, MatchStep, LitStep, CheckStep;
  }

  /** The machine at the start of a block of type t. */
  function Typed(m: Machine, t: nat): Machine {
    if t == 0 then m.(mode := STORED)
    else if t == 1 then m.(mode := LEN, ll := FixedLengths(), dd := FixedDistances())
    else if t == 2 then m.(mode := TABLE)
    else m.(mode := BAD)
  }

  lemma TypeTakes(m: Machine, hold: nat, bits: nat)
    requires Proper(m) && m.mode == TYPE && Holds(hold, bits) && (m.last || bits >= 3)
    ensures m.last ==> Next(m, LsbBits(hold, bits)) == Take(bits % 8, m.(mode := CHECK))
    ensures !m.last ==>
      Next(m, LsbBits(hold, bits)) == Take(3, Typed(m.(last := Low(hold, 1) == 1), Low(Shr(hold, 1), 2)))
  {
    hide Shr, LsbBits, Pow2, HeadStep, StoredStep, CopyStep, TableStep, LenLensStep, CodeLensStep, LenStep, LenExtStep,
         DistStep, DistExtStep, MatchStep, LitStep, CheckStep, Field, FixedLengths, FixedDistances, Low;
    if !m.last {
      PeekIs(hold, bits, 1, 2);
      FirstBit(hold, bits);
      FieldBelow(LsbBits(hold, bits)[1..], 2);
    }
  }

  lemma FieldBelow(b: seq<bool>, n: nat)
    requires n == 2 <= |b|
    ensures Field(b, 2) < 4
  {
    Pow2Values();
  }

  lemma FirstBit(hold: nat, bits: nat)
    requires bits > 0
    ensures LsbBits(hold, bits)[0] == (Low(hold, 1) == 1)
  {
    assert Low(hold / 2, 0) == 0;
  }

  lemma StoredTakes(m: Machine, hold: nat, bits: nat)
    requires Proper(m) && m.mode == STORED && Holds(hold, bits) && bits == 32
    ensures Next(m, LsbBits(hold, bits)) ==
      Take(32, if Low(hold, 16) != Xor(Shr(hold, 16), 0xffff) then m.(mode := BAD)
               else m.(mode := COPY, length := Low(hold, 16)))
  {
    hide Shr, LsbBits, Pow2, HeadStep, TypeStep, CopyStep, TableStep, LenLensStep, CodeLensStep, LenStep, LenExtStep,
         DistStep, DistExtStep, MatchStep, LitStep, CheckStep, Field, Low, Xor;
    WholeField(hold, bits);
    var b := LsbBits(hold, bits);
    assert b[0..] == b;
  }

  lemma CopyEnds(m: Machine, b: seq<bool>)
    requires Proper(m) && m.mode == COPY && m.length == 0
    ensures Next(m, b) == Take(0, m.(mode := TYPE))
  {
    hide HeadStep, TypeStep, StoredStep, TableStep, LenLensStep, CodeLensStep, LenStep, LenExtStep,
         DistStep, DistExtStep, MatchStep, LitStep, CheckStep;
  }

  lemma TableTakes(m: Machine, hold: nat, bits: nat)
    requires Proper(m) && m.mode == TABLE && Holds(hold, bits) && bits >= 14
    ensures var nlen, ndist := Low(hold, 5) + 257, Low(Shr(hold, 5), 5) + 1;
      Next(m, LsbBits(hold, bits)) ==
        Take(14, m.(nlen := nlen, ndist := ndist, ncode := Low(Shr(hold, 10), 4) + 4, lens := [],
                    mode := if nlen > 286 || ndist > 30 then BAD else LENLENS))
  {
    hide Shr, LsbBits, Pow2, HeadStep, TypeStep, StoredStep, CopyStep, LenLensStep, CodeLensStep, LenStep, LenExtStep,
         DistStep, DistExtStep, MatchStep, LitStep, CheckStep, Field, Low;
    PeekIs(hold, bits, 0, 5);
    PeekIs(hold, bits, 5, 5);
    PeekIs(hold, bits, 10, 4);
  }

  lemma LenLensTakes(m: Machine, hold: nat, bits: nat)
    requires Proper(m) && m.mode == LENLENS && |m.lens| < m.ncode && Holds(hold, bits) && bits >= 3
    ensures Next(m, LsbBits(hold, bits)) == Take(3, m.(lens := m.lens + [Low(hold, 3)]))
  {
    hide Shr, LsbBits, Pow2, HeadStep, TypeStep, StoredStep, CopyStep, TableStep, CodeLensStep, LenStep, LenExtStep,
         DistStep, DistExtStep, MatchStep, LitStep, CheckStep, Field, Low, Acceptable, Permuted;
    PeekIs(hold, bits, 0, 3);
  }

  lemma LenLensEnds(m: Machine, b: seq<bool>)
    requires Proper(m) && m.mode == LENLENS && |m.lens| == m.ncode
    ensures var cl := Permuted(m.lens);
      Next(m, b) == Take(0, m.(lens := [], ll := cl, mode := if Acceptable(CODES, cl) then CODELENS else BAD))
  {
    hide HeadStep, TypeStep, StoredStep, CopyStep, TableStep, CodeLensStep, LenStep, LenExtStep,
         DistStep, DistExtStep, MatchStep, LitStep, CheckStep, Field, Acceptable, Permuted;
  }

  lemma CodeLensIs(m: Machine, b: seq<bool>)
    requires Proper(m) && m.mode == CODELENS
    ensures Next(m, b) == CodeLensStep(m, b)
  {
    hide HeadStep, TypeStep, StoredStep, CopyStep, TableStep, LenLensStep, CodeLensStep, LenStep, LenExtStep,
         DistStep, DistExtStep, MatchStep, LitStep, CheckStep, Proper;
  }

  lemma LenIs(m: Machine, b: seq<bool>)
    requires Proper(m)
    ensures m.mode == LEN ==> Next(m, b) == LenStep(m, b)
    ensures m.mode == DIST ==> Next(m, b) == DistStep(m, b)
    ensures m.mode == LIT ==> Next(m, b) == LitStep(m)
  {
    hide HeadStep, TypeStep, StoredStep, CopyStep, TableStep, LenLensStep, CodeLensStep, LenStep, LenExtStep,
         DistStep, DistExtStep, MatchStep, LitStep, CheckStep, Proper;
  }

  /** The extra bits of a length or a distance are known to be v. */
  ghost function Extended(m: Machine, v: nat): Machine {
    if m.mode == LENEXT then m.(mode := DIST, length := m.length + v)
    else m.(offset := m.offset + v, tokens := m.tokens + [Match(m.length, m.offset + v)],
            mode := if m.offset + v > |m.history| then BAD else MATCH)
  }

  lemma ExtendedIs(m: Machine, v: nat)
    ensures Extended(m, v).wrap == m.wrap && Extended(m, v).history == m.history
    ensures m.mode == LENEXT ==> Extended(m, v) == m.(mode := DIST, length := m.length + v)
    ensures m.mode == DISTEXT ==>
      Extended(m, v) == m.(offset := m.offset + v, tokens := m.tokens + [Match(m.length, m.offset + v)],
                           mode := if m.offset + v > |m.history| then BAD else MATCH)
  {
  }

  lemma ExtraTakes(m: Machine, hold: nat, bits: nat)
    requires Proper(m) && (m.mode == LENEXT || m.mode == DISTEXT) && Holds(hold, bits) && bits >= m.extra
    ensures Next(m, LsbBits(hold, bits)) == Take(m.extra, Extended(m, Low(hold, m.extra)))
  {
    hide Shr, LsbBits, Pow2, HeadStep, TypeStep, StoredStep, CopyStep, TableStep, LenLensStep, CodeLensStep, LenStep,
         DistStep, MatchStep, LitStep, CheckStep, Field, Low, Usable;
    PeekIs(hold, bits, 0, m.extra);
  }

  lemma CheckTakes(m: Machine, hold: nat, bits: nat)
    requires Proper(m) && m.mode == CHECK && Holds(hold, bits) && (!m.wrap || bits == 32)
    ensures !m.wrap ==> Next(m, LsbBits(hold, bits)) == Take(0, m.(mode := DONE))
    ensures m.wrap ==>
      Next(m, LsbBits(hold, bits)) == Take(32, m.(mode := if Swap(hold) == Check(m.history) then DONE else BAD))
  {
    hide Shr, LsbBits, Pow2, HeadStep, TypeStep, StoredStep, CopyStep, TableStep, LenLensStep, CodeLensStep, LenStep, LenExtStep,
         DistStep, DistExtStep, MatchStep, LitStep, Field, Swap, Check;
    if m.wrap {
      WholeField(hold, bits);
    }
  }

  // ---------------------------------------------------------------- turns of the loop

  /** The machine m has read the bytes `seen` but for the bits in the accumulator. */
  ghost predicate Fine(wrap: bool, m: Machine, seen: seq<byte>, hold: nat, bits: nat) {
    Proper(m) && m.wrap == wrap && Holds(hold, bits) && bits <= 32 && Synced(wrap, seen, m, hold, bits)
  }

  /** No whole byte is held that has not been looked at: fewer than 8 bits, or too few for the next step. */
  ghost predicate Snug(m: Machine, hold: nat, bits: nat) {
    Proper(m) && (bits < 8 || Next(m, LsbBits(hold, bits)).Wait?)
  }

  lemma FinalSnug(m: Machine, hold: nat, bits: nat)
    requires Proper(m) && Final(m.mode)
    ensures Snug(m, hold, bits)
  {
    hide HeadStep, TypeStep, StoredStep, CopyStep, TableStep, LenLensStep, CodeLensStep, LenStep, LenExtStep, DistStep,
         DistExtStep, MatchStep, LitStep, CheckStep, Proper, LsbBits;
  }

  /** Bits of input still to be used. */
  function Todo(input: seq<byte>, next: nat, bits: nat): int {
    bits + 8 * (|input| - next)
  }

  /** A turn that goes on ends it all or leaves less to do. */
  ghost predicate Goes(m0: Machine, todo0: int, m: Machine, todo: int) {
    Final(m.mode) || todo < todo0 || (todo == todo0 && (Inflation.Rank(m.mode) < Inflation.Rank(m0.mode)
                                       || (m.mode == m0.mode && m.length < m0.length)))
  }

  /** Why inflate returns: the stream is at an end, or input or output space is. */
  ghost predicate Halts(m: Machine, hold: nat, bits: nat, input: seq<byte>, next: nat, left: nat)
    requires Proper(m)
  {
    || Final(m.mode)
    || (next == |input| && Next(m, LsbBits(hold, bits)).Wait?)
    || (left == 0 && ((m.mode == COPY && m.length > 0) || m.mode == MATCH || m.mode == LIT))
  }

  /** How a turn that makes no output ends: further on, or, for want of input, where it was. */
  ghost predicate Turned(go: bool, wrap: bool, m0: Machine, next0: nat, bits0: nat, m: Machine, consumed: seq<byte>,
                         input: seq<byte>, next: nat, hold: nat, bits: nat)
  {
    && next0 <= next <= |input| && Fine(wrap, m, consumed + input[..next], hold, bits) && m.history == m0.history
    && Snug(m, hold, bits)
    && (if go then Goes(m0, Todo(input, next0, bits0), m, Todo(input, next, bits))
        else m == m0 && bits % 8 == bits0 % 8 && Halts(m, hold, bits, input, next, 1))
  }

  method PullByte(input: seq<byte>, next0: nat, hold0: nat, bits0: nat, ghost wrap: bool, ghost consumed: seq<byte>, ghost m: Machine)
    returns (next: nat, hold: nat, bits: nat)
    requires next0 < |input| && bits0 <= 24 && Fine(wrap, m, consumed + input[..next0], hold0, bits0)
    ensures next == next0 + 1 && bits == bits0 + 8 && Fine(wrap, m, consumed + input[..next], hold, bits)
    ensures hold == hold0 + Shl(input[next0], bits0) && LsbBits(hold0, bits0) <= LsbBits(hold, bits)
  {
    hide Synced, Shl, Pow2, Proper, LsbBits;
    Streams.PullByte(hold0, bits0, input[next0]);
    SyncedPull(wrap, consumed + input[..next0], m, hold0, bits0, input[next0]);
    assert consumed + input[..next0 + 1] == consumed + input[..next0] + [input[next0]];
    hold := hold0 + Shl(input[next0], bits0);
    next, bits := next0 + 1, bits0 + 8;
  }

  /** NEEDBITS: whether there are n bits in the accumulator now; if not, the input is used up. */
  method NeedBits(n: nat, input: seq<byte>, next0: nat, hold0: nat, bits0: nat, ghost wrap: bool, ghost consumed: seq<byte>,
                  ghost m: Machine)
    returns (ok: bool, next: nat, hold: nat, bits: nat)
    requires next0 <= |input| && Fine(wrap, m, consumed + input[..next0], hold0, bits0)
    requires n <= 25 || (n == 32 && bits0 % 8 == 0)
    ensures next0 <= next <= |input| && Fine(wrap, m, consumed + input[..next], hold, bits)
    ensures Todo(input, next, bits) == Todo(input, next0, bits0) && bits % 8 == bits0 % 8
    ensures LsbBits(hold0, bits0) <= LsbBits(hold, bits)
    ensures if ok then bits >= n && (bits == bits0 || bits < n + 8) else bits < n && next == |input|
    ensures bits == bits0 ==> hold == hold0
  {
    hide Fine, LsbBits;
    ok, next, hold, bits := true, next0, hold0, bits0;
    while bits < n
      invariant next0 <= next <= |input| && Fine(wrap, m, consumed + input[..next], hold, bits)
      invariant Todo(input, next, bits) == Todo(input, next0, bits0) && bits % 8 == bits0 % 8
      invariant (bits == bits0 || bits0 < bits < n + 8) && LsbBits(hold0, bits0) <= LsbBits(hold, bits)
      invariant bits == bits0 ==> hold == hold0
      decreases n - bits
    {
      if next == |input| {
        ok := false;
        return;
      }
      ghost var b := LsbBits(hold, bits);
      next, hold, bits := PullByte(input, next, hold, bits, wrap, consumed, m);
      PrefixOn(LsbBits(hold0, bits0), b, LsbBits(hold, bits));
    }
  }

  lemma PrefixOn(a: seq<bool>, b: seq<bool>, c: seq<bool>)
    requires a <= b <= c
    ensures a <= c
  {
    assert c[..|b|] == b;
  }

  /** A step with n of the bits at hand. */
  lemma FineStep(wrap: bool, m: Machine, seen: seq<byte>, hold: nat, bits: nat, n: nat, m': Machine)
    requires Fine(wrap, m, seen, hold, bits) && m'.wrap == wrap && Next(m, LsbBits(hold, bits)) == Take(n, m')
    ensures n <= bits && Fine(wrap, m', seen, Shr(hold, n), bits - n)
  {
    hide Synced, Shr, Pow2, Proper, Next, LsbBits;
    SyncedStep(wrap, seen, m, hold, bits, n, m');
  }

  lemma FineFinal(wrap: bool, m: Machine, seen: seq<byte>, hold: nat, bits: nat, n: nat, m': Machine, hold': nat, bits': nat)
    requires Fine(wrap, m, seen, hold, bits) && m'.wrap == wrap && Next(m, LsbBits(hold, bits)) == Take(n, m')
    requires Final(m'.mode) && Holds(hold', bits') && bits' <= 32
    ensures Fine(wrap, m', seen, hold', bits')
  {
    hide Synced, Shr, Pow2, Proper, Next, LsbBits;
    SyncedFinal(wrap, seen, m, hold, bits, n, m', hold', bits');
  }

  lemma FineSnug(wrap: bool, m: Machine, seen: seq<byte>, hold: nat, bits: nat)
    requires Fine(wrap, m, seen, hold, bits) && Final(m.mode)
    ensures Snug(m, hold, bits)
  {
    hide Proper, Synced;
    FinalSnug(m, hold, bits);
  }

  lemma FineIs(wrap: bool, m: Machine, seen: seq<byte>, hold: nat, bits: nat)
    requires Fine(wrap, m, seen, hold, bits)
    ensures Proper(m) && m.wrap == wrap && Holds(hold, bits) && bits <= 32
  {
  }

  /** A step that takes bits, or leads down, goes on. */
  lemma StepGoes(m: Machine, b: seq<bool>)
    requires Proper(m) && Next(m, b).Take?
    ensures Next(m, b).n > 0 || Goes(m, 0, Next(m, b).next, 0)
  {
    hide Proper, Next;
    if Next(m, b).n == 0 {
      NextDescends(m, b);
    }
  }

  /** HEAD */
  method StepHead(wrap: bool, wbits: nat, input: seq<byte>, next0: nat, hold0: nat, bits0: nat, ghost consumed: seq<byte>,
                  ghost m0: Machine)
    returns (go: bool, next: nat, hold: nat, bits: nat, mode: Mode, ghost m: Machine)
    requires next0 <= |input| && Fine(wrap, m0, consumed + input[..next0], hold0, bits0) && wbits == 15
    requires Snug(m0, hold0, bits0)
    requires m0.mode == HEAD && (bits0 == 0 || bits0 == 8)
    ensures Turned(go, wrap, m0, next0, bits0, m, consumed, input, next, hold, bits) && m == m0.(mode := mode)
    ensures (mode == HEAD ==> bits == 0 || bits == 8) && (mode == DICTID ==> bits % 8 == 0)
    ensures mode == HEAD || mode == DICTID || mode == TYPE || mode == BAD
  {
    hide Fine, Next, GoodHeader, Shr, LsbBits, Pow2, Proper;
    go, next, hold, bits, mode, m := true, next0, hold0, bits0, HEAD, m0;
    if wrap {
      go, next, hold, bits := NeedBits(16, input, next, hold, bits, wrap, consumed, m0);
    }
    FineIs(wrap, m0, consumed + input[..next], hold, bits);
    if !go {
      ShortWaits(m0, LsbBits(hold, bits));
      return;
    }
    HeadTakes(m0, hold, bits);
    StepGoes(m0, LsbBits(hold, bits));
    if wrap {
      ghost var h := hold;
      mode, hold, bits := ReadHeader(hold, wbits);
      m := m0.(mode := mode);
      if mode == BAD {
        FineFinal(wrap, m0, consumed + input[..next], h, 16, 16, m, hold, bits);
        FineSnug(wrap, m, consumed + input[..next], hold, bits);
      } else {
        FineStep(wrap, m0, consumed + input[..next], h, 16, 16, m);
        AllDropped(h, 16);
      }
    } else {
      mode := TYPE;
      m := m0.(mode := TYPE);
      FineStep(wrap, m0, consumed + input[..next], hold, bits, 0, m);
      Still(hold);
    }
    FineIs(wrap, m, consumed + input[..next], hold, bits);
  }

  /** The checks on the two bytes of a zlib header. */
  method ReadHeader(hold0: nat, wbits: nat) returns (mode: Mode, hold: nat, bits: nat)
    requires Holds(hold0, 16) && wbits == 15
    ensures mode == if !GoodHeader(hold0) then BAD else if Shr(hold0, 13) % 2 == 1 then DICTID else TYPE
    ensures Holds(hold, bits) && bits <= 16 && (mode != BAD ==> bits == 0 && hold == 0)
  {
    hide Shr, Low, Pow2;
    hold, bits := hold0, 16;
    if (256 * Low(hold, 8) + Shr(hold, 8)) % 31 != 0 {
      mode := BAD;
      return;
    }
    if Low(hold, 4) != 8 {
      mode := BAD;
      return;
    }
    DroppedHolds(hold, 16, 4);
    hold, bits := Shr(hold, 4), bits - 4;
    var len := Low(hold, 4) + 8;
    if len > wbits {
      mode := BAD;
      return;
    }
    ShrShr(hold0, 4, 9);
    mode := if Shr(hold, 9) % 2 == 1 then DICTID else TYPE;
    NothingHeld();
    hold, bits := 0, 0;
  }

  lemma NothingHeld()
    ensures Holds(0, 0)
  {
  }

  lemma DroppedHolds(hold: nat, bits: nat, n: nat)
    requires Holds(hold, bits) && n <= bits
    ensures Holds(Shr(hold, n), bits - n)
  {
    DropBits(hold, bits, n);
  }

  lemma AllDropped(hold: nat, bits: nat)
    requires Holds(hold, bits)
    ensures Shr(hold, bits) == 0
  {
    LowSmall(hold, bits);
  }

  /** DICTID */
  method StepDictId(input: seq<byte>, next0: nat, hold0: nat, bits0: nat, ghost wrap: bool, ghost consumed: seq<byte>,
                    ghost m0: Machine)
    returns (go: bool, next: nat, hold: nat, bits: nat, id: Adler32.word, ghost m: Machine)
    requires next0 <= |input| && Fine(wrap, m0, consumed + input[..next0], hold0, bits0) && m0.mode == DICTID
      && bits0 % 8 == 0
    requires Snug(m0, hold0, bits0)
    ensures Turned(go, wrap, m0, next0, bits0, m, consumed, input, next, hold, bits) && (go ==> m == m0.(mode := DICT))
  {
    hide Fine, Next, Shr, LsbBits, Pow2, Proper, Swap;
    m, id := m0, 0;
    go, next, hold, bits := NeedBits(32, input, next0, hold0, bits0, wrap, consumed, m0);
    FineIs(wrap, m0, consumed + input[..next], hold, bits);
    if !go {
      ShortWaits(m0, LsbBits(hold, bits));
      return;
    }
    DictIdTakes(m0, LsbBits(hold, bits));
    m := m0.(mode := DICT);
    FineStep(wrap, m0, consumed + input[..next], hold, bits, 32, m);
    AllDropped(hold, 32);
    SwapIsWord(hold);
    id := Swap(hold);
    hold, bits := 0, 0;
    FineIs(wrap, m, consumed + input[..next], hold, bits);
  }

  lemma SwapIsWord(q: nat)
    ensures Swap(q) < 0x1_0000_0000
  {
    hide Shr;
  }

  /** TYPE, with the last block flag in `last`. */
  method StepType(input: seq<byte>, next0: nat, hold0: nat, bits0: nat, last0: bool, ghost wrap: bool, ghost consumed: seq<byte>,
                  ghost m0: Machine)
    returns (go: bool, next: nat, hold: nat, bits: nat, last: bool, mode: Mode, ghost m: Machine)
    requires next0 <= |input| && Fine(wrap, m0, consumed + input[..next0], hold0, bits0) && m0.mode == TYPE
      && last0 == m0.last
    requires Snug(m0, hold0, bits0)
    ensures Turned(go, wrap, m0, next0, bits0, m, consumed, input, next, hold, bits) && mode == m.mode && last == m.last
    ensures mode == TYPE || (mode == CHECK && bits % 8 == 0) || mode == STORED || mode == TABLE || mode == BAD
      || (mode == LEN && m.ll == FixedLengths() && m.dd == FixedDistances())
  {
    hide Fine, Next, Shr, Low, LsbBits, Pow2, Proper, FixedLengths, FixedDistances;
    go, next, hold, bits, last, mode, m := true, next0, hold0, bits0, last0, TYPE, m0;
    if last {
      FineIs(wrap, m0, consumed + input[..next], hold, bits);
      TypeTakes(m0, hold, bits);
      StepGoes(m0, LsbBits(hold, bits));
      m, mode := m0.(mode := CHECK), CHECK;
      FineStep(wrap, m0, consumed + input[..next], hold, bits, bits % 8, m);
      hold, bits := Shr(hold, bits % 8), bits - bits % 8;
      FineIs(wrap, m, consumed + input[..next], hold, bits);
      return;
    }
    go, next, hold, bits := NeedBits(3, input, next, hold, bits, wrap, consumed, m0);
    FineIs(wrap, m0, consumed + input[..next], hold, bits);
    if !go {
      ShortWaits(m0, LsbBits(hold, bits));
      return;
    }
    TypeTakes(m0, hold, bits);
    ghost var h := hold;
    last := Low(hold, 1) == 1;
    hold, bits := Shr(hold, 1), bits - 1;
    var t := Low(hold, 2);
    mode := if t == 0 then STORED else if t == 1 then LEN else if t == 2 then TABLE else BAD;
    m := Typed(m0.(last := last), t);
    FineStep(wrap, m0, consumed + input[..next], h, bits + 1, 3, m);
    ShrShr(h, 1, 2);
    hold, bits := Shr(hold, 2), bits - 2;
    FineIs(wrap, m, consumed + input[..next], hold, bits);
  }

  /** STORED; dropping bits up to the byte boundary comes first, and is not undone when input is lacking. */
  method StepStored(input: seq<byte>, next0: nat, hold0: nat, bits0: nat, ghost wrap: bool, ghost consumed: seq<byte>,
                    ghost m0: Machine)
    returns (go: bool, next: nat, hold: nat, bits: nat, mode: Mode, length: nat, ghost m: Machine)
    requires next0 <= |input| && Fine(wrap, m0, consumed + input[..next0], hold0, bits0) && m0.mode == STORED
    requires Snug(m0, hold0, bits0)
    ensures next0 <= next <= |input| && Fine(wrap, m, consumed + input[..next], hold, bits) && m.history == m0.history
    ensures if go then Goes(m0, Todo(input, next0, bits0), m, Todo(input, next, bits))
            else m == m0 && Halts(m, hold, bits, input, next, 1)
    ensures mode == m.mode && m.last == m0.last && Snug(m, hold, bits)
    ensures mode == STORED || mode == BAD || (mode == COPY && bits == 0 && length == m.length)
  {
    hide Fine, Next, Shr, Low, Xor, LsbBits, Pow2, Proper, Synced;
    mode, length, m := STORED, 0, m0;
    FineAligned(wrap, m0, consumed + input[..next0], hold0, bits0);
    next, hold, bits := next0, Shr(hold0, bits0 % 8), bits0 - bits0 % 8;
    go, next, hold, bits := NeedBits(32, input, next, hold, bits, wrap, consumed, m0);
    FineIs(wrap, m0, consumed + input[..next], hold, bits);
    if !go {
      ShortWaits(m0, LsbBits(hold, bits));
      return;
    }
    StoredTakes(m0, hold, bits);
    if Low(hold, 16) != Xor(Shr(hold, 16), 0xffff) {
      mode, m := BAD, m0.(mode := BAD);
      FineFinal(wrap, m0, consumed + input[..next], hold, bits, 32, m, hold, bits);
      FineSnug(wrap, m, consumed + input[..next], hold, bits);
    } else {
      length := Low(hold, 16);
      mode, m := COPY, m0.(mode := COPY, length := length);
      FineStep(wrap, m0, consumed + input[..next], hold, bits, 32, m);
      AllDropped(hold, 32);
      hold, bits := 0, 0;
      FineIs(wrap, m, consumed + input[..next], hold, bits);
    }
  }

  lemma FineAligned(wrap: bool, m: Machine, seen: seq<byte>, hold: nat, bits: nat)
    requires Fine(wrap, m, seen, hold, bits) && m.mode == STORED
    ensures Fine(wrap, m, seen, Shr(hold, bits % 8), bits - bits % 8)
  {
    hide Synced, Shr, Pow2, Proper;
    SyncedAlign(wrap, seen, m, hold, bits);
  }

  /** TABLE */
  method StepTable(input: seq<byte>, next0: nat, hold0: nat, bits0: nat, ghost wrap: bool, ghost consumed: seq<byte>,
                   ghost m0: Machine)
    returns (go: bool, next: nat, hold: nat, bits: nat, mode: Mode, nlen: nat, ndist: nat, ncode: nat, ghost m: Machine)
    requires next0 <= |input| && Fine(wrap, m0, consumed + input[..next0], hold0, bits0) && m0.mode == TABLE
    requires Snug(m0, hold0, bits0)
    ensures Turned(go, wrap, m0, next0, bits0, m, consumed, input, next, hold, bits) && m.last == m0.last
    ensures if go then m == m0.(mode := mode, nlen := nlen, ndist := ndist, ncode := ncode, lens := [])
      && (mode == BAD || mode == LENLENS)
            else mode == TABLE
  {
    hide Fine, Next, Shr, Low, LsbBits, Pow2, Proper;
    mode, nlen, ndist, ncode, m := TABLE, 0, 0, 0, m0;
    go, next, hold, bits := NeedBits(14, input, next0, hold0, bits0, wrap, consumed, m0);
    FineIs(wrap, m0, consumed + input[..next], hold, bits);
    if !go {
      ShortWaits(m0, LsbBits(hold, bits));
      return;
    }
    TableTakes(m0, hold, bits);
    ghost var h := hold;
    nlen := Low(hold, 5) + 257;
    hold, bits := Shr(hold, 5), bits - 5;
    ndist := Low(hold, 5) + 1;
    hold, bits := Shr(hold, 5), bits - 5;
    ShrShr(h, 5, 5);
    ncode := Low(hold, 4) + 4;
    hold, bits := Shr(hold, 4), bits - 4;
    ShrShr(h, 10, 4);
    mode := if nlen > 286 || ndist > 30 then BAD else LENLENS;
    m := m0.(mode := mode, nlen := nlen, ndist := ndist, ncode := ncode, lens := []);
    FineStep(wrap, m0, consumed + input[..next], h, bits + 14, 14, m);
    FineIs(wrap, m, consumed + input[..next], hold, bits);
  }

  // ---------------------------------------------------------------- decoding a symbol

  /** What the entry says about the bits b. */
  ghost predicate Reads(lens: seq<nat>, kind: CodeType, b: seq<bool>, d: Entry) {
    && |lens| <= Symbols(kind) && (d.bits > |b| <==> ReadSymbol(lens, b) == Short)
    && (ReadSymbol(lens, b) == NoSymbol ==> d == INVALID)
    && (ReadSymbol(lens, b).Symbol? ==>
          ReadSymbol(lens, b).s < |lens| && d == EntryFor(kind, ReadSymbol(lens, b).s, lens[ReadSymbol(lens, b).s]))
  }

  lemma DecodeBits(t: seq<Entry>, start: nat, root: nat, kind: CodeType, lens: seq<nat>, x: nat)
    requires Usable(kind, lens) && TableFor(t, start, root, kind, lens)
    ensures InRange(t, start, root, x) && Decode(t, start, root, x).bits <= 15
  {
    hide Low, Shr, Pow2, Acceptable, KraftSum, Known, Decode, InRange, Begins;
    assert Answers(t, start, root, kind, lens, x);
    if s: nat :| Begins(lens, s, x) {
      BeginsBound(lens, s, x);
    }
  }

  lemma LowPulled(hold: nat, bits: nat, b: nat, root: nat)
    requires Holds(hold, bits) && root <= bits
    ensures Low(hold + Shl(b, bits), root) == Low(hold, root)
  {
    hide Low, Shl, Pow2;
    LowShrUnique(hold, b, bits);
    LowLow(hold + Shl(b, bits), bits, root);
  }

  lemma SecondIndexIs(e: Entry, hold: nat)
    ensures e.val + Shr(Low(hold, e.bits + e.op), e.bits) == SecondIndex(e, hold)
  {
    hide Low, Shr;
    LowShr(hold, e.bits, e.op);
  }

  /** d is what looking up the accumulator gives, e the entry of the root table. */
  ghost predicate Found(t: seq<Entry>, start: nat, root: nat, kind: CodeType, lens: seq<nat>, hold: nat, bits: nat, e: Entry,
                        d: Entry)
  {
    && 1 <= root <= 15 && start + Low(hold, root) < |t| && e == t[start + Low(hold, root)] && 1 <= d.bits <= 15
    && Reads(lens, kind, LsbBits(hold, bits), d)
    && (if Link(e) then
          e.bits == root && root <= d.bits && start + SecondIndex(e, hold) < |t|
          && d == (var f := t[start + SecondIndex(e, hold)]; Entry(f.op, root + f.bits, f.val))
        else d == e)
  }

  lemma LookedUp(t: seq<Entry>, start: nat, root: nat, kind: CodeType, lens: seq<nat>, hold: nat, bits: nat)
    returns (e: Entry, d: Entry)
    requires Usable(kind, lens) && TableFor(t, start, root, kind, lens) && Holds(hold, bits)
    ensures Found(t, start, root, kind, lens, hold, bits, e, d)
  {
    hide Low, Shr, LsbBits, Pow2, ReadSymbol, EntryFor, Acceptable, KraftSum, Known;
    TakeBits(hold, bits, 0);
    TableReads(t, start, root, kind, lens, LsbBits(hold, bits));
    DecodeBits(t, start, root, kind, lens, hold);
    e, d := t[start + Low(hold, root)], Decode(t, start, root, hold);
  }

  /** Bytes were pulled only while the symbol was not yet there. */
  ghost predicate Late(lens: seq<nat>, hold0: nat, bits0: nat, hold: nat, bits: nat) {
    (hold == hold0 && bits == bits0) || (bits >= 8 && ReadSymbol(lens, LsbBits(hold, bits)[..bits - 8]) == Short)
  }

  lemma LatePull(lens: seq<nat>, kind: CodeType, hold0: nat, bits0: nat, hold: nat, bits: nat, hold': nat, d: Entry)
    requires Reads(lens, kind, LsbBits(hold, bits), d) && d.bits > bits && LsbBits(hold, bits) <= LsbBits(hold', bits + 8)
    ensures Late(lens, hold0, bits0, hold', bits + 8)
  {
    hide LsbBits, ReadSymbol;
    assert LsbBits(hold', bits + 8)[..bits] == LsbBits(hold, bits);
  }

  /** So no whole byte beyond the code is held. */
  lemma LateSnug(t: seq<Entry>, start: nat, root: nat, kind: CodeType, lens: seq<nat>, hold0: nat, bits0: nat, hold: nat,
                 bits: nat, d: Entry)
    requires Usable(kind, lens) && TableFor(t, start, root, kind, lens) && Late(lens, hold0, bits0, hold, bits)
    requires Reads(lens, kind, LsbBits(hold, bits), d) && 1 <= d.bits <= bits
    ensures (hold == hold0 && bits == bits0) || bits < d.bits + 8
  {
    hide LsbBits, ReadSymbol, EntryFor, Answers, Known, Acceptable, KraftSum, Pow2, Lengths, Sound;
    var c := LsbBits(hold, bits);
    if !(hold == hold0 && bits == bits0) && bits >= d.bits + 8 {
      AcceptableIsSound(kind, lens);
      if ReadSymbol(lens, c).Symbol? {
        ReadLocal(lens, c[..bits - 8], c);
      } else {
        NoSymbolLocal(kind, lens, c[..bits - 8], c);
      }
    }
  }

  /** The first loop: the entry of the root table. */
  method RootEntry(table: array<Entry>, start: nat, root: nat, input: seq<byte>, next0: nat, hold0: nat, bits0: nat,
                   ghost kind: CodeType, ghost lens: seq<nat>, ghost wrap: bool, ghost consumed: seq<byte>, ghost m: Machine)
    returns (ok: bool, next: nat, hold: nat, bits: nat, e: Entry, ghost d: Entry)
    requires next0 <= |input| && Fine(wrap, m, consumed + input[..next0], hold0, bits0)
    requires Usable(kind, lens) && TableFor(table[..], start, root, kind, lens)
    ensures next0 <= next <= |input| && Fine(wrap, m, consumed + input[..next], hold, bits)
    ensures Todo(input, next, bits) == Todo(input, next0, bits0) && bits % 8 == bits0 % 8
    ensures Found(table[..], start, root, kind, lens, hold, bits, e, d)
    ensures if ok then e.bits <= bits else next == |input| && d.bits > bits
    ensures Late(lens, hold0, bits0, hold, bits)
  {
    hide Fine, Usable, TableFor, Low, Shr, Shl, Pow2, LsbBits, Reads, ReadSymbol;
    ok, next, hold, bits := true, next0, hold0, bits0;
    ghost var t := table[..];
    ghost var e';
    FineIs(wrap, m, consumed + input[..next], hold, bits);
    e', d := LookedUp(t, start, root, kind, lens, hold, bits);
    e := table[start + Low(hold, root)];
    while e.bits > bits
      invariant next0 <= next <= |input| && Fine(wrap, m, consumed + input[..next], hold, bits)
      invariant Todo(input, next, bits) == Todo(input, next0, bits0) && bits % 8 == bits0 % 8
      invariant Found(t, start, root, kind, lens, hold, bits, e, d) && Late(lens, hold0, bits0, hold, bits)
      decreases |input| - next
    {
      if next == |input| {
        ok := false;
        return;
      }
      ghost var h := hold;
      next, hold, bits := PullByte(input, next, hold, bits, wrap, consumed, m);
      LatePull(lens, kind, hold0, bits0, h, bits - 8, hold, d);
      FineIs(wrap, m, consumed + input[..next], hold, bits);
      e', d := LookedUp(t, start, root, kind, lens, hold, bits);
      e := table[start + Low(hold, root)];
    }
  }

  /** The second loop: the entry of a sub-table. */
  method SubEntry(table: array<Entry>, start: nat, root: nat, last: Entry, input: seq<byte>, next0: nat, hold0: nat, bits0: nat,
                  ghost kind: CodeType, ghost lens: seq<nat>, ghost wrap: bool, ghost consumed: seq<byte>, ghost m: Machine,
                  ghost d0: Entry, ghost h0: nat, ghost k0: nat)
    returns (ok: bool, next: nat, hold: nat, bits: nat, f: Entry, ghost d: Entry)
    requires next0 <= |input| && Fine(wrap, m, consumed + input[..next0], hold0, bits0)
    requires Usable(kind, lens) && TableFor(table[..], start, root, kind, lens)
    requires Found(table[..], start, root, kind, lens, hold0, bits0, last, d0) && Link(last) && last.bits <= bits0
    requires Late(lens, h0, k0, hold0, bits0)
    ensures next0 <= next <= |input| && Fine(wrap, m, consumed + input[..next], hold, bits)
    ensures Todo(input, next, bits) == Todo(input, next0, bits0) && bits % 8 == bits0 % 8
    ensures Found(table[..], start, root, kind, lens, hold, bits, last, d) && d == Entry(f.op, last.bits + f.bits, f.val)
    ensures if ok then d.bits <= bits else next == |input| && d.bits > bits
    ensures Late(lens, h0, k0, hold, bits)
  {
    hide Fine, Usable, TableFor, Low, Shr, Shl, Pow2, LsbBits, Reads, ReadSymbol;
    ok, next, hold, bits, d := true, next0, hold0, bits0, d0;
    ghost var t := table[..];
    ghost var e';
    SecondIndexIs(last, hold);
    f := table[start + (last.val + Shr(Low(hold, last.bits + last.op), last.bits))];
    while last.bits + f.bits > bits
      invariant next0 <= next <= |input| && Fine(wrap, m, consumed + input[..next], hold, bits)
      invariant Todo(input, next, bits) == Todo(input, next0, bits0) && bits % 8 == bits0 % 8 && last.bits <= bits
      invariant Found(t, start, root, kind, lens, hold, bits, last, d) && d == Entry(f.op, last.bits + f.bits, f.val)
      invariant Late(lens, h0, k0, hold, bits)
      decreases |input| - next
    {
      if next == |input| {
        ok := false;
        return;
      }
      FineIs(wrap, m, consumed + input[..next], hold, bits);
      LowPulled(hold, bits, input[next], root);
      ghost var h := hold;
      next, hold, bits := PullByte(input, next, hold, bits, wrap, consumed, m);
      LatePull(lens, kind, h0, k0, h, bits - 8, hold, d);
      FineIs(wrap, m, consumed + input[..next], hold, bits);
      e', d := LookedUp(t, start, root, kind, lens, hold, bits);
      SecondIndexIs(last, hold);
      f := table[start + (last.val + Shr(Low(hold, last.bits + last.op), last.bits))];
    }
  }

  /** Decodes one symbol, pulling bytes one at a time until the entry found is covered. `d` is that entry with the length of
      the whole code, (h, k) the accumulator before the code was dropped. */
  method DecodeSymbol(table: array<Entry>, start: nat, root: nat, input: seq<byte>, next0: nat, hold0: nat, bits0: nat,
                      ghost kind: CodeType, ghost lens: seq<nat>, ghost wrap: bool, ghost consumed: seq<byte>, ghost m: Machine)
    returns (ok: bool, next: nat, hold: nat, bits: nat, op: nat, val: nat, ghost d: Entry, ghost h: nat, ghost k: nat)
    requires next0 <= |input| && Fine(wrap, m, consumed + input[..next0], hold0, bits0)
    requires Usable(kind, lens) && TableFor(table[..], start, root, kind, lens)
    ensures next0 <= next <= |input| && Fine(wrap, m, consumed + input[..next], h, k)
    ensures Todo(input, next, k) == Todo(input, next0, bits0) && k % 8 == bits0 % 8
    ensures Reads(lens, kind, LsbBits(h, k), d)
    ensures !ok ==> next == |input| && d.bits > k && hold == h && bits == k
    ensures ok ==> 1 <= d.bits <= k && hold == Shr(h, d.bits) && bits == k - d.bits && op == d.op && val == d.val
    ensures ok ==> (h == hold0 && k == bits0) || bits < 8
  {
    hide Fine, Usable, TableFor, Low, Shr, Shl, Pow2, LsbBits, Reads, ReadSymbol, Late;
    var e;
    ok, next, hold, bits, e, d := RootEntry(table, start, root, input, next0, hold0, bits0, kind, lens, wrap, consumed, m);
    op, val, h, k := e.op, e.val, hold, bits;
    if !ok {
      return;
    }
    if Link(e) {
      var last := e;
      ok, next, hold, bits, e, d := SubEntry(table, start, root, last, input, next, hold, bits, kind, lens, wrap, consumed, m, d,
                                            hold0, bits0);
      op, val, h, k := e.op, e.val, hold, bits;
      if !ok {
        return;
      }
      LateSnug(table[..], start, root, kind, lens, hold0, bits0, hold, bits, d);
      ShrShr(hold, last.bits, e.bits);
      hold, bits := Shr(hold, last.bits), bits - last.bits;
    } else {
      LateSnug(table[..], start, root, kind, lens, hold0, bits0, hold, bits, d);
    }
    hold, bits := Shr(hold, e.bits), bits - e.bits;
  }

  // ---------------------------------------------------------------- lengths and distances

  /** op & 32 and op & 64 */
  predicate EndOfBlock(op: nat) {
    op / 32 % 2 == 1
  }

  predicate Invalid(op: nat) {
    op / 64 % 2 == 1
  }

  /** What a literal/length entry makes of the machine. */
  function LenOutcome(m: Machine, op: nat, val: nat): Machine {
    if op == 0 then m.(mode := LIT, length := val)
    else if EndOfBlock(op) then m.(mode := TYPE)
    else if Invalid(op) then m.(mode := BAD)
    else m.(mode := LENEXT, length := val, extra := op % 16)
  }

  function DistOutcome(m: Machine, op: nat, val: nat): Machine {
    if Invalid(op) then m.(mode := BAD) else m.(mode := DISTEXT, offset := val, extra := op % 16)
  }

  lemma LenOps(s: nat)
    requires 257 <= s < 288
    ensures LExt(s) != 0 && !EndOfBlock(LExt(s)) && (Invalid(LExt(s)) <==> s >= 286)
    ensures s < 286 ==> LExt(s) % 16 == LExt(s) - 16
  {
  }

  lemma DistOps(s: nat)
    requires s < 32
    ensures (Invalid(DExt(s)) <==> s >= 30) && (s < 30 ==> DExt(s) % 16 == DExt(s) - 16)
  {
  }

  lemma LenTakes(m: Machine, b: seq<bool>, d: Entry)
    requires Proper(m) && m.mode == LEN && Reads(m.ll, LENS, b, d)
    ensures if d.bits > |b| then Next(m, b) == Wait else Next(m, b) == Take(d.bits, LenOutcome(m, d.op, d.val))
  {
    hide Next, Proper, ReadSymbol, LExt, LBase, DExt, DBase, EndOfBlock, Invalid;
    LenIs(m, b);
    EndOps();
    var r := ReadSymbol(m.ll, b);
    if r.Symbol? && r.s >= 257 {
      LenOps(r.s);
    }
  }

  lemma EndOps()
    ensures EndOfBlock(96) && !EndOfBlock(64) && Invalid(64)
  {
  }

  lemma DistTakes(m: Machine, b: seq<bool>, d: Entry)
    requires Proper(m) && m.mode == DIST && Reads(m.dd, DISTS, b, d)
    ensures if d.bits > |b| then Next(m, b) == Wait else Next(m, b) == Take(d.bits, DistOutcome(m, d.op, d.val))
  {
    hide Next, Proper, ReadSymbol, LExt, LBase, DExt, DBase, EndOfBlock, Invalid;
    LenIs(m, b);
    EndOps();
    var r := ReadSymbol(m.dd, b);
    if r.Symbol? {
      DistOps(r.s);
    }
  }

  lemma CodesIn(m: Machine)
    requires Proper(m) && Coding(m.mode)
    ensures Usable(LENS, m.ll) && Usable(DISTS, m.dd)
  {
    hide Usable, Pow2;
  }

  /** LEN, one symbol at a time */
  method StepLen(table: array<Entry>, root: nat, input: seq<byte>, next0: nat, hold0: nat, bits0: nat,
                 ghost wrap: bool, ghost consumed: seq<byte>, ghost m0: Machine)
    returns (go: bool, next: nat, hold: nat, bits: nat, op: nat, val: nat, ghost m: Machine)
    requires next0 <= |input| && Fine(wrap, m0, consumed + input[..next0], hold0, bits0) && m0.mode == LEN
    requires Snug(m0, hold0, bits0)
    requires Usable(LENS, m0.ll) && TableFor(table[..], 0, root, LENS, m0.ll)
    ensures Turned(go, wrap, m0, next0, bits0, m, consumed, input, next, hold, bits)
    ensures go ==> m == LenOutcome(m0, op, val)
  {
    hide Fine, Next, Shr, LsbBits, Pow2, Proper, Usable, TableFor, Reads, EndOfBlock, Invalid;
    ghost var d, h, k;
    m := m0;
    go, next, hold, bits, op, val, d, h, k :=
      DecodeSymbol(table, 0, root, input, next0, hold0, bits0, LENS, m0.ll, wrap, consumed, m0);
    FineIs(wrap, m0, consumed + input[..next], h, k);
    LenTakes(m0, LsbBits(h, k), d);
    if go {
      m := LenOutcome(m0, op, val);
      FineStep(wrap, m0, consumed + input[..next], h, k, d.bits, m);
    }
    FineIs(wrap, m, consumed + input[..next], hold, bits);
  }

  /** DIST */
  method StepDist(table: array<Entry>, start: nat, root: nat, input: seq<byte>, next0: nat, hold0: nat, bits0: nat,
                  ghost wrap: bool, ghost consumed: seq<byte>, ghost m0: Machine)
    returns (go: bool, next: nat, hold: nat, bits: nat, op: nat, val: nat, ghost m: Machine)
    requires next0 <= |input| && Fine(wrap, m0, consumed + input[..next0], hold0, bits0) && m0.mode == DIST
    requires Snug(m0, hold0, bits0)
    requires Usable(DISTS, m0.dd) && TableFor(table[..], start, root, DISTS, m0.dd)
    ensures Turned(go, wrap, m0, next0, bits0, m, consumed, input, next, hold, bits)
    ensures go ==> m == DistOutcome(m0, op, val)
  {
    hide Fine, Next, Shr, LsbBits, Pow2, Proper, Usable, TableFor, Reads, EndOfBlock, Invalid;
    ghost var d, h, k;
    m := m0;
    go, next, hold, bits, op, val, d, h, k :=
      DecodeSymbol(table, start, root, input, next0, hold0, bits0, DISTS, m0.dd, wrap, consumed, m0);
    FineIs(wrap, m0, consumed + input[..next], h, k);
    DistTakes(m0, LsbBits(h, k), d);
    if go {
      m := DistOutcome(m0, op, val);
      FineStep(wrap, m0, consumed + input[..next], h, k, d.bits, m);
    }
    FineIs(wrap, m, consumed + input[..next], hold, bits);
  }

  /** The extra bits of LENEXT and DISTEXT; the result is their value. */
  /** A turn that reads enough bits and takes n of them. */
  lemma TakenTurn(wrap: bool, m0: Machine, next0: nat, hold0: nat, bits0: nat, consumed: seq<byte>, input: seq<byte>, next: nat,
                  hold: nat, bits: nat, n: nat, m: Machine)
    requires next0 <= next <= |input| && Todo(input, next, bits) == Todo(input, next0, bits0) && Snug(m0, hold0, bits0)
    requires Fine(wrap, m0, consumed + input[..next], hold, bits) && Next(m0, LsbBits(hold, bits)) == Take(n, m)
    requires m.wrap == wrap && m.history == m0.history && if bits == bits0 then hold == hold0 else bits < n + 8
    ensures n <= bits && Turned(true, wrap, m0, next0, bits0, m, consumed, input, next, Shr(hold, n), bits - n)
  {
    hide Fine, Next, Shr, LsbBits, Proper;
    FineIs(wrap, m0, consumed + input[..next], hold, bits);
    StepGoes(m0, LsbBits(hold, bits));
    FineStep(wrap, m0, consumed + input[..next], hold, bits, n, m);
    FineIs(wrap, m, consumed + input[..next], Shr(hold, n), bits - n);
  }

  /** A turn for which the input is too short. */
  lemma WaitingTurn(wrap: bool, m: Machine, next0: nat, bits0: nat, consumed: seq<byte>, input: seq<byte>, next: nat, hold: nat,
                    bits: nat)
    requires next0 <= next == |input| && bits % 8 == bits0 % 8 && Fine(wrap, m, consumed + input[..next], hold, bits)
    requires Proper(m) && Next(m, LsbBits(hold, bits)) == Wait
    ensures Turned(false, wrap, m, next0, bits0, m, consumed, input, next, hold, bits)
  {
    hide Fine, Next, LsbBits, Proper;
  }

  method StepExtra(extra: nat, input: seq<byte>, next0: nat, hold0: nat, bits0: nat, ghost wrap: bool, ghost consumed: seq<byte>,
                   ghost m0: Machine)
    returns (go: bool, next: nat, hold: nat, bits: nat, v: nat, ghost m: Machine)
    requires next0 <= |input| && Fine(wrap, m0, consumed + input[..next0], hold0, bits0)
    requires Snug(m0, hold0, bits0)
    requires (m0.mode == LENEXT || m0.mode == DISTEXT) && extra == m0.extra
    ensures Turned(go, wrap, m0, next0, bits0, m, consumed, input, next, hold, bits)
    ensures go && m0.mode == LENEXT ==> m == m0.(mode := DIST, length := m0.length + v)
    ensures go && m0.mode == DISTEXT ==>
      m == m0.(offset := m0.offset + v, tokens := m0.tokens + [Match(m0.length, m0.offset + v)],
               mode := if m0.offset + v > |m0.history| then BAD else MATCH)
    ensures go && m0.mode == DISTEXT ==> m0.offset + v <= 32768
  {
    hide Fine, Next, Shr, Low, LsbBits, Pow2, Proper, Extended, Snug, Turned, Goes, Halts;
    go, next, hold, bits, v, m := true, next0, hold0, bits0, 0, m0;
    FineIs(wrap, m0, consumed + input[..next], hold, bits);
    ExtraSmall(m0);
    if extra != 0 {
      go, next, hold, bits := NeedBits(extra, input, next, hold, bits, wrap, consumed, m0);
      FineIs(wrap, m0, consumed + input[..next], hold, bits);
      if !go {
        ShortWaits(m0, LsbBits(hold, bits));
        WaitingTurn(wrap, m0, next0, bits0, consumed, input, next, hold, bits);
        return;
      }
    }
    ExtraTakes(m0, hold, bits);
    LowNone(hold);
    v := if extra != 0 then Low(hold, extra) else 0;
    LowBelow(hold, extra);
    m := Extended(m0, v);
    ExtendedIs(m0, v);
    TakenTurn(wrap, m0, next0, hold0, bits0, consumed, input, next, hold, bits, extra, m);
    Still(hold);
    if extra != 0 {
      hold, bits := Shr(hold, extra), bits - extra;
    }
  }

  lemma ExtraSmall(m: Machine)
    requires Proper(m) && (m.mode == LENEXT || m.mode == DISTEXT)
    ensures m.extra <= 13 && (m.mode == DISTEXT ==> m.offset + Pow2(m.extra) <= 32769)
  {
    hide Usable, Pow2;
  }

  lemma LowBelow(x: nat, n: nat)
    ensures Low(x, n) < Pow2(n)
  {
  }

  lemma LowNone(x: nat)
    ensures Low(x, 0) == 0
  {
  }

  // ---------------------------------------------------------------- output

  /** The bytes written are those that the history grew by. */
  ghost predicate Wrote(h0: seq<byte>, o0: seq<byte>, p0: nat, left0: nat, h: seq<byte>, o: seq<byte>, p: nat, left: nat) {
    p0 <= p <= |o| == |o0| && o[..p0] == o0[..p0] && h == h0 + o[p0..p] && left0 == left + (p - p0)
  }

  lemma FollowsMore(h0: seq<byte>, base: seq<byte>, o0: seq<byte>, p0: nat, left0: nat, out: nat, h: seq<byte>, o: seq<byte>,
                    p: nat, left: nat)
    requires Follows(h0, base, o0, p0, left0, out) && Wrote(h0, o0, p0, left0, h, o, p, left)
    ensures Follows(h, base, o, p, left, out)
  {
    var s := p0 - (out - left0);
    assert o[s..p0] == o0[s..p0] by {
      assert o[s..p0] == o[..p0][s..] && o0[s..p0] == o0[..p0][s..];
    }
    assert o[s..p] == o[s..p0] + o[p0..p];
  }

  lemma WroteNothing(h: seq<byte>, o: seq<byte>, p: nat, left: nat)
    requires p <= |o|
    ensures Wrote(h, o, p, left, h, o, p, left)
  {
    assert h + o[p..p] == h;
  }

  /** COPY: stored bytes, as many as input and output allow. */
  method StepCopy(length0: nat, input: seq<byte>, next0: nat, hold0: nat, output: array<byte>, put0: nat, left0: nat,
                  ghost wrap: bool, ghost consumed: seq<byte>, ghost m0: Machine)
    returns (go: bool, next: nat, length: nat, mode: Mode, put: nat, left: nat, ghost m: Machine)
    requires next0 <= |input| && Fine(wrap, m0, consumed + input[..next0], hold0, 0) && m0.mode == COPY
      && length0 == m0.length
    requires put0 + left0 <= output.Length
    modifies output
    ensures next0 <= next <= |input| && Fine(wrap, m, consumed + input[..next], hold0, 0) && mode == m.mode
      && m.last == m0.last
    ensures Wrote(m0.history, old(output[..]), put0, left0, m.history, output[..], put, left)
    ensures if go then Goes(m0, Todo(input, next0, 0), m, Todo(input, next, 0)) else m == m0 && Halts(m, hold0, 0, input, next, left)
    ensures Snug(m, hold0, 0)
    ensures (mode == COPY && length == m.length) || (mode == TYPE && m.history == m0.history)
  {
    hide Fine, Next, Shr, LsbBits, Pow2, Proper, Synced;
    go, next, length, mode, put, left, m := true, next0, length0, COPY, put0, left0, m0;
    FineIs(wrap, m0, consumed + input[..next], hold0, 0);
    WroteNothing(m0.history, output[..], put0, left0);
    if length == 0 {
      CopyEnds(m0, LsbBits(hold0, 0));
      StepGoes(m0, LsbBits(hold0, 0));
      mode, m := TYPE, m0.(mode := TYPE);
      FineStep(wrap, m0, consumed + input[..next], hold0, 0, 0, m);
      Still(hold0);
      FineIs(wrap, m, consumed + input[..next], hold0, 0);
      return;
    }
    var copy := length;
    if copy > |input| - next {
      copy := |input| - next;
    }
    if copy > left {
      copy := left;
    }
    if copy == 0 {
      go := false;
      if left != 0 {
        ShortWaits(m0, LsbBits(hold0, 0));
      }
      return;
    }
    ghost var s := input[next..next + copy];
    PutBytes(input, next, output, put, copy);
    FineBytes(wrap, m0, consumed + input[..next], hold0, s);
    assert consumed + input[..next + copy] == consumed + input[..next] + s;
    m := m0.(length := m0.length - copy, history := m0.history + s);
    FineIs(wrap, m, consumed + input[..next + copy], hold0, 0);
    next, put, left, length := next + copy, put + copy, left - copy, length - copy;
  }

  method PutBytes(input: seq<byte>, next: nat, output: array<byte>, put: nat, n: nat)
    requires next + n <= |input| && put + n <= output.Length
    modifies output
    ensures output[..put] == old(output[..put]) && output[put..put + n] == input[next..next + n]
    ensures output[..][..put] == old(output[..])[..put]
  {
    for i := 0 to n
      invariant forall j | 0 <= j < put :: output[j] == old(output[j])
      invariant forall j | put <= j < put + i :: output[j] == input[next + j - put]
    {
      output[put + i] := input[next + i];
    }
  }

  lemma FineBytes(wrap: bool, m: Machine, seen: seq<byte>, hold: nat, s: seq<byte>)
    requires Fine(wrap, m, seen, hold, 0) && m.mode == COPY && |s| <= m.length
    ensures Fine(wrap, m.(length := m.length - |s|, history := m.history + s), seen + s, hold, 0)
  {
    hide Synced, Proper;
    assert Pow2(0) == 1;
    SyncedBytes(wrap, seen, m, s);
  }

  /** LIT */
  method StepLit(length: nat, output: array<byte>, put0: nat, left0: nat, ghost input: seq<byte>, ghost next: nat, ghost hold: nat,
                 ghost bits: nat, ghost wrap: bool, ghost consumed: seq<byte>, ghost m0: Machine)
    returns (go: bool, put: nat, left: nat, ghost m: Machine)
    requires next <= |input| && Fine(wrap, m0, consumed + input[..next], hold, bits) && m0.mode == LIT
      && length == m0.length < 256
    requires put0 + left0 <= output.Length && Snug(m0, hold, bits)
    modifies output
    ensures Fine(wrap, m, consumed + input[..next], hold, bits) && Snug(m, hold, bits)
    ensures Wrote(m0.history, old(output[..]), put0, left0, m.history, output[..], put, left)
    ensures if go then Goes(m0, Todo(input, next, bits), m, Todo(input, next, bits)) else m == m0 && left == 0
    ensures go ==> m == m0.(mode := LEN, history := m.history, tokens := m.tokens)
  {
    hide Fine, Next, Shr, LsbBits, Pow2, Proper, Synced;
    go, put, left, m := true, put0, left0, m0;
    WroteNothing(m0.history, output[..], put0, left0);
    if left == 0 {
      go := false;
      return;
    }
    FineIs(wrap, m0, consumed + input[..next], hold, bits);
    LenIs(m0, LsbBits(hold, bits));
    StepGoes(m0, LsbBits(hold, bits));
    output[put] := length;
    m := m0.(mode := LEN, history := m0.history + [length], tokens := m0.tokens + [Literal(length)]);
    FineStep(wrap, m0, consumed + input[..next], hold, bits, 0, m);
    Still(hold);
    FineIs(wrap, m, consumed + input[..next], hold, bits);
    assert output[..][..put] == old(output[..])[..put];
    assert output[..][put..put + 1] == [length];
    put, left := put + 1, left - 1;
  }

  // ---------------------------------------------------------------- matches

  /** From within the output: byte by byte, so that source and target may overlap. */
  method CopyOverlap(output: array<byte>, from: nat, put: nat, n: nat, ghost h: seq<byte>)
    requires from < put && put + n <= output.Length && put - from <= |h| && h[|h| - (put - from)..] == output[from..put]
    modifies output
    ensures output[..][..put] == old(output[..])[..put] && h + output[put..put + n] == CopyBack(h, n, put - from)
  {
    hide CopyBack;
    ghost var d := put - from;
    CopyBackNone(h, d);
    assert h + output[put..put] == h;
    for i := 0 to n
      invariant forall j | 0 <= j < put :: output[j] == old(output[j])
      invariant h + output[put..put + i] == CopyBack(h, i, d)
    {
      CopyBackNext(h, i, d);
      ghost var o := output[..];
      assert o[put - d..put] == old(output[..])[put - d..put] == old(output[from..put]);
      OverlapByte(h, o, put, i, d);
      output[put + i] := output[from + i];
      assert output[put..put + i + 1] == o[put..put + i] + [output[put + i]];
    }
  }

  lemma CopyBackNone(h: seq<byte>, d: nat)
    requires 1 <= d <= |h|
    ensures CopyBack(h, 0, d) == h
  {
  }

  /** The byte d back from the end of what has been copied. */
  lemma OverlapByte(h: seq<byte>, o: seq<byte>, put: nat, i: nat, d: nat)
    requires 1 <= d <= |h| && d <= put && put + i < |o| && h[|h| - d..] == o[put - d..put]
    ensures (h + o[put..put + i])[|h| + i - d] == o[put + i - d]
  {
    if i < d {
      assert h[|h| - d..][i] == o[put - d..put][i];
    }
  }

  /** From the window, bytes that lie before this call's output. */
  lemma WindowBytes(h: seq<byte>, base: seq<byte>, w: CircularWindow, d: nat, n: nat, from: nat, back: nat)
    requires w.Valid() && w.done == base && w.wbits == 15 && base <= h && 1 <= d <= |h| && d <= 32768
    requires back == d - (|h| - |base|) > 0
      && (if back > w.write then n <= back - w.write && from == w.wsize - (back - w.write)
                                               else n <= back && from == w.write - back)
    ensures w.wsize == 32768 && back <= w.whave && w.window != null && w.window.Length == w.wsize && from + n <= w.wsize
    ensures n <= d && h + w.window[from..from + n] == h + h[|h| - d..|h| - d + n]
  {
    Pow2Values();
    forall k | from <= k < from + n ensures w.window[k] == h[|h| - d + k - from] {
      assert w.window[..][Behind(w.write, w.wsize, back - (k - from))] == base[|base| - (back - (k - from))];
    }
    assert w.window[from..from + n] == h[|h| - d..|h| - d + n];
  }

  lemma {:induction false} CopyBackApart(h: seq<byte>, n: nat, d: nat)
    requires 1 <= d <= |h| && n <= d
    ensures CopyBack(h, n, d) == h + h[|h| - d..|h| - d + n]
    decreases n
  {
    if n == 0 {
      assert h[|h| - d..|h| - d] == [];
    } else {
      CopyBackApart(h, n - 1, d);
      CopyBackNext(h, n - 1, d);
      assert h[|h| - d..|h| - d + n] == h[|h| - d..|h| - d + n - 1] + [h[|h| - d + n - 1]];
    }
  }

  lemma MatchShape(m: Machine)
    requires Proper(m) && m.mode == MATCH
    ensures 1 <= m.length && 1 <= m.offset <= |m.history| && m.offset <= 32768
  {
    hide Usable, Pow2;
  }

  lemma FineMatch(wrap: bool, m: Machine, seen: seq<byte>, hold: nat, bits: nat, k: nat)
    requires Fine(wrap, m, seen, hold, bits) && m.mode == MATCH && 0 < k <= m.length
    ensures 1 <= m.offset <= |m.history| && Fine(wrap, Copied(m, k), seen, hold, bits)
  {
    hide Synced, Proper, CopyBack;
    SyncedMatch(wrap, seen, m, hold, bits, k);
  }

  /** The history ends with this call's output. */
  lemma FollowsTail(h: seq<byte>, base: seq<byte>, o: seq<byte>, put: nat, left: nat, out: nat, d: nat)
    requires Follows(h, base, o, put, left, out) && d <= out - left
    ensures d <= |h| && d <= put <= |o| && h[|h| - d..] == o[put - d..put] && base <= h && |h| == |base| + (out - left)
  {
    assert o[put - d..put] == o[put - (out - left)..put][out - left - d..];
  }

  /** One piece of a match, from the window. */
  method CopyFromWindow(w: CircularWindow, from: nat, output: array<byte>, put: nat, n: nat, ghost h: seq<byte>,
                        ghost base: seq<byte>, ghost d: nat, ghost back: nat)
    requires w.Valid() && w.done == base && w.wbits == 15 && base <= h && 1 <= d <= |h| && d <= 32768 && output != w.window
    requires back == d - (|h| - |base|) > 0
      && (if back > w.write then n <= back - w.write && from == w.wsize - (back - w.write)
                                               else n <= back && from == w.write - back)
    requires put + n <= output.Length
    modifies output
    ensures output[..][..put] == old(output[..])[..put] && h + output[put..put + n] == CopyBack(h, n, d)
  {
    hide CopyBack, Records;
    WindowBytes(h, base, w, d, n, from, back);
    CopyBytes(output, put, w.window, from, n);
    assert output[put..put + n] == w.window[from..from + n];
    CopyBackApart(h, n, d);
  }

  /** One piece of a match. */
  method MatchPiece(w: CircularWindow, length: nat, offset: nat, output: array<byte>, put: nat, left: nat, out: nat,
                    ghost base: seq<byte>, ghost h: seq<byte>)
    returns (copy: nat)
    requires 0 < length && 0 < left && 1 <= offset <= |h| && offset <= 32768 && Follows(h, base, output[..], put, left, out)
    requires w.Valid() && w.done == base && w.wbits == 15 && output != w.window
    modifies output
    ensures 0 < copy <= length && copy <= left && output[..][..put] == old(output[..])[..put]
    ensures h + output[..][put..put + copy] == CopyBack(h, copy, offset)
  {
    hide Pow2, CopyBack, Records;
    FollowsTail(h, base, output[..], put, left, out, 0);
    copy := out - left;
    var from: nat := 0;
    if offset > copy {
      copy := offset - copy;
      ghost var back := copy;
      WindowReach(w, base, h, offset, back);
      if copy > w.write {
        copy := copy - w.write;
        from := w.wsize - copy;
      } else {
        from := w.write - copy;
      }
      if copy > length {
        copy := length;
      }
      if copy > left {
        copy := left;
      }
      CopyFromWindow(w, from, output, put, copy, h, base, offset, back);
    } else {
      FollowsTail(h, base, output[..], put, left, out, offset);
      from := put - offset;
      copy := length;
      if copy > left {
        copy := left;
      }
      assert output[from..put] == output[..][from..put];
      CopyOverlap(output, from, put, copy, h);
    }
    assert output[put..put + copy] == output[..][put..put + copy];
  }

  /** MATCH: as many bytes as lie in one piece and the output allows. */
  method StepMatch(w: CircularWindow, length0: nat, offset: nat, output: array<byte>, put0: nat, left0: nat, out: nat,
                   ghost base: seq<byte>, ghost input: seq<byte>, ghost next: nat, ghost hold: nat, ghost bits: nat,
                   ghost wrap: bool, ghost consumed: seq<byte>, ghost m0: Machine)
    returns (go: bool, length: nat, mode: Mode, put: nat, left: nat, ghost m: Machine)
    requires next <= |input| && Fine(wrap, m0, consumed + input[..next], hold, bits) && m0.mode == MATCH
    requires length0 == m0.length && offset == m0.offset && Follows(m0.history, base, output[..], put0, left0, out)
    requires w.Valid() && w.done == base && w.wbits == 15 && output != w.window && Snug(m0, hold, bits)
    modifies output
    ensures Fine(wrap, m, consumed + input[..next], hold, bits) && Snug(m, hold, bits)
    ensures Wrote(m0.history, old(output[..]), put0, left0, m.history, output[..], put, left)
    ensures if go then Goes(m0, Todo(input, next, bits), m, Todo(input, next, bits)) else m == m0 && left == 0
    ensures m == m0.(mode := mode, length := length, history := m.history) && (mode == MATCH || mode == LEN)
  {
    hide Fine, LsbBits, Pow2, Proper, Synced, CopyBack, Records, Next;
    go, length, mode, put, left, m := true, length0, MATCH, put0, left0, m0;
    WroteNothing(m0.history, output[..], put0, left0);
    if left == 0 {
      go := false;
      return;
    }
    FineIs(wrap, m0, consumed + input[..next], hold, bits);
    MatchShape(m0);
    MatchNext(m0, LsbBits(hold, bits));
    var copy := MatchPiece(w, length, offset, output, put, left, out, base, m0.history);
    FineMatch(wrap, m0, consumed + input[..next], hold, bits, copy);
    m := Copied(m0, copy);
    FineIs(wrap, m, consumed + input[..next], hold, bits);
    put, left, length := put + copy, left - copy, length - copy;
    if length == 0 {
      mode := LEN;
    }
  }

  /** A distance that reaches back before this call's output stays within the window. */
  lemma WindowReach(w: CircularWindow, base: seq<byte>, h: seq<byte>, d: nat, back: nat)
    requires w.Valid() && w.done == base && w.wbits == 15 && base <= h && d <= |h| && d <= 32768
    requires back == d - (|h| - |base|) > 0
    ensures w.wsize == 32768 && back <= w.whave <= 32768 && w.write < 32768
  {
    Pow2Values();
  }

  // ---------------------------------------------------------------- the check value

  /** CHECK */
  method StepCheck(wrap: bool, check0: Adler32.word, output: array<byte>, put: nat, left: nat, out0: nat, ghost base: seq<byte>,
                   input: seq<byte>, next0: nat, hold0: nat, bits0: nat, ghost consumed: seq<byte>, ghost m0: Machine)
    returns (go: bool, next: nat, hold: nat, bits: nat, mode: Mode, check: Adler32.word, out: nat, ghost m: Machine)
    requires next0 <= |input| && Fine(wrap, m0, consumed + input[..next0], hold0, bits0) && m0.mode == CHECK
      && bits0 % 8 == 0
    requires Snug(m0, hold0, bits0)
    requires Follows(m0.history, base, output[..], put, left, out0) && (wrap ==> check0 == Check(base))
    ensures Turned(go, wrap, m0, next0, bits0, m, consumed, input, next, hold, bits) && m == m0.(mode := mode)
    ensures if go && wrap then out == left && check == Check(m0.history) else out == out0 && check == check0
    ensures go ==> mode == DONE || mode == BAD
  {
    hide Fine, Next, LsbBits, Pow2, Proper, Swap, Check;
    go, next, hold, bits, mode, check, out, m := true, next0, hold0, bits0, CHECK, check0, out0, m0;
    if wrap {
      go, next, hold, bits := NeedBits(32, input, next, hold, bits, wrap, consumed, m0);
    }
    FineIs(wrap, m0, consumed + input[..next], hold, bits);
    if !go {
      ShortWaits(m0, LsbBits(hold, bits));
      return;
    }
    CheckTakes(m0, hold, bits);
    StepGoes(m0, LsbBits(hold, bits));
    if wrap {
      assert output[..][put - (out - left)..put] == output[put - (out - left)..put];
      check := UpdateCheck(check, output[put - (out - left)..put], base);
      out := left;
      mode := if Swap(hold) != check then BAD else DONE;
      m := m0.(mode := mode);
      FineFinal(wrap, m0, consumed + input[..next], hold, bits, 32, m, hold, bits);
      FineSnug(wrap, m, consumed + input[..next], hold, bits);
      if mode == DONE {
        NothingHeld();
        FineFinal(wrap, m0, consumed + input[..next], hold, bits, 32, m, 0, 0);
        hold, bits := 0, 0;
        FineSnug(wrap, m, consumed + input[..next], hold, bits);
      }
    } else {
      mode := DONE;
      m := m0.(mode := DONE);
      FineFinal(wrap, m0, consumed + input[..next], hold, bits, 0, m, hold, bits);
      FineSnug(wrap, m, consumed + input[..next], hold, bits);
    }
  }

  // ---------------------------------------------------------------- code length codes

  /** The code length code's lengths read so far are in their places. */
  ghost predicate Permuting(lens: seq<nat>, read: seq<nat>) {
    |read| <= 19 <= |lens| && forall i | 0 <= i < |read| :: ORDER[i] < 19 && lens[ORDER[i]] == read[i]
  }

  lemma PermutingMore(lens: seq<nat>, read: seq<nat>, x: nat)
    requires Permuting(lens, read) && |read| < 19
    ensures ORDER[|read|] < 19 && Permuting(lens[ORDER[|read|] := x], read + [x])
  {
    OrderIsPermutation(|read|);
    var u, r := lens[ORDER[|read|] := x], read + [x];
    forall i | 0 <= i < |r| ensures ORDER[i] < 19 && u[ORDER[i]] == r[i] {
      OrderIsPermutation(i);
    }
  }

  /** With zeros for the lengths that are not stored, all are in place. */
  lemma PermutingDone(lens: seq<nat>, read: seq<nat>, n: nat)
    requires n == |read| <= 19 && Permuting(lens, read + Repeat(0, 19 - n))
    ensures lens[..19] == Permuted(read)
  {
    var all := read + Repeat(0, 19 - n);
    forall i | 0 <= i < 19 ensures lens[i] == Permuted(read)[i] {
      OrderIsPermutation(i);
      assert lens[ORDER[PLACE[i]]] == all[PLACE[i]];
    }
  }

  /** LENLENS: reads the lengths of the code length code as far as the input goes. */
  method StepLenLens(lens: array<nat>, have0: nat, ncode: nat, input: seq<byte>, next0: nat, hold0: nat, bits0: nat,
                     ghost wrap: bool, ghost consumed: seq<byte>, ghost m0: Machine)
    returns (go: bool, have: nat, next: nat, hold: nat, bits: nat, ghost m: Machine)
    requires next0 <= |input| && Fine(wrap, m0, consumed + input[..next0], hold0, bits0) && m0.mode == LENLENS
    requires Snug(m0, hold0, bits0)
    requires have0 == |m0.lens| && ncode == m0.ncode && Permuting(lens[..], m0.lens)
    modifies lens
    ensures next0 <= next <= |input| && Fine(wrap, m, consumed + input[..next], hold, bits) && Permuting(lens[..], m.lens)
    ensures m == m0.(lens := m.lens) && have == |m.lens| && Todo(input, next, bits) <= Todo(input, next0, bits0)
    ensures Snug(m, hold, bits)
    ensures if go then have == ncode else Halts(m, hold, bits, input, next, 1)
  {
    hide Fine, Next, Shr, Low, LsbBits, Pow2, Proper, Permuting;
    go, have, next, hold, bits, m := true, have0, next0, hold0, bits0, m0;
    FineIs(wrap, m0, consumed + input[..next], hold, bits);
    LenLensShape(m0);
    while have < ncode
      invariant next0 <= next <= |input| && Fine(wrap, m, consumed + input[..next], hold, bits)
        && Permuting(lens[..], m.lens)
      invariant m == m0.(lens := m.lens) && have == |m.lens| <= ncode <= 19
      invariant Todo(input, next, bits) <= Todo(input, next0, bits0) && Snug(m, hold, bits)
      decreases ncode - have
    {
      go, next, hold, bits := NeedBits(3, input, next, hold, bits, wrap, consumed, m);
      FineIs(wrap, m, consumed + input[..next], hold, bits);
      if !go {
        ShortWaits(m, LsbBits(hold, bits));
        return;
      }
      LenLensTakes(m, hold, bits);
      ghost var l, v := lens[..], Low(hold, 3);
      PermutingMore(l, m.lens, v);
      PermutingSize(l, m.lens);
      lens[ORDER[have]] := Low(hold, 3);
      assert lens[..] == l[ORDER[have] := v];
      have := have + 1;
      FineStep(wrap, m, consumed + input[..next], hold, bits, 3, m.(lens := m.lens + [v]));
      m := m.(lens := m.lens + [v]);
      hold, bits := Shr(hold, 3), bits - 3;
      FineIs(wrap, m, consumed + input[..next], hold, bits);
    }
  }

  lemma LenLensShape(m: Machine)
    requires Proper(m) && m.mode == LENLENS
    ensures |m.lens| <= m.ncode <= 19 && Sizes(m)
  {
  }

  lemma PermutingSize(lens: seq<nat>, read: seq<nat>)
    requires Permuting(lens, read)
    ensures |read| <= 19 <= |lens|
  {
  }

  /** Zeros for the lengths that are not stored. */
  method ClearRest(lens: array<nat>, have0: nat, ghost read: seq<nat>)
    requires have0 == |read| && Permuting(lens[..], read)
    modifies lens
    ensures lens.Length >= 19 && lens[..19] == Permuted(read)
  {
    hide Permuting, Permuted;
    PermutingSize(lens[..], read);
    var have := have0;
    assert read + Repeat(0, 0) == read;
    while have < 19
      invariant have0 <= have <= 19 <= lens.Length && Permuting(lens[..], read + Repeat(0, have - have0))
    {
      ghost var l := lens[..];
      PermutingMore(l, read + Repeat(0, have - have0), 0);
      lens[ORDER[have]] := 0;
      assert lens[..] == l[ORDER[have] := 0];
      assert read + Repeat(0, have - have0) + [0] == read + Repeat(0, have + 1 - have0);
      have := have + 1;
    }
    PermutingDone(lens[..], read, have0);
    assert lens[..19] == lens[..][..19];
  }

  /** The end of LENLENS: zeros for the rest, and the table for the code length code. */
  method FinishLenLens(lens: array<nat>, have0: nat, codes: array<Entry>, work: array<nat>, ghost input: seq<byte>, ghost next: nat,
                       ghost hold: nat, ghost bits: nat, ghost wrap: bool, ghost consumed: seq<byte>, ghost m0: Machine)
    returns (mode: Mode, lenbits: nat, ghost m: Machine)
    requires next <= |input| && Fine(wrap, m0, consumed + input[..next], hold, bits) && m0.mode == LENLENS
    requires have0 == |m0.lens| == m0.ncode && Permuting(lens[..], m0.lens)
    requires Snug(m0, hold, bits) && lens != work && work.Length >= 288 && codes.Length >= ENOUGH
    modifies lens, codes, work
    ensures Snug(m, hold, bits)
    ensures Fine(wrap, m, consumed + input[..next], hold, bits) && mode == m.mode && Goes(m0, 0, m, 0)
    ensures m == m0.(lens := [], ll := m.ll, mode := mode) && (mode == CODELENS || mode == BAD)
    ensures mode == CODELENS ==>
      |m.ll| <= Symbols(CODES) && TableFor(codes[..], 0, lenbits, CODES, m.ll) && AtMost(m.ll, lenbits)
  {
    hide Fine, Next, LsbBits, Pow2, Proper, Permuting, TableFor, Acceptable, Permuted, Room, AtMost, Lengths;
    FineIs(wrap, m0, consumed + input[..next], hold, bits);
    LenLensShape(m0);
    ClearRest(lens, have0, m0.lens);
    ghost var cl := lens[..19];
    assert cl == lens[..][..19];
    PermutedSmall(m0);
    EnoughIsEnough([], [], cl);
    LenLensEnds(m0, LsbBits(hold, bits));
    StepGoes(m0, LsbBits(hold, bits));
    var ret, next', root := InflateTable(CODES, lens[..19], codes, 0, 7, work);
    lenbits := root;
    mode := if ret != 0 then BAD else CODELENS;
    m := m0.(lens := [], ll := cl, mode := mode);
    FineStep(wrap, m0, consumed + input[..next], hold, bits, 0, m);
    Still(hold);
    FineIs(wrap, m, consumed + input[..next], hold, bits);
    if ret == 0 {
      assert codes[..next'] == codes[..][..next'];
      TableStays(codes[..next'], codes[..], 0, root, CODES, cl);
    }
  }

  lemma PermutedSmall(m: Machine)
    requires Proper(m) && m.mode == LENLENS
    ensures Lengths(Permuted(m.lens)) && AtMost(Permuted(m.lens), 7)
  {
  }

  /** When the root table is as wide as the longest code it has no links. */
  lemma NoLinks(t: seq<Entry>, start: nat, root: nat, kind: CodeType, lens: seq<nat>, x: nat)
    requires Usable(kind, lens) && TableFor(t, start, root, kind, lens) && AtMost(lens, root)
    ensures start + Low(x, root) < |t| && !Link(t[start + Low(x, root)])
  {
    hide Low, Shr, Pow2, Acceptable, KraftSum, Known, Begins;
    assert Answers(t, start, root, kind, lens, x);
    if s: nat :| Begins(lens, s, x) {
      BeginsBound(lens, s, x);
    }
  }

  function RepeatBits(s: nat): nat {
    if s == 16 then 2 else if s == 17 then 3 else 7
  }

  /** What a repeat code makes of the machine. */
  function RepeatOutcome(m: Machine, s: nat, v: nat): Machine {
    if s == 16 then (if m.lens == [] then m.(mode := BAD) else Repeated(m, m.lens[|m.lens| - 1], 3 + v))
    else Repeated(m, 0, (if s == 17 then 3 else 11) + v)
  }

  lemma CodeLensTakes(m: Machine, hold: nat, bits: nat, e: Entry)
    requires Proper(m) && m.mode == CODELENS && |m.lens| < m.nlen + m.ndist && Holds(hold, bits)
    requires Reads(m.ll, CODES, LsbBits(hold, bits), e)
    ensures var b := LsbBits(hold, bits);
      if e.bits > bits then Next(m, b) == Wait
      else if e.val < 16 then Next(m, b) == Take(e.bits, m.(lens := m.lens + [e.val]))
      else if bits < e.bits + RepeatBits(e.val) then Next(m, b) == Wait
      else Next(m, b) == Take(if e.val == 16 && m.lens == [] then e.bits else e.bits + RepeatBits(e.val),
                              RepeatOutcome(m, e.val, Low(Shr(hold, e.bits), RepeatBits(e.val))))
  {
    hide Next, Proper, ReadSymbol, Low, Shr, LsbBits, Pow2, Field, Repeat;
    CodeLensIs(m, LsbBits(hold, bits));
    if e.val >= 16 && bits >= e.bits + RepeatBits(e.val) {
      PeekIs(hold, bits, e.bits, RepeatBits(e.val));
    }
  }

  /** The lengths read so far are at the front of the array. */
  ghost predicate AtFront(lens: seq<nat>, read: seq<nat>) {
    |read| <= |lens| && lens[..|read|] == read
  }

  lemma CodeLensShape(m: Machine)
    requires Proper(m) && m.mode == CODELENS
    ensures Sizes(m) && |m.lens| <= m.nlen + m.ndist && Usable(CODES, m.ll)
  {
    hide Usable, Lengths;
  }

  /** Enters a length several times. */
  method EnterLengths(lens: array<nat>, have0: nat, len: nat, copy0: nat, ghost read: seq<nat>) returns (have: nat)
    requires have0 == |read| && have0 + copy0 <= lens.Length && AtFront(lens[..], read)
    modifies lens
    ensures have == have0 + copy0 && AtFront(lens[..], read + Repeat(len, copy0))
  {
    have := have0;
    var copy := copy0;
    while copy != 0
      invariant 0 <= copy <= copy0 && have == have0 + copy0 - copy
      invariant forall i | 0 <= i < have :: lens[i] == if i < have0 then read[i] else len
      decreases copy
    {
      copy := copy - 1;
      lens[have] := len;
      have := have + 1;
    }
    assert lens[..][..have] == read + Repeat(len, copy0);
  }

  /** One symbol of the code length code, with its repetitions. */
  method StepCodeLen(table: array<Entry>, root: nat, lens: array<nat>, have0: nat, nlen: nat, ndist: nat, input: seq<byte>,
                     next0: nat, hold0: nat, bits0: nat, ghost wrap: bool, ghost consumed: seq<byte>, ghost m0: Machine)
    returns (go: bool, mode: Mode, have: nat, next: nat, hold: nat, bits: nat, ghost m: Machine)
    requires next0 <= |input| && Fine(wrap, m0, consumed + input[..next0], hold0, bits0) && m0.mode == CODELENS
    requires Snug(m0, hold0, bits0)
    requires have0 == |m0.lens| < nlen + ndist && nlen == m0.nlen && ndist == m0.ndist && AtFront(lens[..], m0.lens)
    requires Usable(CODES, m0.ll) && TableFor(table[..], 0, root, CODES, m0.ll) && AtMost(m0.ll, root) && lens.Length >= 320
    modifies lens
    ensures next0 <= next <= |input| && Fine(wrap, m, consumed + input[..next], hold, bits) && mode == m.mode
    ensures m == m0.(lens := m.lens, mode := mode) && (mode == CODELENS || mode == BAD)
    ensures Snug(m, hold, bits)
    ensures mode == CODELENS ==> have == |m.lens| && AtFront(lens[..], m.lens)
    ensures if go then Todo(input, next, bits) < Todo(input, next0, bits0) || mode == BAD
            else m == m0 && Todo(input, next, bits) == Todo(input, next0, bits0) && Halts(m, hold, bits, input, next, 1)
  {
    hide Fine, Next, Shr, Low, LsbBits, Pow2, Proper, Usable, TableFor, Reads, AtFront, ReadSymbol, Late;
    mode, have, m := CODELENS, have0, m0;
    ghost var d;
    var e;
    go, next, hold, bits, e, d :=
      RootEntry(table, 0, root, input, next0, hold0, bits0, CODES, m0.ll, wrap, consumed, m0);
    FineIs(wrap, m0, consumed + input[..next], hold, bits);
    NoLinks(table[..], 0, root, CODES, m0.ll, hold);
    CodeLensShape(m0);
    CodeLensTakes(m0, hold, bits, e);
    if !go {
      return;
    }
    LateSnug(table[..], 0, root, CODES, m0.ll, hold0, bits0, hold, bits, d);
    if e.val < 16 {
      FineStep(wrap, m0, consumed + input[..next], hold, bits, e.bits, m0.(lens := m0.lens + [e.val]));
      have := EnterLengths(lens, have, e.val, 1, m0.lens);
      assert Repeat(e.val, 1) == [e.val];
      hold, bits := Shr(hold, e.bits), bits - e.bits;
      m := m0.(lens := m0.lens + [e.val]);
      FineIs(wrap, m, consumed + input[..next], hold, bits);
      return;
    }
    var k := RepeatBits(e.val);
    ghost var b := LsbBits(hold, bits);
    go, next, hold, bits := NeedBits(e.bits + k, input, next, hold, bits, wrap, consumed, m0);
    FineIs(wrap, m0, consumed + input[..next], hold, bits);
    ReadsStill(m0.ll, CODES, b, LsbBits(hold, bits), e);
    CodeLensTakes(m0, hold, bits, e);
    if !go {
      return;
    }
    ghost var k1 := bits;
    mode, have, hold, bits, m := RepeatCode(e, lens, have, nlen + ndist, hold, bits, wrap, consumed + input[..next], m0);
    FineIs(wrap, m, consumed + input[..next], hold, bits);
    if mode == BAD {
      FineSnug(wrap, m, consumed + input[..next], hold, bits);
    }
  }

  lemma ReadsStill(lens: seq<nat>, kind: CodeType, b: seq<bool>, c: seq<bool>, e: Entry)
    requires Usable(kind, lens) && Reads(lens, kind, b, e) && e.bits <= |b| && b <= c
    ensures Reads(lens, kind, c, e)
  {
    hide ReadSymbol, Sound, Acceptable, EntryFor;
    AcceptableIsSound(kind, lens);
    ReadStable(lens, b, c[|b|..]);
    assert b + c[|b|..] == c;
  }

  /** Codes 16 to 18: how often which length is repeated, if that is possible. */
  method RepeatCode(e: Entry, lens: array<nat>, have0: nat, total: nat, hold0: nat, bits0: nat, ghost wrap: bool,
                    ghost seen: seq<byte>, ghost m0: Machine)
    returns (mode: Mode, have: nat, hold: nat, bits: nat, ghost m: Machine)
    requires Fine(wrap, m0, seen, hold0, bits0) && m0.mode == CODELENS && Reads(m0.ll, CODES, LsbBits(hold0, bits0), e)
    requires have0 == |m0.lens| < total == m0.nlen + m0.ndist && AtFront(lens[..], m0.lens) && total <= lens.Length
    requires e.val >= 16 && 1 <= e.bits && e.bits + RepeatBits(e.val) <= bits0
    modifies lens
    ensures Fine(wrap, m, seen, hold, bits) && mode == m.mode && bits < bits0
    ensures mode == CODELENS ==> bits == bits0 - e.bits - RepeatBits(e.val)
    ensures m == m0.(lens := m.lens, mode := mode) && (mode == CODELENS || mode == BAD)
    ensures mode == CODELENS ==> have == |m.lens| && AtFront(lens[..], m.lens)
  {
    hide Fine, Next, Shr, Low, LsbBits, Pow2, Proper, Reads, AtFront;
    FineIs(wrap, m0, seen, hold0, bits0);
    CodeLensTakes(m0, hold0, bits0, e);
    mode, have := CODELENS, have0;
    hold, bits := Shr(hold0, e.bits), bits0 - e.bits;
    var k := RepeatBits(e.val);
    ghost var v := Low(hold, k);
    m := RepeatOutcome(m0, e.val, v);
    var len, copy;
    if e.val == 16 {
      if have == 0 {
        mode := BAD;
        DroppedHolds(hold0, bits0, e.bits);
        FineFinal(wrap, m0, seen, hold0, bits0, e.bits, m, hold, bits);
        return;
      }
      len := lens[have - 1];
      LastRead(lens[..], m0.lens);
      copy := 3 + Low(hold, 2);
    } else if e.val == 17 {
      len, copy := 0, 3 + Low(hold, 3);
    } else {
      len, copy := 0, 11 + Low(hold, 7);
    }
    FineStep(wrap, m0, seen, hold0, bits0, e.bits + k, m);
    ShrShr(hold0, e.bits, k);
    hold, bits := Shr(hold, k), bits - k;
    if have + copy > total {
      mode := BAD;
      return;
    }
    have := EnterLengths(lens, have, len, copy, m0.lens);
  }

  lemma LastRead(lens: seq<nat>, read: seq<nat>)
    requires AtFront(lens, read) && read != []
    ensures |read| <= |lens| && lens[|read| - 1] == read[|read| - 1]
  {
    assert lens[..|read|][|read| - 1] == lens[|read| - 1];
  }

  /** CODELENS: reads the lengths of both codes as far as the input goes. */
  method StepCodeLens(table: array<Entry>, root: nat, lens: array<nat>, have0: nat, nlen: nat, ndist: nat, input: seq<byte>,
                      next0: nat, hold0: nat, bits0: nat, ghost wrap: bool, ghost consumed: seq<byte>, ghost m0: Machine)
    returns (go: bool, mode: Mode, have: nat, next: nat, hold: nat, bits: nat, ghost m: Machine)
    requires next0 <= |input| && Fine(wrap, m0, consumed + input[..next0], hold0, bits0) && m0.mode == CODELENS
    requires Snug(m0, hold0, bits0)
    requires have0 == |m0.lens| && nlen == m0.nlen && ndist == m0.ndist && AtFront(lens[..], m0.lens)
    requires TableFor(table[..], 0, root, CODES, m0.ll) && AtMost(m0.ll, root) && |m0.ll| <= 19 && lens.Length >= 320
    modifies lens
    ensures next0 <= next <= |input| && Fine(wrap, m, consumed + input[..next], hold, bits) && mode == m.mode
    ensures m == m0.(lens := m.lens, mode := mode) && (mode == CODELENS || mode == BAD)
    ensures mode == CODELENS ==> have == |m.lens| && AtFront(lens[..], m.lens)
    ensures Todo(input, next, bits) <= Todo(input, next0, bits0) || mode == BAD
    ensures Snug(m, hold, bits)
    ensures if go then mode == BAD || have == nlen + ndist else Halts(m, hold, bits, input, next, 1)
  {
    hide Fine, Next, LsbBits, Pow2, Proper, TableFor, AtFront, AtMost, Usable, Halts;
    go, mode, have, next, hold, bits, m := true, CODELENS, have0, next0, hold0, bits0, m0;
    ghost var t := table[..];
    FineIs(wrap, m0, consumed + input[..next], hold, bits);
    CodeLensShape(m0);
    while have < nlen + ndist
      invariant go && next0 <= next <= |input| && Fine(wrap, m, consumed + input[..next], hold, bits)
        && mode == m.mode == CODELENS
      invariant m == m0.(lens := m.lens) && have == |m.lens| <= nlen + ndist && AtFront(lens[..], m.lens) && table[..] == t
      invariant Todo(input, next, bits) <= Todo(input, next0, bits0) && Snug(m, hold, bits)
      decreases bits + 8 * (|input| - next)
    {
      go, mode, have, next, hold, bits, m :=
        StepCodeLen(table, root, lens, have, nlen, ndist, input, next, hold, bits, wrap, consumed, m);
      FineIs(wrap, m, consumed + input[..next], hold, bits);
      if !go || mode == BAD {
        return;
      }
      CodeLensShape(m);
    }
  }

  lemma CodeLensEnds(m: Machine, b: seq<bool>)
    requires Proper(m) && m.mode == CODELENS && |m.lens| == m.nlen + m.ndist
    ensures var ll, dd := m.lens[..m.nlen], m.lens[m.nlen..];
      Next(m, b) == Take(0, if Acceptable(LENS, ll) && Acceptable(DISTS, dd) then m.(mode := LEN, ll := ll, dd := dd)
                            else m.(mode := BAD))
  {
    hide Next, Proper, ReadSymbol, Acceptable;
    CodeLensIs(m, b);
  }

  lemma LengthsApart(m: Machine)
    requires Proper(m) && m.mode == CODELENS && |m.lens| == m.nlen + m.ndist
    ensures Lengths(m.lens[..m.nlen]) && Lengths(m.lens[m.nlen..])
  {
    hide Usable;
  }

  /** The end of CODELENS: the tables for both codes. */
  method FinishCodeLens(lens: array<nat>, nlen: nat, ndist: nat, codes: array<Entry>, work: array<nat>, ghost input: seq<byte>,
                        ghost next: nat, ghost hold: nat, ghost bits: nat, ghost wrap: bool, ghost consumed: seq<byte>,
                        ghost m0: Machine)
    returns (mode: Mode, lenbits: nat, distStart: nat, distbits: nat, ghost m: Machine)
    requires next <= |input| && Fine(wrap, m0, consumed + input[..next], hold, bits) && m0.mode == CODELENS
    requires |m0.lens| == nlen + ndist && nlen == m0.nlen && ndist == m0.ndist && AtFront(lens[..], m0.lens)
    requires Snug(m0, hold, bits) && lens != work && work.Length >= 288 && codes.Length >= ENOUGH
    modifies codes, work
    ensures Snug(m, hold, bits)
    ensures Fine(wrap, m, consumed + input[..next], hold, bits) && mode == m.mode && Goes(m0, 0, m, 0)
    ensures m == m0.(ll := m.ll, dd := m.dd, mode := mode) && (mode == LEN || mode == BAD)
    ensures mode == LEN ==> |m.ll| <= Symbols(LENS) && |m.dd| <= Symbols(DISTS)
    ensures mode == LEN ==>
      TableFor(codes[..], 0, lenbits, LENS, m.ll) && TableFor(codes[..], distStart, distbits, DISTS, m.dd)
  {
    hide Fine, Next, LsbBits, Pow2, Proper, AtFront, TableFor, Acceptable, Room, AtMost, Lengths, Usable;
    FineIs(wrap, m0, consumed + input[..next], hold, bits);
    CodeLensShape(m0);
    LengthsApart(m0);
    FrontParts(lens[..], m0.lens, nlen);
    ghost var ll, dd := m0.lens[..nlen], m0.lens[nlen..];
    EnoughIsEnough(ll, dd, []);
    CodeLensEnds(m0, LsbBits(hold, bits));
    StepGoes(m0, LsbBits(hold, bits));
    Still(hold);
    mode, m := BAD, m0.(mode := BAD);
    distStart, distbits := 0, 0;
    var ret;
    ret, distStart, lenbits := InflateTable(LENS, lens[..nlen], codes, 0, 9, work);
    if ret == 0 {
      ghost var t := codes[..distStart];
      var next';
      ret, next', distbits := InflateTable(DISTS, lens[nlen..nlen + ndist], codes, distStart, 6, work);
      if ret == 0 {
        mode, m := LEN, m0.(mode := LEN, ll := ll, dd := dd);
        assert t == codes[..][..distStart] && codes[..next'] == codes[..][..next'];
        TableStays(t, codes[..], 0, lenbits, LENS, ll);
        TableStays(codes[..next'], codes[..], distStart, distbits, DISTS, dd);
      }
    }
    FineStep(wrap, m0, consumed + input[..next], hold, bits, 0, m);
    FineIs(wrap, m, consumed + input[..next], hold, bits);
  }

  lemma FrontParts(lens: seq<nat>, read: seq<nat>, n: nat)
    requires AtFront(lens, read) && n <= |read|
    ensures |read| <= |lens| && lens[..n] == read[..n] && lens[n..|read|] == read[n..]
  {
    assert lens[..|read|][..n] == lens[..n];
    assert lens[..|read|][n..] == lens[n..|read|];
  }
}
