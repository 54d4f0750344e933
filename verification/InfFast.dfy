/** inflate_fast() of src/ext/zlib/inffast.c: the decoding loop that reads input ahead of what it has used, several bytes at a
    time and without asking whether they are there, and gives the unused ones back at its end. */
module InfFast {
  import opened Bits
  import opened Canonical
  import opened Reversal
  import opened Streams
  import opened DecodeTables
  import opened InfTrees
  import opened Reading
  import opened Inflation
  import opened Simulation
  import opened Window
  import opened Inflate

  // ---------------------------------------------------------------- reading ahead

  /** The registers hold input beyond a state (n1, h1, b1) that is in step with the machine. */
  ghost predicate Ahead(wrap: bool, m: Machine, consumed: seq<byte>, input: seq<byte>, n1: nat, h1: nat, b1: nat,
                        next: nat, hold: nat, bits: nat)
  {
    && n1 <= next <= |input| && Fine(wrap, m, consumed + input[..n1], h1, b1) && Snug(m, h1, b1)
    && Holds(hold, bits) && bits == b1 + 8 * (next - n1) && bits <= 32
    && LsbBits(hold, bits) == LsbBits(h1, b1) + BitsOf(input[n1..next])
  }

  lemma AheadStart(wrap: bool, m: Machine, consumed: seq<byte>, input: seq<byte>, next: nat, hold: nat, bits: nat)
    requires next <= |input| && Fine(wrap, m, consumed + input[..next], hold, bits) && Snug(m, hold, bits)
    ensures Ahead(wrap, m, consumed, input, next, hold, bits, next, hold, bits)
  {
    hide Proper, Synced, Snug, LsbBits;
    assert input[next..next] == [];
    assert LsbBits(hold, bits) + [] == LsbBits(hold, bits);
  }

  lemma AheadPull(wrap: bool, m: Machine, consumed: seq<byte>, input: seq<byte>, n1: nat, h1: nat, b1: nat,
                  next: nat, hold: nat, bits: nat)
    requires Ahead(wrap, m, consumed, input, n1, h1, b1, next, hold, bits) && next < |input| && bits <= 24
    ensures Ahead(wrap, m, consumed, input, n1, h1, b1, next + 1, hold + Shl(input[next], bits), bits + 8)
  {
    hide Fine, Snug, LsbBits, Shl, Pow2, BitsOf;
    Streams.PullByte(hold, bits, input[next]);
    var s := input[n1..next];
    assert input[n1..next + 1] == s + [input[next]];
    BitsOfAppend(s, [input[next]]);
    OneByteBits(input[next]);
    assert LsbBits(h1, b1) + (BitsOf(s) + LsbBits(input[next], 8)) == LsbBits(h1, b1) + BitsOf(s) + LsbBits(input[next], 8);
  }

  /** Bringing the state in step up until it holds n bits. */
  lemma {:induction false} CatchUp(wrap: bool, m: Machine, consumed: seq<byte>, input: seq<byte>, n1: nat, h1: nat, b1: nat,
                                   next: nat, hold: nat, bits: nat, n: nat)
    returns (n2: nat, h: nat, b: nat)
    requires n1 <= next <= |input| && Fine(wrap, m, consumed + input[..n1], h1, b1) && n <= bits && n <= 15
    requires Holds(hold, bits) && bits == b1 + 8 * (next - n1)
      && LsbBits(hold, bits) == LsbBits(h1, b1) + BitsOf(input[n1..next])
    ensures n1 <= n2 <= next && Fine(wrap, m, consumed + input[..n2], h, b) && n <= b
    ensures bits == b + 8 * (next - n2) && LsbBits(hold, bits) == LsbBits(h, b) + BitsOf(input[n2..next])
    ensures (n2 == n1 && h == h1 && b == b1) || b < n + 8
    decreases next - n1
  {
    hide Synced, Proper, LsbBits, Shl, Pow2, BitsOf;
    if b1 >= n {
      n2, h, b := n1, h1, b1;
    } else {
      var byte := input[n1];
      var h' := h1 + Shl(byte, b1);
      SyncedPull(wrap, consumed + input[..n1], m, h1, b1, byte);
      Streams.PullByte(h1, b1, byte);
      assert consumed + input[..n1 + 1] == consumed + input[..n1] + [byte];
      var s := input[n1 + 1..next];
      assert input[n1..next] == [byte] + s;
      BitsOfAppend([byte], s);
      OneByteBits(byte);
      assert LsbBits(h1, b1) + (LsbBits(byte, 8) + BitsOf(s)) == LsbBits(h1, b1) + LsbBits(byte, 8) + BitsOf(s);
      n2, h, b := CatchUp(wrap, m, consumed, input, n1 + 1, h', b1 + 8, next, hold, bits, n);
    }
  }

  /** A step of n bits, known for the state that has just these bits. */
  lemma AheadTake(wrap: bool, m: Machine, consumed: seq<byte>, input: seq<byte>, n2: nat, h: nat, b: nat,
                  next: nat, hold: nat, bits: nat, n: nat, m': Machine)
    requires n2 <= next <= |input| && Fine(wrap, m, consumed + input[..n2], h, b) && n <= b < n + 8 && bits <= 32
    requires Holds(hold, bits) && bits == b + 8 * (next - n2)
      && LsbBits(hold, bits) == LsbBits(h, b) + BitsOf(input[n2..next])
    requires m'.wrap == wrap && Next(m, LsbBits(h, b)) == Take(n, m')
    ensures Ahead(wrap, m', consumed, input, n2, Shr(h, n), b - n, next, Shr(hold, n), bits - n)
  {
    hide Fine, LsbBits, Shr, Pow2, BitsOf, Next;
    FineIs(wrap, m, consumed + input[..n2], h, b);
    FineStep(wrap, m, consumed + input[..n2], h, b, n, m');
    FineIs(wrap, m', consumed + input[..n2], Shr(h, n), b - n);
    DropBits(hold, bits, n);
    DropBits(h, b, n);
    var x, y := LsbBits(h, b), BitsOf(input[n2..next]);
    assert (x + y)[n..] == x[n..] + y;
  }

  lemma AheadIs(wrap: bool, m: Machine, consumed: seq<byte>, input: seq<byte>, n1: nat, h1: nat, b1: nat,
                next: nat, hold: nat, bits: nat)
    requires Ahead(wrap, m, consumed, input, n1, h1, b1, next, hold, bits)
    ensures n1 <= next <= |input| && Proper(m) && Holds(hold, bits) && bits == b1 + 8 * (next - n1) && m.wrap == wrap
      && bits <= 32
  {
    hide Proper, Synced, Snug, LsbBits;
  }

  /** Giving unused bytes back leads to the state in step. */
  lemma GiveBack(wrap: bool, m: Machine, consumed: seq<byte>, input: seq<byte>, n1: nat, h1: nat, b1: nat,
                 next: nat, hold: nat, bits: nat)
    requires Ahead(wrap, m, consumed, input, n1, h1, b1, next, hold, bits) && b1 < 8
    ensures bits / 8 <= next && n1 == next - bits / 8 && b1 == bits % 8 && h1 == Low(hold, bits % 8)
    ensures Fine(wrap, m, consumed + input[..n1], h1, b1) && Snug(m, h1, b1)
  {
    hide Proper, Synced, Snug, LsbBits, BitsOf, Low, Pow2;
    TakeBits(hold, bits, b1);
    TakeBits(h1, b1, b1);
    LowSmall(h1, b1);
    var x, y := LsbBits(h1, b1), BitsOf(input[n1..next]);
    assert (x + y)[..b1] == x[..b1];
  }

  // ---------------------------------------------------------------- one step of the machine, ahead

  lemma ReadsLess(t: seq<Entry>, start: nat, root: nat, kind: CodeType, lens: seq<nat>, b: seq<bool>, c: seq<bool>, d: Entry)
    requires Usable(kind, lens) && TableFor(t, start, root, kind, lens) && Reads(lens, kind, c, d) && b <= c
      && 1 <= d.bits <= |b|
    ensures Reads(lens, kind, b, d)
  {
    hide ReadSymbol, EntryFor, Answers, Known, Acceptable, KraftSum, Pow2, Lengths, Sound;
    AcceptableIsSound(kind, lens);
    if ReadSymbol(lens, c).Symbol? {
      ReadLocal(lens, b, c);
    } else {
      NoSymbolLocal(kind, lens, b, c);
    }
  }

  /** A length symbol. */
  lemma AheadLen(wrap: bool, m: Machine, consumed: seq<byte>, input: seq<byte>, n1: nat, h1: nat, b1: nat,
                 next: nat, hold: nat, bits: nat, t: seq<Entry>, root: nat, d: Entry)
    returns (n2: nat, h2: nat, b2: nat)
    requires Ahead(wrap, m, consumed, input, n1, h1, b1, next, hold, bits) && m.mode == LEN
    requires Usable(LENS, m.ll) && TableFor(t, 0, root, LENS, m.ll)
    requires Reads(m.ll, LENS, LsbBits(hold, bits), d) && 1 <= d.bits <= bits && d.bits <= 15
    ensures n1 <= n2 && b2 < 8
    ensures Ahead(wrap, LenOutcome(m, d.op, d.val), consumed, input, n2, h2, b2, next, Shr(hold, d.bits), bits - d.bits)
  {
    hide Fine, Next, LsbBits, Shr, Pow2, BitsOf, Usable, TableFor, Reads, EndOfBlock, Invalid, Proper;
    AheadIs(wrap, m, consumed, input, n1, h1, b1, next, hold, bits);
    var h, b;
    n2, h, b := CatchUp(wrap, m, consumed, input, n1, h1, b1, next, hold, bits, d.bits);
    ReadsLess(t, 0, root, LENS, m.ll, LsbBits(h, b), LsbBits(hold, bits), d);
    LenTakes(m, LsbBits(h, b), d);
    AheadTake(wrap, m, consumed, input, n2, h, b, next, hold, bits, d.bits, LenOutcome(m, d.op, d.val));
    h2, b2 := Shr(h, d.bits), b - d.bits;
  }

  /** A distance symbol. */
  lemma AheadDist(wrap: bool, m: Machine, consumed: seq<byte>, input: seq<byte>, n1: nat, h1: nat, b1: nat,
                  next: nat, hold: nat, bits: nat, t: seq<Entry>, start: nat, root: nat, d: Entry)
    returns (n2: nat, h2: nat, b2: nat)
    requires Ahead(wrap, m, consumed, input, n1, h1, b1, next, hold, bits) && m.mode == DIST
    requires Usable(DISTS, m.dd) && TableFor(t, start, root, DISTS, m.dd)
    requires Reads(m.dd, DISTS, LsbBits(hold, bits), d) && 1 <= d.bits <= bits && d.bits <= 15
    ensures n1 <= n2 && b2 < 8
    ensures Ahead(wrap, DistOutcome(m, d.op, d.val), consumed, input, n2, h2, b2, next, Shr(hold, d.bits), bits - d.bits)
  {
    hide Fine, Next, LsbBits, Shr, Pow2, BitsOf, Usable, TableFor, Reads, EndOfBlock, Invalid, Proper;
    AheadIs(wrap, m, consumed, input, n1, h1, b1, next, hold, bits);
    var h, b;
    n2, h, b := CatchUp(wrap, m, consumed, input, n1, h1, b1, next, hold, bits, d.bits);
    ReadsLess(t, start, root, DISTS, m.dd, LsbBits(h, b), LsbBits(hold, bits), d);
    DistTakes(m, LsbBits(h, b), d);
    AheadTake(wrap, m, consumed, input, n2, h, b, next, hold, bits, d.bits, DistOutcome(m, d.op, d.val));
    h2, b2 := Shr(h, d.bits), b - d.bits;
  }

  /** What extra bits of value v make of the machine. */
  function ExtraOutcome(m: Machine, v: nat): Machine
    requires m.mode == LENEXT || m.mode == DISTEXT
  {
    if m.mode == LENEXT then m.(mode := DIST, length := m.length + v)
    else m.(offset := m.offset + v, tokens := m.tokens + [Match(m.length, m.offset + v)],
            mode := if m.offset + v > |m.history| then BAD else MATCH)
  }

  lemma AheadExtra(wrap: bool, m: Machine, consumed: seq<byte>, input: seq<byte>, n1: nat, h1: nat, b1: nat,
                   next: nat, hold: nat, bits: nat)
    returns (n2: nat, h2: nat, b2: nat)
    requires Ahead(wrap, m, consumed, input, n1, h1, b1, next, hold, bits) && (m.mode == LENEXT || m.mode == DISTEXT)
    requires m.extra <= bits && m.extra <= 15
    ensures n1 <= n2 && b2 < 8
    ensures Ahead(wrap, ExtraOutcome(m, Low(hold, m.extra)), consumed, input, n2, h2, b2, next, Shr(hold, m.extra), bits - m.extra)
  {
    hide Fine, Next, LsbBits, Shr, Low, Pow2, BitsOf, Proper;
    AheadIs(wrap, m, consumed, input, n1, h1, b1, next, hold, bits);
    var h, b;
    n2, h, b := CatchUp(wrap, m, consumed, input, n1, h1, b1, next, hold, bits, m.extra);
    FineIs(wrap, m, consumed + input[..n2], h, b);
    SameLow(h, b, hold, bits, m.extra);
    ExtraTakes(m, h, b);
    AheadTake(wrap, m, consumed, input, n2, h, b, next, hold, bits, m.extra, ExtraOutcome(m, Low(hold, m.extra)));
    h2, b2 := Shr(h, m.extra), b - m.extra;
  }

  lemma SameLow(h: nat, b: nat, hold: nat, bits: nat, n: nat)
    requires Holds(h, b) && Holds(hold, bits) && n <= b && LsbBits(h, b) <= LsbBits(hold, bits)
    ensures Low(h, n) == Low(hold, n)
  {
    hide LsbBits, Low, Pow2;
    TakeBits(h, b, n);
    TakeBits(hold, bits, n);
    assert LsbBits(hold, bits)[..b] == LsbBits(h, b);
    assert LsbBits(hold, bits)[..n] == LsbBits(h, b)[..n];
  }

  /** A literal, written. */
  lemma AheadLit(wrap: bool, m: Machine, consumed: seq<byte>, input: seq<byte>, n1: nat, h1: nat, b1: nat,
                 next: nat, hold: nat, bits: nat)
    requires Ahead(wrap, m, consumed, input, n1, h1, b1, next, hold, bits) && m.mode == LIT && m.length < 256
    ensures Ahead(wrap, m.(mode := LEN, history := m.history + [m.length], tokens := m.tokens + [Literal(m.length)]),
                  consumed, input, n1, h1, b1, next, hold, bits)
  {
    hide Fine, Next, LsbBits, Pow2, BitsOf, Proper, Shr;
    AheadIs(wrap, m, consumed, input, n1, h1, b1, next, hold, bits);
    var b := LsbBits(h1, b1);
    LenIs(m, b);
    var m' := m.(mode := LEN, history := m.history + [m.length], tokens := m.tokens + [Literal(m.length)]);
    FineStep(wrap, m, consumed + input[..n1], h1, b1, 0, m');
    Still(h1);
    FineIs(wrap, m', consumed + input[..n1], h1, b1);
  }

  /** A match, copied. */
  lemma AheadMatch(wrap: bool, m: Machine, consumed: seq<byte>, input: seq<byte>, n1: nat, h1: nat, b1: nat,
                   next: nat, hold: nat, bits: nat)
    requires Ahead(wrap, m, consumed, input, n1, h1, b1, next, hold, bits) && m.mode == MATCH
    ensures 1 <= m.offset <= |m.history|
    ensures Ahead(wrap, Copied(m, m.length), consumed, input, n1, h1, b1, next, hold, bits)
  {
    hide Fine, Next, LsbBits, Pow2, BitsOf, Proper, CopyBack;
    AheadIs(wrap, m, consumed, input, n1, h1, b1, next, hold, bits);
    MatchShape(m);
    MatchNext(m, LsbBits(h1, b1));
    FineMatch(wrap, m, consumed + input[..n1], h1, b1, m.length);
    FineIs(wrap, Copied(m, m.length), consumed + input[..n1], h1, b1);
  }

  // ---------------------------------------------------------------- input without asking

  /** From `ns` on, where the accumulator had `bs` bits, c bits have been used. */
  predicate Spent(ns: nat, bs: nat, next: nat, bits: nat, c: nat) {
    ns <= next && 8 * (next - ns) + bs == bits + c
  }

  method Pull(input: seq<byte>, next0: nat, hold0: nat, bits0: nat, ghost wrap: bool, ghost m: Machine, ghost consumed: seq<byte>,
              ghost n1: nat, ghost h1: nat, ghost b1: nat)
    returns (next: nat, hold: nat, bits: nat)
    requires next0 < |input| && bits0 <= 24 && Ahead(wrap, m, consumed, input, n1, h1, b1, next0, hold0, bits0)
    ensures next == next0 + 1 && bits == bits0 + 8 && Ahead(wrap, m, consumed, input, n1, h1, b1, next, hold, bits)
  {
    hide Ahead, Shl;
    AheadPull(wrap, m, consumed, input, n1, h1, b1, next0, hold0, bits0);
    next, hold, bits := next0 + 1, hold0 + Shl(input[next0], bits0), bits0 + 8;
  }

  /** Two bytes at once, if fewer than 15 bits are there. */
  method FillUp(input: seq<byte>, next0: nat, hold0: nat, bits0: nat, ghost ns: nat, ghost bs: nat, ghost c: nat,
                ghost wrap: bool, ghost m: Machine, ghost consumed: seq<byte>, ghost n1: nat, ghost h1: nat, ghost b1: nat)
    returns (next: nat, hold: nat, bits: nat)
    requires Ahead(wrap, m, consumed, input, n1, h1, b1, next0, hold0, bits0) && Spent(ns, bs, next0, bits0, c)
    requires ns + 6 <= |input| && c <= 20
    ensures Ahead(wrap, m, consumed, input, n1, h1, b1, next, hold, bits) && Spent(ns, bs, next, bits, c) && bits >= 15
  {
    hide Ahead;
    next, hold, bits := next0, hold0, bits0;
    if bits < 15 {
      next, hold, bits := Pull(input, next, hold, bits, wrap, m, consumed, n1, h1, b1);
      next, hold, bits := Pull(input, next, hold, bits, wrap, m, consumed, n1, h1, b1);
    }
  }

  /** Looking a code up in at most two tables; each entry's bits are dropped as it is found. */
  method LookUp(table: array<Entry>, start: nat, root: nat, hold0: nat, bits0: nat, ghost kind: CodeType, ghost lens: seq<nat>)
    returns (op: nat, val: nat, hold: nat, bits: nat, ghost d: Entry)
    requires Usable(kind, lens) && TableFor(table[..], start, root, kind, lens) && Holds(hold0, bits0) && bits0 >= 15
    ensures Reads(lens, kind, LsbBits(hold0, bits0), d) && 1 <= d.bits <= 15 && op == d.op && val == d.val
    ensures hold == Shr(hold0, d.bits) && bits == bits0 - d.bits
  {
    hide Usable, TableFor, Low, Shr, Pow2, LsbBits, Reads;
    ghost var e';
    e', d := LookedUp(table[..], start, root, kind, lens, hold0, bits0);
    var e := table[start + Low(hold0, root)];
    hold, bits := Shr(hold0, e.bits), bits0 - e.bits;
    op, val := e.op, e.val;
    if Link(e) {
      var f := table[start + (e.val + Low(hold, op))];
      ShrShr(hold0, e.bits, f.bits);
      hold, bits := Shr(hold, f.bits), bits - f.bits;
      op, val := f.op, f.val;
    }
  }

  /** The tests on op in the order of inflate_fast. */
  lemma OpTests(lens: seq<nat>, b: seq<bool>, d: Entry)
    requires Reads(lens, LENS, b, d) && d.bits <= |b| && |lens| <= 288
    ensures d.op == 0 || d.op / 16 % 2 == 1 || d.op >= 64
    ensures d.op != 0 && d.op / 16 % 2 == 1 ==> !EndOfBlock(d.op) && !Invalid(d.op)
    ensures d.op != 0 && d.op / 16 % 2 != 1 ==> Invalid(d.op)
    ensures d.op == 0 ==> d.val < 256
  {
    hide ReadSymbol;
    EndOps();
    var r := ReadSymbol(lens, b);
    if r.Symbol? && r.s >= 257 {
      LenOpBits(r.s);
    }
  }

  lemma LenOpBits(s: nat)
    requires 257 <= s < 288
    ensures LExt(s) != 0
    ensures LExt(s) / 16 % 2 == 1 ==> !EndOfBlock(LExt(s)) && !Invalid(LExt(s))
    ensures LExt(s) / 16 % 2 != 1 ==> Invalid(LExt(s)) && !EndOfBlock(LExt(s)) && LExt(s) >= 64
  {
  }

  lemma DistOpTests(lens: seq<nat>, b: seq<bool>, d: Entry)
    requires Reads(lens, DISTS, b, d) && d.bits <= |b| && |lens| <= 32
    ensures d.op / 16 % 2 == 1 <==> !Invalid(d.op)
  {
    hide ReadSymbol;
    EndOps();
    var r := ReadSymbol(lens, b);
    if r.Symbol? {
      DistOpBits(r.s);
    }
  }

  lemma DistOpBits(s: nat)
    requires s < 32
    ensures DExt(s) / 16 % 2 == 1 <==> !Invalid(DExt(s))
  {
  }

  /** The first part of a turn: a length symbol. */
  method FastLen(table: array<Entry>, root: nat, input: seq<byte>, next0: nat, hold0: nat, bits0: nat,
                 ghost wrap: bool, ghost m0: Machine, ghost consumed: seq<byte>, ghost n1: nat, ghost h1: nat, ghost b1: nat)
    returns (next: nat, hold: nat, bits: nat, op: nat, val: nat, ghost m: Machine, ghost c: nat,
             ghost n2: nat, ghost h2: nat, ghost b2: nat)
    requires Ahead(wrap, m0, consumed, input, n1, h1, b1, next0, hold0, bits0) && m0.mode == LEN && next0 + 6 <= |input|
    requires Usable(LENS, m0.ll) && TableFor(table[..], 0, root, LENS, m0.ll)
    ensures m == LenOutcome(m0, op, val) && Ahead(wrap, m, consumed, input, n2, h2, b2, next, hold, bits) && b2 < 8
      && n1 <= n2
    ensures Spent(next0, bits0, next, bits, c) && 1 <= c <= 15
    ensures op == 0 ==> val < 256
    ensures op != 0 ==> if op / 16 % 2 == 1 then !EndOfBlock(op) && !Invalid(op) else Invalid(op) && op >= 64
  {
    hide Ahead, Usable, TableFor, Shr, Pow2, LsbBits, Reads, EndOfBlock, Invalid;
    next, hold, bits := FillUp(input, next0, hold0, bits0, next0, bits0, 0, wrap, m0, consumed, n1, h1, b1);
    AheadIs(wrap, m0, consumed, input, n1, h1, b1, next, hold, bits);
    ghost var d, h, k := INVALID, hold, bits;
    op, val, hold, bits, d := LookUp(table, 0, root, hold, bits, LENS, m0.ll);
    n2, h2, b2 := AheadLen(wrap, m0, consumed, input, n1, h1, b1, next, h, k, table[..], root, d);
    UsableSize(LENS, m0.ll);
    OpTests(m0.ll, LsbBits(h, k), d);
    m, c := LenOutcome(m0, op, val), d.bits;
  }

  lemma UsableSize(kind: CodeType, lens: seq<nat>)
    requires Usable(kind, lens)
    ensures |lens| <= Symbols(kind)
  {
  }

  /** The extra bits of a length, and the distance symbol. */
  method FastDist(dtable: array<Entry>, start: nat, root: nat, op0: nat, len0: nat, input: seq<byte>, next0: nat, hold0: nat, bits0: nat,
                  ghost ns: nat, ghost bs: nat, ghost c0: nat,
                  ghost wrap: bool, ghost m0: Machine, ghost consumed: seq<byte>, ghost n1: nat, ghost h1: nat, ghost b1: nat)
    returns (len: nat, next: nat, hold: nat, bits: nat, op: nat, val: nat, ghost m: Machine, ghost c: nat,
             ghost n2: nat, ghost h2: nat, ghost b2: nat)
    requires Ahead(wrap, m0, consumed, input, n1, h1, b1, next0, hold0, bits0) && m0.mode == LENEXT
    requires op0 % 16 == m0.extra && len0 == m0.length && Spent(ns, bs, next0, bits0, c0) && c0 <= 15 && ns + 6 <= |input|
    requires Usable(DISTS, m0.dd) && TableFor(dtable[..], start, root, DISTS, m0.dd)
    ensures m == DistOutcome(m0.(mode := DIST, length := len), op, val) && 3 <= len <= 258
    ensures Ahead(wrap, m, consumed, input, n2, h2, b2, next, hold, bits) && b2 < 8 && n1 <= n2
    ensures Spent(ns, bs, next, bits, c) && c0 <= c <= 35 && (op / 16 % 2 == 1 <==> !Invalid(op))
  {
    hide Ahead, Usable, TableFor, Shr, Low, Pow2, LsbBits, Reads, EndOfBlock, Invalid, Proper;
    len, next, hold, bits := len0, next0, hold0, bits0;
    AheadIs(wrap, m0, consumed, input, n1, h1, b1, next, hold, bits);
    LenExtShape(m0);
    op := op0 % 16;
    if op != 0 && bits < op {
      next, hold, bits := Pull(input, next, hold, bits, wrap, m0, consumed, n1, h1, b1);
    }
    n2, h2, b2 := AheadExtra(wrap, m0, consumed, input, n1, h1, b1, next, hold, bits);
    m := ExtraOutcome(m0, Low(hold, op));
    if op != 0 {
      len := len + Low(hold, op);
      hold, bits := Shr(hold, op), bits - op;
    } else {
      LowNone(hold);
      Still(hold);
    }
    c := c0 + op;
    AheadIs(wrap, m, consumed, input, n2, h2, b2, next, hold, bits);
    DistShape(m);
    next, hold, bits := FillUp(input, next, hold, bits, ns, bs, c, wrap, m, consumed, n2, h2, b2);
    AheadIs(wrap, m, consumed, input, n2, h2, b2, next, hold, bits);
    ghost var d, h, k, m1 := INVALID, hold, bits, m;
    op, val, hold, bits, d := LookUp(dtable, start, root, hold, bits, DISTS, m0.dd);
    n2, h2, b2 := AheadDist(wrap, m1, consumed, input, n2, h2, b2, next, h, k, dtable[..], start, root, d);
    UsableSize(DISTS, m0.dd);
    DistOpTests(m0.dd, LsbBits(h, k), d);
    m, c := DistOutcome(m1, op, val), c + d.bits;
  }

  lemma LenExtShape(m: Machine)
    requires Proper(m) && m.mode == LENEXT
    ensures m.extra <= 5
  {
    hide Usable, Pow2;
  }

  lemma DistShape(m: Machine)
    requires Proper(m) && m.mode == DIST
    ensures 3 <= m.length <= 258
  {
    hide Usable, Pow2;
  }

  /** The extra bits of a distance. */
  method FastDistExtra(op0: nat, dist0: nat, input: seq<byte>, next0: nat, hold0: nat, bits0: nat, ghost ns: nat, ghost bs: nat,
                       ghost c0: nat, ghost wrap: bool, ghost m0: Machine, ghost consumed: seq<byte>, ghost n1: nat, ghost h1: nat,
                       ghost b1: nat)
    returns (dist: nat, next: nat, hold: nat, bits: nat, ghost m: Machine, ghost n2: nat, ghost h2: nat, ghost b2: nat)
    requires Ahead(wrap, m0, consumed, input, n1, h1, b1, next0, hold0, bits0) && m0.mode == DISTEXT
    requires op0 % 16 == m0.extra && dist0 == m0.offset && Spent(ns, bs, next0, bits0, c0) && c0 <= 35 && ns + 6 <= |input|
    ensures 1 <= dist0 <= dist <= 32768 && m == ExtraOutcome(m0, dist - dist0)
    ensures Ahead(wrap, m, consumed, input, n2, h2, b2, next, hold, bits) && b2 < 8 && n1 <= n2
    ensures next <= |input| && Todo(input, next, bits) <= Todo(input, next0, bits0)
  {
    hide Ahead, Shr, Low, Pow2, LsbBits, Proper;
    dist, next, hold, bits := dist0, next0, hold0, bits0;
    AheadIs(wrap, m0, consumed, input, n1, h1, b1, next, hold, bits);
    DistExtShape(m0);
    var op := op0 % 16;
    if bits < op {
      next, hold, bits := Pull(input, next, hold, bits, wrap, m0, consumed, n1, h1, b1);
      if bits < op {
        next, hold, bits := Pull(input, next, hold, bits, wrap, m0, consumed, n1, h1, b1);
      }
    }
    n2, h2, b2 := AheadExtra(wrap, m0, consumed, input, n1, h1, b1, next, hold, bits);
    m := ExtraOutcome(m0, Low(hold, op));
    LowBelow(hold, op);
    dist := dist + Low(hold, op);
    hold, bits := Shr(hold, op), bits - op;
  }

  lemma DistExtShape(m: Machine)
    requires Proper(m) && m.mode == DISTEXT
    ensures m.extra <= 13 && 1 <= m.offset && m.offset + Pow2(m.extra) <= 32769
  {
    hide Usable, Pow2;
  }

  // ---------------------------------------------------------------- copying

  /** The n bytes from `put` on continue the history h by copying from d back; nothing before them has changed. */
  ghost predicate Pasted(h: seq<byte>, o0: seq<byte>, put: nat, n: nat, d: nat, o: seq<byte>) {
    && |o| == |o0| && put + n <= |o| && 1 <= d <= |h| && o[..put] == o0[..put]
    && h + o[put..put + n] == CopyBack(h, n, d)
  }

  lemma {:induction false} CopyBackAdd(h: seq<byte>, i: nat, j: nat, d: nat)
    requires 1 <= d <= |h|
    ensures CopyBack(h, i + j, d) == CopyBack(CopyBack(h, i, d), j, d)
    decreases i
  {
    if i > 0 {
      CopyBackAdd(h + [h[|h| - d]], i - 1, j, d);
    }
  }

  lemma PastedMore(h: seq<byte>, o0: seq<byte>, put: nat, i: nat, d: nat, o1: seq<byte>, j: nat, o2: seq<byte>)
    requires Pasted(h, o0, put, i, d, o1) && Pasted(h + o1[put..put + i], o1, put + i, j, d, o2)
    ensures Pasted(h, o0, put, i + j, d, o2)
  {
    hide CopyBack;
    CopyBackAdd(h, i, j, d);
    assert o2[..put] == o2[..put + i][..put] == o1[..put + i][..put] == o1[..put];
    assert o2[put..put + i] == o2[..put + i][put..] == o1[..put + i][put..] == o1[put..put + i];
    assert h + o2[put..put + (i + j)] == h + o2[put..put + i] + o2[put + i..put + i + j];
  }

  lemma PastedFollows(h: seq<byte>, base: seq<byte>, o0: seq<byte>, put: nat, left: nat, out: nat, i: nat, d: nat, o: seq<byte>)
    requires Follows(h, base, o0, put, left, out) && Pasted(h, o0, put, i, d, o) && i <= left
    ensures Follows(h + o[put..put + i], base, o, put + i, left - i, out)
  {
    hide CopyBack, Follows;
    FollowsMore(h, base, o0, put, left, out, h + o[put..put + i], o, put + i, left - i);
  }

  /** One byte, from d back. */
  method PutBack(output: array<byte>, put0: nat, put: nat, d: nat, ghost h: seq<byte>, ghost o0: seq<byte>)
    requires put0 <= put < output.Length && d <= put0 && Pasted(h, o0, put0, put - put0, d, output[..])
    requires h[|h| - d..] == o0[put0 - d..put0]
    modifies output
    ensures Pasted(h, o0, put0, put + 1 - put0, d, output[..])
  {
    hide Pasted;
    ghost var o := output[..];
    PasteByte(h, o0, put0, put - put0, d, o);
    output[put] := output[put - d];
    assert output[..] == o[put := o[put - d]];
  }

  /** Within the output, three bytes at a time. */
  method CopyByThrees(output: array<byte>, from: nat, put0: nat, n: nat, ghost h: seq<byte>)
    requires from < put0 && put0 + n <= output.Length && put0 - from <= |h|
      && h[|h| - (put0 - from)..] == output[from..put0]
    modifies output
    ensures Pasted(h, old(output[..]), put0, n, put0 - from, output[..])
  {
    hide Pasted;
    var d := put0 - from;
    ghost var o0 := output[..];
    var put: nat, len: nat := put0, n;
    PastedNone(h, o0, put0, d);
    assert h[|h| - d..] == o0[put0 - d..put0];
    while len > 2
      invariant put + len == put0 + n && put0 <= put && Pasted(h, o0, put0, put - put0, d, output[..])
    {
      PutBack(output, put0, put, d, h, o0);
      PutBack(output, put0, put + 1, d, h, o0);
      PutBack(output, put0, put + 2, d, h, o0);
      put, len := put + 3, len - 3;
    }
    if len != 0 {
      PutBack(output, put0, put, d, h, o0);
      if len > 1 {
        PutBack(output, put0, put + 1, d, h, o0);
      }
    }
  }

  lemma PastedNone(h: seq<byte>, o: seq<byte>, put: nat, d: nat)
    requires put <= |o| && 1 <= d <= |h|
    ensures Pasted(h, o, put, 0, d, o)
  {
    hide CopyBack;
    CopyBackNone(h, d);
    assert h + o[put..put] == h;
  }

  lemma PasteByte(h: seq<byte>, o0: seq<byte>, put: nat, i: nat, d: nat, o: seq<byte>)
    requires Pasted(h, o0, put, i, d, o) && put + i < |o| && d <= put && h[|h| - d..] == o0[put - d..put]
    ensures Pasted(h, o0, put, i + 1, d, o[put + i := o[put + i - d]])
  {
    hide CopyBack;
    CopyBackNext(h, i, d);
    assert o[put - d..put] == o[..put][put - d..] == o0[..put][put - d..];
    OverlapByte(h, o, put, i, d);
    var o' := o[put + i := o[put + i - d]];
    assert o'[..put] == o[..put];
    assert o'[put..put + (i + 1)] == o[put..put + i] + [o[put + i - d]];
  }

  /** From the window into the output, three bytes at a time. */
  method CopyBytesByThrees(dst: array<byte>, at: nat, src: array<byte>, from0: nat, n: nat)
    requires at + n <= dst.Length && from0 + n <= src.Length && dst != src
    modifies dst
    ensures dst[..] == old(dst[..])[..at] + src[from0..from0 + n] + old(dst[..])[at + n..]
  {
    var from: nat, put: nat, len: nat := from0, at, n;
    while len > 2
      invariant put + len == at + n && at <= put && from - from0 == put - at
      invariant forall j | 0 <= j < dst.Length :: dst[j] == if at <= j < put then src[from0 + j - at] else old(dst[j])
    {
      dst[put] := src[from];
      dst[put + 1] := src[from + 1];
      dst[put + 2] := src[from + 2];
      from, put, len := from + 3, put + 3, len - 3;
    }
    if len != 0 {
      dst[put] := src[from];
      if len > 1 {
        dst[put + 1] := src[from + 1];
      }
    }
  }

  /** A piece of n bytes that lies in the window from index `from` on, `back` bytes before this call's output. */
  ghost predicate InWindow(w: CircularWindow, base: seq<byte>, h: seq<byte>, d: nat, back: nat, from: nat, n: nat)
    reads w, w.window
  {
    && w.Valid() && w.done == base && w.wbits == 15 && base <= h && 1 <= d <= |h| && d <= 32768
    && back == d - (|h| - |base|) > 0
    && (if back > w.write then n <= back - w.write && from == w.wsize - (back - w.write) else n <= back && from == w.write - back)
  }

  method FromWindowByThrees(w: CircularWindow, from: nat, output: array<byte>, put: nat, n: nat, ghost h: seq<byte>,
                            ghost base: seq<byte>, ghost d: nat, ghost back: nat)
    requires InWindow(w, base, h, d, back, from, n) && output != w.window && put + n <= output.Length
    modifies output
    ensures Pasted(h, old(output[..]), put, n, d, output[..])
  {
    hide CopyBack, Records;
    WindowBytes(h, base, w, d, n, from, back);
    CopyBytesByThrees(output, put, w.window, from, n);
    assert output[..][put..put + n] == w.window[from..from + n];
    CopyBackApart(h, n, d);
  }

  method FromWindow(w: CircularWindow, from: nat, output: array<byte>, put: nat, n: nat, ghost h: seq<byte>,
                    ghost base: seq<byte>, ghost d: nat, ghost back: nat)
    requires InWindow(w, base, h, d, back, from, n) && output != w.window && put + n <= output.Length
    modifies output
    ensures Pasted(h, old(output[..]), put, n, d, output[..])
  {
    hide CopyBack, Records;
    CopyFromWindow(w, from, output, put, n, h, base, d, back);
    assert output[..][put..put + n] == output[put..put + n];
  }

  /** From this call's output. */
  method FromOutput(output: array<byte>, put: nat, n: nat, dist: nat, ghost left: nat, ghost out: nat, ghost base: seq<byte>,
                    ghost h: seq<byte>)
    requires Follows(h, base, output[..], put, left, out) && n <= left && 1 <= dist <= out - left
    modifies output
    ensures Pasted(h, old(output[..]), put, n, dist, output[..])
  {
    hide CopyBack;
    FollowsTail(h, base, output[..], put, left, out, dist);
    assert output[put - dist..put] == output[..][put - dist..put];
    CopyByThrees(output, put - dist, put, n, h);
  }

  /** Some from the window, in one piece, and the rest from the output. */
  method WindowThenOutput(w: CircularWindow, from: nat, op: nat, len: nat, dist: nat, output: array<byte>, put: nat,
                          ghost left: nat, ghost out: nat, ghost base: seq<byte>, ghost h: seq<byte>)
    requires InWindow(w, base, h, dist, op, from, op) && output != w.window && len <= left
    requires Follows(h, base, output[..], put, left, out)
    modifies output
    ensures Pasted(h, old(output[..]), put, len, dist, output[..])
  {
    hide CopyBack, Records;
    FollowsTail(h, base, output[..], put, left, out, 0);
    ghost var o0 := output[..];
    if op < len {
      FromWindow(w, from, output, put, op, h, base, dist, op);
      ghost var o1 := output[..];
      PastedFollows(h, base, o0, put, left, out, op, dist, o1);
      FromOutput(output, put + op, len - op, dist, left - op, out, base, h + o1[put..put + op]);
      PastedMore(h, o0, put, op, dist, o1, len - op, output[..]);
    } else {
      FromWindowByThrees(w, from, output, put, len, h, base, dist, op);
    }
  }

  /** Some from the end of the window, some from its start, and the rest from the output. */
  method WrapAroundWindow(w: CircularWindow, op: nat, len: nat, dist: nat, output: array<byte>, put: nat,
                          ghost left: nat, ghost out: nat, ghost base: seq<byte>, ghost h: seq<byte>)
    requires w.write < op && op == dist - (|h| - |base|) && op <= w.wsize
    requires InWindow(w, base, h, dist, op, w.wsize - (op - w.write), op - w.write) && output != w.window && len <= left
    requires w.write > 0 && Follows(h, base, output[..], put, left, out)
    modifies output
    ensures Pasted(h, old(output[..]), put, len, dist, output[..])
  {
    hide CopyBack, Records;
    FollowsTail(h, base, output[..], put, left, out, 0);
    ghost var o0 := output[..];
    var from := w.wsize + w.write - op;
    var n := op - w.write;
    if n < len {
      FromWindow(w, from, output, put, n, h, base, dist, op);
      ghost var o1 := output[..];
      PastedFollows(h, base, o0, put, left, out, n, dist, o1);
      WindowThenOutput(w, 0, w.write, len - n, dist, output, put + n, left - n, out, base, h + o1[put..put + n]);
      PastedMore(h, o0, put, n, dist, o1, len - n, output[..]);
    } else {
      FromWindowByThrees(w, from, output, put, len, h, base, dist, op);
    }
  }

  /** A whole match. */
  method FastCopy(w: CircularWindow, len: nat, dist: nat, output: array<byte>, put: nat, left: nat, out: nat,
                  ghost base: seq<byte>, ghost h: seq<byte>)
    requires 1 <= dist <= |h| && dist <= 32768 && Follows(h, base, output[..], put, left, out) && len <= left
    requires w.Valid() && w.done == base && w.wbits == 15 && output != w.window
    modifies output
    ensures Pasted(h, old(output[..]), put, len, dist, output[..])
  {
    hide CopyBack, Records, Pow2;
    FollowsTail(h, base, output[..], put, left, out, 0);
    if dist > out - left {
      var op := dist - (out - left);
      WindowReach(w, base, h, dist, op);
      if w.write == 0 {
        WindowThenOutput(w, w.wsize - op, op, len, dist, output, put, left, out, base, h);
      } else if w.write < op {
        WrapAroundWindow(w, op, len, dist, output, put, left, out, base, h);
      } else {
        WindowThenOutput(w, w.write - op, op, len, dist, output, put, left, out, base, h);
      }
    } else {
      FromOutput(output, put, len, dist, left, out, base, h);
    }
  }

  /** The test for a distance too far back. */
  lemma TooFar(w: CircularWindow, base: seq<byte>, h: seq<byte>, o: seq<byte>, put: nat, left: nat, out: nat, dist: nat)
    requires w.Valid() && w.done == base && w.wbits == 15 && Follows(h, base, o, put, left, out) && dist <= 32768
    ensures dist > |h| <==> dist > out - left && dist - (out - left) > w.whave
  {
    hide Records;
    Pow2Values();
    FollowsTail(h, base, o, put, left, out, 0);
    HaveIs(w);
  }

  lemma HaveIs(w: CircularWindow)
    requires w.Valid() && w.wbits == 15
    ensures w.whave == if |w.done| < 32768 then |w.done| else 32768
  {
    Pow2Values();
  }

  // ---------------------------------------------------------------- a turn of the loop

  /** From a distance code's extra bits to the match copied. */
  method FastMatch(w: CircularWindow, op: nat, val: nat, len: nat, input: seq<byte>, next0: nat, hold0: nat, bits0: nat,
                   output: array<byte>, put0: nat, left0: nat, out: nat, ghost base: seq<byte>, ghost ns: nat, ghost bs: nat,
                   ghost c: nat, ghost wrap: bool, ghost m0: Machine, ghost consumed: seq<byte>, ghost n1: nat, ghost h1: nat,
                   ghost b1: nat)
    returns (mode: Mode, next: nat, hold: nat, bits: nat, put: nat, left: nat, ghost m: Machine, ghost n2: nat, ghost h2: nat,
             ghost b2: nat)
    requires Ahead(wrap, m0, consumed, input, n1, h1, b1, next0, hold0, bits0) && m0.mode == DISTEXT
      && len == m0.length <= 258
    requires op % 16 == m0.extra && val == m0.offset && Spent(ns, bs, next0, bits0, c) && c <= 35 && ns + 6 <= |input|
    requires left0 >= 258 && Follows(m0.history, base, output[..], put0, left0, out)
    requires w.Valid() && w.done == base && w.wbits == 15 && output != w.window
    modifies output
    ensures Ahead(wrap, m, consumed, input, n2, h2, b2, next, hold, bits) && b2 < 8 && n1 <= n2
    ensures mode == m.mode && (mode == LEN || mode == BAD) && m.ll == m0.ll && m.dd == m0.dd && m.last == m0.last
    ensures next <= |input| && Todo(input, next, bits) <= Todo(input, next0, bits0)
    ensures Wrote(m0.history, old(output[..]), put0, left0, m.history, output[..], put, left)
  {
    hide Ahead, CopyBack, Records, Pow2, Spent, Follows;
    put, left := put0, left0;
    var dist;
    dist, next, hold, bits, m, n2, h2, b2 :=
      FastDistExtra(op, val, input, next0, hold0, bits0, ns, bs, c, wrap, m0, consumed, n1, h1, b1);
    TooFar(w, base, m0.history, output[..], put0, left0, out, dist);
    FollowsRoom(m0.history, base, output[..], put0, left0, out);
    if dist > out - left && dist - (out - left) > w.whave {
      mode := BAD;
      WroteNothing(m0.history, output[..], put, left);
      return;
    }
    AheadMatch(wrap, m, consumed, input, n2, h2, b2, next, hold, bits);
    ghost var o0 := output[..];
    FastCopy(w, len, dist, output, put, left, out, base, m0.history);
    m := Copied(m, m.length);
    mode, put, left := LEN, put + len, left - len;
    PastedWrote(m0.history, o0, put0, len, dist, output[..], left0);
  }

  lemma FollowsRoom(h: seq<byte>, base: seq<byte>, o: seq<byte>, put: nat, left: nat, out: nat)
    requires Follows(h, base, o, put, left, out)
    ensures left <= out && put + left <= |o|
  {
  }

  lemma PastedWrote(h: seq<byte>, o0: seq<byte>, put: nat, n: nat, d: nat, o: seq<byte>, left: nat)
    requires Pasted(h, o0, put, n, d, o) && n <= left
    ensures Wrote(h, o0, put, left, CopyBack(h, n, d), o, put + n, left - n)
  {
    hide CopyBack;
  }

  /** From a length code's extra bits on. */
  method FastLength(w: CircularWindow, dcode: array<Entry>, dstart: nat, droot: nat, op0: nat, val0: nat, input: seq<byte>,
                    next0: nat, hold0: nat, bits0: nat, output: array<byte>, put0: nat, left0: nat, out: nat, ghost base: seq<byte>,
                    ghost ns: nat, ghost bs: nat, ghost c0: nat, ghost wrap: bool, ghost m0: Machine, ghost consumed: seq<byte>,
                    ghost n1: nat, ghost h1: nat, ghost b1: nat)
    returns (mode: Mode, next: nat, hold: nat, bits: nat, put: nat, left: nat, ghost m: Machine, ghost n2: nat, ghost h2: nat,
             ghost b2: nat)
    requires Ahead(wrap, m0, consumed, input, n1, h1, b1, next0, hold0, bits0) && m0.mode == LENEXT
    requires op0 % 16 == m0.extra && val0 == m0.length && Spent(ns, bs, next0, bits0, c0) && 1 <= c0 <= 15
      && ns + 6 <= |input|
    requires Usable(DISTS, m0.dd) && TableFor(dcode[..], dstart, droot, DISTS, m0.dd)
    requires left0 >= 258 && Follows(m0.history, base, output[..], put0, left0, out)
    requires w.Valid() && w.done == base && w.wbits == 15 && output != w.window
    modifies output
    ensures Ahead(wrap, m, consumed, input, n2, h2, b2, next, hold, bits) && b2 < 8 && n1 <= n2
    ensures mode == m.mode && (mode == LEN || mode == BAD) && m.ll == m0.ll && m.dd == m0.dd && m.last == m0.last
    ensures next <= |input| && Todo(input, next, bits) < Todo(input, ns, bs)
    ensures Wrote(m0.history, old(output[..]), put0, left0, m.history, output[..], put, left)
  {
    hide Ahead, Usable, TableFor, Pow2, Invalid, EndOfBlock, CopyBack, Records, Follows;
    put, left := put0, left0;
    var len, op, val;
    ghost var c;
    len, next, hold, bits, op, val, m, c, n2, h2, b2 :=
      FastDist(dcode, dstart, droot, op0, val0, input, next0, hold0, bits0, ns, bs, c0, wrap, m0, consumed, n1, h1, b1);
    if op / 16 % 2 == 1 {
      mode, next, hold, bits, put, left, m, n2, h2, b2 :=
        FastMatch(w, op, val, len, input, next, hold, bits, output, put, left, out, base, ns, bs, c, wrap, m, consumed, n2, h2, b2);
    } else {
      mode := BAD;
      AheadIs(wrap, m, consumed, input, n2, h2, b2, next, hold, bits);
      FollowsRoom(m0.history, base, output[..], put0, left0, out);
      WroteNothing(m0.history, output[..], put, left);
    }
  }

  /** One turn: a literal, a match, the end of the block, or an error. */
  method FastTurn(w: CircularWindow, lcode: array<Entry>, lroot: nat, dcode: array<Entry>, dstart: nat, droot: nat, input: seq<byte>,
                  next0: nat, hold0: nat, bits0: nat, output: array<byte>, put0: nat, left0: nat, out: nat, ghost base: seq<byte>,
                  ghost wrap: bool, ghost m0: Machine, ghost consumed: seq<byte>, ghost n1: nat, ghost h1: nat, ghost b1: nat)
    returns (mode: Mode, next: nat, hold: nat, bits: nat, put: nat, left: nat, ghost m: Machine, ghost n2: nat, ghost h2: nat,
             ghost b2: nat)
    requires Ahead(wrap, m0, consumed, input, n1, h1, b1, next0, hold0, bits0) && m0.mode == LEN && next0 + 6 <= |input|
    requires Usable(LENS, m0.ll) && TableFor(lcode[..], 0, lroot, LENS, m0.ll)
    requires Usable(DISTS, m0.dd) && TableFor(dcode[..], dstart, droot, DISTS, m0.dd)
    requires left0 >= 258 && Follows(m0.history, base, output[..], put0, left0, out)
    requires w.Valid() && w.done == base && w.wbits == 15 && output != w.window
    modifies output
    ensures Ahead(wrap, m, consumed, input, n2, h2, b2, next, hold, bits) && b2 < 8 && n1 <= n2
    ensures mode == m.mode && (mode == LEN || mode == TYPE || mode == BAD)
    ensures m.ll == m0.ll && m.dd == m0.dd && m.last == m0.last
    ensures next <= |input| && Todo(input, next, bits) < Todo(input, next0, bits0)
    ensures Wrote(m0.history, old(output[..]), put0, left0, m.history, output[..], put, left)
  {
    hide Ahead, Usable, TableFor, Pow2, Invalid, EndOfBlock, CopyBack, Records, Follows;
    put, left := put0, left0;
    var op, val;
    ghost var c;
    next, hold, bits, op, val, m, c, n2, h2, b2 :=
      FastLen(lcode, lroot, input, next0, hold0, bits0, wrap, m0, consumed, n1, h1, b1);
    AheadIs(wrap, m, consumed, input, n2, h2, b2, next, hold, bits);
    FollowsRoom(m0.history, base, output[..], put0, left0, out);
    WroteNothing(m0.history, output[..], put, left);
    if op == 0 {
      AheadLit(wrap, m, consumed, input, n2, h2, b2, next, hold, bits);
      output[put] := val;
      m := m.(mode := LEN, history := m.history + [m.length], tokens := m.tokens + [Literal(m.length)]);
      assert output[..][..put] == old(output[..])[..put] && output[..][put..put + 1] == [val];
      mode, put, left := LEN, put + 1, left - 1;
    } else if op / 16 % 2 == 1 {
      mode, next, hold, bits, put, left, m, n2, h2, b2 :=
        FastLength(w, dcode, dstart, droot, op, val, input, next, hold, bits, output, put, left, out, base, next0, bits0, c, wrap, m,
                   consumed, n2, h2, b2);
    } else if EndOfBlock(op) {
      mode := TYPE;
    } else {
      mode := BAD;
    }
  }

  lemma WroteMore(h0: seq<byte>, o0: seq<byte>, p0: nat, left0: nat, h1: seq<byte>, o1: seq<byte>, p1: nat, left1: nat,
                  h2: seq<byte>, o2: seq<byte>, p2: nat, left2: nat)
    requires Wrote(h0, o0, p0, left0, h1, o1, p1, left1) && Wrote(h1, o1, p1, left1, h2, o2, p2, left2)
    ensures Wrote(h0, o0, p0, left0, h2, o2, p2, left2)
  {
    assert o2[..p0] == o2[..p1][..p0] == o1[..p1][..p0] == o1[..p0];
    assert o2[p0..p1] == o2[..p1][p0..] == o1[..p1][p0..] == o1[p0..p1];
    assert o2[p0..p2] == o2[p0..p1] + o2[p1..p2];
  }

  lemma WroteLeft(h0: seq<byte>, o0: seq<byte>, p0: nat, left0: nat, h1: seq<byte>, o1: seq<byte>, p1: nat, left1: nat)
    requires Wrote(h0, o0, p0, left0, h1, o1, p1, left1)
    ensures left1 <= left0 && p0 <= p1 <= |o1| && p1 + left1 == p0 + left0 && |o1| == |o0|
  {
  }

  /** inflate_fast: with at least 6 bytes of input and room for 258 bytes of output, turns are taken while that remains so. In
      the end the decoder has used exactly the input that the state in step with the machine has used. */
  method InflateFast(w: CircularWindow, lcode: array<Entry>, lroot: nat, dcode: array<Entry>, dstart: nat, droot: nat,
                     input: seq<byte>, next0: nat, hold0: nat, bits0: nat, output: array<byte>, put0: nat, left0: nat, start: nat,
                     ghost base: seq<byte>, ghost wrap: bool, ghost m0: Machine, ghost consumed: seq<byte>)
    returns (mode: Mode, next: nat, hold: nat, bits: nat, put: nat, left: nat, ghost m: Machine)
    requires next0 + 6 <= |input| && left0 >= 258
    requires Fine(wrap, m0, consumed + input[..next0], hold0, bits0) && Snug(m0, hold0, bits0) && m0.mode == LEN
    requires TableFor(lcode[..], 0, lroot, LENS, m0.ll) && TableFor(dcode[..], dstart, droot, DISTS, m0.dd)
    requires Follows(m0.history, base, output[..], put0, left0, start)
    requires w.Valid() && w.done == base && w.wbits == 15 && output != w.window
    modifies output
    ensures next0 <= next <= |input| && Fine(wrap, m, consumed + input[..next], hold, bits) && Snug(m, hold, bits)
      && bits < 8
    ensures mode == m.mode && (mode == LEN || mode == TYPE || mode == BAD)
    ensures m.ll == m0.ll && m.dd == m0.dd && m.last == m0.last
    ensures Todo(input, next, bits) < Todo(input, next0, bits0)
    ensures Wrote(m0.history, old(output[..]), put0, left0, m.history, output[..], put, left)
  {
    hide Ahead, Fine, Snug, Usable, TableFor, Pow2, CopyBack, Records, Follows, Low, Wrote, Proper;
    mode, next, hold, bits, put, left, m := LEN, next0, hold0, bits0, put0, left0, m0;
    ghost var n1, h1, b1 := next0, hold0, bits0;
    FineIs(wrap, m0, consumed + input[..next0], hold0, bits0);
    CodesIn(m0);
    AheadStart(wrap, m0, consumed, input, next0, hold0, bits0);
    FollowsRoom(m0.history, base, output[..], put0, left0, start);
    WroteNothing(m0.history, output[..], put, left);
    ghost var l, d := lcode[..], dcode[..];
    var more := true;
    while more
      invariant Ahead(wrap, m, consumed, input, n1, h1, b1, next, hold, bits) && (more || b1 < 8) && next0 <= n1
      invariant mode == m.mode && (mode == LEN || mode == TYPE || mode == BAD) && m.ll == m0.ll && m.dd == m0.dd
      invariant m.last == m0.last
      invariant next <= |input| && Todo(input, next, bits) <= Todo(input, next0, bits0) - (if more then 0 else 1)
      invariant Follows(m.history, base, output[..], put, left, start)
      invariant Wrote(m0.history, old(output[..]), put0, left0, m.history, output[..], put, left)
      invariant more ==> mode == LEN && next + 6 <= |input| && left >= 258
      invariant lcode[..] == l && dcode[..] == d && w.Valid() && w.done == base
      decreases Todo(input, next, bits) + (if more then 1 else 0)
    {
      ghost var m1, o1, p1, left1 := m, output[..], put, left;
      mode, next, hold, bits, put, left, m, n1, h1, b1 :=
        FastTurn(w, lcode, lroot, dcode, dstart, droot, input, next, hold, bits, output, put, left, start, base, wrap, m, consumed,
                 n1, h1, b1);
      WroteMore(m0.history, old(output[..]), put0, left0, m1.history, o1, p1, left1, m.history, output[..], put, left);
      FollowsMore(m1.history, base, o1, p1, left1, start, m.history, output[..], put, left);
      more := mode == LEN && next + 6 <= |input| && left >= 258;
    }
    GiveBack(wrap, m, consumed, input, n1, h1, b1, next, hold, bits);
    var len := bits / 8;
    next, bits := next - len, bits - 8 * len;
    hold := Low(hold, bits);
  }
}
