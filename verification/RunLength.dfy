/** The run-length coding of code lengths (section 3.2.7 of RFC 1951): scan_tree and send_tree of src/ext/zlib/trees.c walk a
    tree in the same way, one counting symbols and one sending them. */
module RunLength {
  import opened Bits
  import opened Canonical
  import opened Streams
  import opened SendBits

  /** A symbol of the code length code with the value of its extra bits. */
  datatype Op = Op(sym: nat, extra: nat)

  function ExtraBits(sym: nat): nat {
    if sym == 16 then 2 else if sym == 17 then 3 else if sym == 18 then 7 else 0
  }

  /** What a decoder makes of one symbol: code 16 repeats the last length, 17 and 18 stand for zeros. */
  ghost function Grow(lens: seq<nat>, op: Op): seq<nat>
    requires op.sym == 16 ==> lens != []
  {
    if op.sym < 16 then lens + [op.sym]
    else if op.sym == 16 then lens + seq(3 + op.extra, i => lens[|lens| - 1])
    else lens + seq((if op.sym == 17 then 3 else 11) + op.extra, i => 0)
  }

  ghost predicate Decodable(lens: seq<nat>, ops: seq<Op>)
    decreases |ops|
  {
    ops == [] || ((ops[0].sym == 16 ==> lens != []) && Decodable(Grow(lens, ops[0]), ops[1..]))
  }

  ghost function Grown(lens: seq<nat>, ops: seq<Op>): seq<nat>
    requires Decodable(lens, ops)
    decreases |ops|
  {
    if ops == [] then lens else Grown(Grow(lens, ops[0]), ops[1..])
  }

  lemma {:induction false} GrownMore(lens: seq<nat>, ops: seq<Op>, more: seq<Op>)
    requires Decodable(lens, ops) && Decodable(Grown(lens, ops), more)
    ensures Decodable(lens, ops + more) && Grown(lens, ops + more) == Grown(Grown(lens, ops), more)
    decreases |ops|
  {
    hide Grow;
    if ops == [] {
      assert ops + more == more;
    } else {
      assert (ops + more)[1..] == ops[1..] + more;
      GrownMore(Grow(lens, ops[0]), ops[1..], more);
    }
  }

  // ---------------------------------------------------------------- the walk over a tree

  /** Where the walk stands: the symbols so far, the repeat count of the current length, the last length sent or -1. */
  datatype Walk = Walk(ops: seq<Op>, count: nat, prev: int)

  function MaxCount(prev: int, cur: nat): nat {
    if cur == 0 then 138 else if cur == prev then 6 else 7
  }

  function MinCount(prev: int, cur: nat): nat {
    if cur == 0 then 3 else if cur == prev then 3 else 4
  }

  /** A length sent several times. */
  ghost function Same(cur: nat, count: nat): (r: seq<Op>)
    ensures |r| == count && forall i | 0 <= i < count :: r[i] == Op(cur, 0)
  {
    seq(count, i => Op(cur, 0))
  }

  /** The symbols that stand for `count` lengths `cur` after a length `prev`. */
  ghost function Emit(prev: int, cur: nat, count: nat): seq<Op> {
    if count < MinCount(prev, cur) then Same(cur, count)
    else if cur != 0 then
      if cur != prev && count >= 4 then [Op(cur, 0), Op(16, count - 4)]
      else if count >= 3 then [Op(16, count - 3)] else []
    else if count <= 10 then [Op(17, count - 3)]
    else [Op(18, count - 11)]
  }

  ghost function Step(w: Walk, cur: nat, next: nat): Walk {
    var count := w.count + 1;
    if count < MaxCount(w.prev, cur) && cur == next then w.(count := count)
    else Walk(w.ops + Emit(w.prev, cur, count), 0, cur)
  }

  /** The walk over the first n lengths, with the one after them as lookahead. */
  ghost function WalkTo(len: seq<nat>, n: nat): Walk
    requires n < |len| || n == 0
  {
    if n == 0 then Walk([], 0, -1) else Step(WalkTo(len, n - 1), len[n - 1], len[n])
  }

  /** The symbols for the lengths len[..n]; len[n] is the guard. */
  ghost function OpsFor(len: seq<nat>, n: nat): seq<Op>
    requires n < |len|
  {
    WalkTo(len, n).ops
  }

  /** The symbols for a list of lengths, with the guard behind it. */
  ghost function OpsOf(lens: seq<nat>): seq<Op> {
    OpsFor(lens + [0xffff], |lens|)
  }

  lemma {:induction false} WalkSame(a: seq<nat>, b: seq<nat>, n: nat)
    requires n < |a| && n < |b| && a[..n + 1] == b[..n + 1]
    ensures WalkTo(a, n) == WalkTo(b, n)
    decreases n
  {
    hide Step;
    if n > 0 {
      assert a[..n] == a[..n + 1][..n] && b[..n] == b[..n + 1][..n];
      assert a[n - 1] == a[..n + 1][n - 1] && a[n] == a[..n + 1][n];
      assert b[n - 1] == b[..n + 1][n - 1] && b[n] == b[..n + 1][n];
      WalkSame(a, b, n - 1);
    }
  }

  lemma OpsOfPrefix(len: seq<nat>, n: nat)
    requires n < |len| && len[n] == 0xffff
    ensures OpsFor(len, n) == OpsOf(len[..n])
  {
    hide WalkTo;
    WalkSame(len, len[..n] + [0xffff], n);
  }

  // ---------------------------------------------------------------- the symbols decode to the lengths

  predicate Fits(op: Op) {
    op.sym <= 18 && op.extra < Pow2(ExtraBits(op.sym))
  }

  /** What the walk has still to send are repetitions of the length it looks at. */
  ghost predicate Pending(w: Walk, acc: seq<nat>, len: seq<nat>, n: nat) {
    && n < |len| && w.count <= n
    && (forall i | n - w.count <= i < n :: len[i] == len[n])
    && (w.count > 0 ==> w.count < MaxCount(w.prev, len[n]))
    && Decodable(acc, w.ops) && Grown(acc, w.ops) == acc + len[..n - w.count]
    && (w.prev == -1 ==> w.count == n)
    && (w.prev != -1 ==> w.count < n && len[n - w.count - 1] == w.prev)
    && (forall i | 0 <= i < |w.ops| :: Fits(w.ops[i]))
  }

  lemma {:induction false} GrownSame(lens: seq<nat>, cur: nat, count: nat)
    requires cur < 16
    ensures Decodable(lens, Same(cur, count))
    ensures Grown(lens, Same(cur, count)) == lens + seq(count, i => cur)
    decreases count
  {
    var ops := Same(cur, count);
    if count > 0 {
      assert ops[1..] == Same(cur, count - 1);
      GrownSame(lens + [cur], cur, count - 1);
      assert lens + [cur] + seq(count - 1, i => cur) == lens + seq(count, i => cur);
    } else {
      assert lens + seq(0, i => cur) == lens;
    }
  }

  lemma GrownOne(lens: seq<nat>, op: Op)
    requires op.sym == 16 ==> lens != []
    ensures Decodable(lens, [op]) && Grown(lens, [op]) == Grow(lens, op)
  {
    assert [op][1..] == [];
  }

  lemma GrownTwo(lens: seq<nat>, cur: nat, count: nat)
    requires cur < 16 && 4 <= count <= 7
    ensures var ops := [Op(cur, 0), Op(16, count - 4)]; Decodable(lens, ops) && Grown(lens, ops) == lens + seq(count, i => cur)
  {
    hide Decodable, Grown;
    GrownOne(lens, Op(cur, 0));
    GrownOne(lens + [cur], Op(16, count - 4));
    GrownMore(lens, [Op(cur, 0)], [Op(16, count - 4)]);
    assert [Op(cur, 0)] + [Op(16, count - 4)] == [Op(cur, 0), Op(16, count - 4)];
    assert lens + [cur] + seq(count - 1, i => cur) == lens + seq(count, i => cur);
  }

  /** Emitting is decoded as the repetitions it stands for. */
  lemma EmitDecodes(lens: seq<nat>, prev: int, cur: nat, count: nat)
    requires cur < 16 && 1 <= count <= MaxCount(prev, cur)
    requires prev != -1 ==> lens != [] && lens[|lens| - 1] == prev
    ensures Decodable(lens, Emit(prev, cur, count))
    ensures Grown(lens, Emit(prev, cur, count)) == lens + seq(count, i => cur)
    ensures forall i | 0 <= i < |Emit(prev, cur, count)| :: Fits(Emit(prev, cur, count)[i])
  {
    hide Decodable, Grown, Pow2;
    Pow2Values();
    if count < MinCount(prev, cur) {
      GrownSame(lens, cur, count);
    } else if cur != 0 && cur != prev {
      GrownTwo(lens, cur, count);
    } else {
      GrownOne(lens, Emit(prev, cur, count)[0]);
    }
  }

  lemma StepPending(w: Walk, acc: seq<nat>, len: seq<nat>, n: nat)
    requires Pending(w, acc, len, n) && n + 1 < |len| && len[n] < 16
    ensures Pending(Step(w, len[n], len[n + 1]), acc, len, n + 1)
  {
    hide Decodable, Grown, Emit, Fits;
    var cur, count := len[n], w.count + 1;
    if !(count < MaxCount(w.prev, cur) && cur == len[n + 1]) {
      var lens := acc + len[..n - w.count];
      EmitDecodes(lens, w.prev, cur, count);
      GrownMore(acc, w.ops, Emit(w.prev, cur, count));
      assert lens + seq(count, i => cur) == acc + len[..n + 1];
    }
  }

  lemma {:induction false} WalkPending(acc: seq<nat>, len: seq<nat>, n: nat)
    requires n < |len| && forall i | 0 <= i < n :: len[i] < 16
    ensures Pending(WalkTo(len, n), acc, len, n)
  {
    hide Step;
    if n == 0 {
      assert len[..0] == [] && acc + [] == acc;
    } else {
      WalkPending(acc, len, n - 1);
      StepPending(WalkTo(len, n - 1), acc, len, n - 1);
    }
  }

  /** The symbols for a tree decode to its lengths, after whatever came before, and their extra bits fit. */
  lemma OpsDecode(acc: seq<nat>, len: seq<nat>, n: nat)
    requires 0 < n < |len| && (forall i | 0 <= i < n :: len[i] < 16) && len[n] >= 16
    ensures Decodable(acc, OpsFor(len, n)) && Grown(acc, OpsFor(len, n)) == acc + len[..n]
    ensures forall i | 0 <= i < |OpsFor(len, n)| :: Fits(OpsFor(len, n)[i])
  {
    hide Decodable, Grown, Fits;
    WalkPending(acc, len, n);
    assert WalkTo(len, n).count == 0;
  }

  // ---------------------------------------------------------------- counting the symbols

  /** How many of the symbols are s. */
  ghost function OpCount(ops: seq<Op>, s: nat): (n: nat)
    ensures n <= |ops|
  {
    if ops == [] then 0 else OpCount(ops[..|ops| - 1], s) + if ops[|ops| - 1].sym == s then 1 else 0
  }

  lemma {:induction false} OpCountAppend(a: seq<Op>, b: seq<Op>, s: nat)
    ensures OpCount(a + b, s) == OpCount(a, s) + OpCount(b, s)
    decreases |b|
  {
    if b == [] {
      assert a + b == a;
    } else {
      assert (a + b)[..|a + b| - 1] == a + b[..|b| - 1];
      OpCountAppend(a, b[..|b| - 1], s);
    }
  }

  lemma {:induction false} OpCountSame(cur: nat, count: nat, s: nat)
    ensures OpCount(Same(cur, count), s) == if s == cur then count else 0
    decreases count
  {
    var ops := Same(cur, count);
    if count > 0 {
      assert ops[..count - 1] == Same(cur, count - 1);
      OpCountSame(cur, count - 1, s);
    }
  }

  lemma OpCountOne(op: Op, s: nat)
    ensures OpCount([op], s) == if s == op.sym then 1 else 0
  {
    assert [op][..0] == [];
  }

  /** How the counts change when a run is emitted. */
  lemma EmitCount(ops: seq<Op>, prev: int, cur: nat, count: nat, s: nat)
    requires 1 <= count <= MaxCount(prev, cur)
    ensures OpCount(ops + Emit(prev, cur, count), s) == OpCount(ops, s) + (
      if count < MinCount(prev, cur) then (if s == cur then count else 0)
      else if cur != 0 then (if cur != prev && s == cur then 1 else 0) + (if s == 16 then 1 else 0)
      else if count <= 10 then (if s == 17 then 1 else 0)
      else (if s == 18 then 1 else 0))
  {
    hide OpCount;
    var e := Emit(prev, cur, count);
    OpCountAppend(ops, e, s);
    if count < MinCount(prev, cur) {
      OpCountSame(cur, count, s);
    } else if cur != 0 && cur != prev {
      assert e == [e[0]] + [e[1]];
      OpCountAppend([e[0]], [e[1]], s);
      OpCountOne(e[0], s);
      OpCountOne(e[1], s);
    } else {
      OpCountOne(e[0], s);
    }
  }

  ghost predicate Counting(freq: seq<nat>, freq0: seq<nat>, ops: seq<Op>) {
    |freq| == |freq0| >= 19 && forall s | 0 <= s < |freq| :: freq[s] == freq0[s] + OpCount(ops, s)
  }

  lemma CountNothing(freq: seq<nat>)
    requires |freq| >= 19
    ensures Counting(freq, freq, [])
  {
  }

  lemma CountEmitted(freq: seq<nat>, freq0: seq<nat>, ops: seq<Op>, prev: int, cur: nat, count: nat, r: seq<nat>)
    requires Counting(freq, freq0, ops) && cur < 16 && 1 <= count <= MaxCount(prev, cur)
    requires r == (
      if count < MinCount(prev, cur) then freq[cur := freq[cur] + count]
      else if cur != 0 then
        if cur != prev then freq[cur := freq[cur] + 1][16 := freq[16] + 1] else freq[16 := freq[16] + 1]
      else if count <= 10 then freq[17 := freq[17] + 1]
      else freq[18 := freq[18] + 1])
    ensures Counting(r, freq0, ops + Emit(prev, cur, count))
  {
    hide OpCount, Emit;
    forall s | 0 <= s < |freq| ensures r[s] == freq0[s] + OpCount(ops + Emit(prev, cur, count), s) {
      EmitCount(ops, prev, cur, count, s);
    }
  }

  /** Determines how often each symbol of the code length code will be sent for a tree. */
  method ScanTree(tree: array<nat>, maxCode: nat, freq: array<nat>)
    requires maxCode + 1 < tree.Length && freq.Length >= 19 && tree != freq
    requires forall i | 0 <= i <= maxCode :: tree[i] < 16
    modifies tree, freq
    ensures tree[..] == old(tree[..])[maxCode + 1 := 0xffff]
    ensures Counting(freq[..], old(freq[..]), OpsFor(tree[..], maxCode + 1))
  {
    hide Counting, Emit;
    var prevlen: int, nextlen, count := -1, tree[0], 0;
    var maxCount, minCount := 7, 4;
    if nextlen == 0 {
      maxCount, minCount := 138, 3;
    }
    tree[maxCode + 1] := 0xffff;
    ghost var len := tree[..];
    CountNothing(freq[..]);
    for n := 0 to maxCode + 1
      invariant tree[..] == len && WalkTo(len, n).count == count && WalkTo(len, n).prev == prevlen
      invariant count < MaxCount(prevlen, nextlen) && nextlen == len[n]
      invariant maxCount == MaxCount(prevlen, nextlen) && minCount == MinCount(prevlen, nextlen)
      invariant Counting(freq[..], old(freq[..]), WalkTo(len, n).ops)
    {
      var curlen := nextlen;
      nextlen := tree[n + 1];
      count := count + 1;
      if count < maxCount && curlen == nextlen {
        continue;
      }
      ghost var f := freq[..];
      CountingLength(f, old(freq[..]), WalkTo(len, n).ops);
      if count < minCount {
        freq[curlen] := freq[curlen] + count;
      } else if curlen != 0 {
        if curlen != prevlen {
          freq[curlen] := freq[curlen] + 1;
        }
        freq[16] := freq[16] + 1;
      } else if count <= 10 {
        freq[17] := freq[17] + 1;
      } else {
        freq[18] := freq[18] + 1;
      }
      CountEmitted(f, old(freq[..]), WalkTo(len, n).ops, prevlen, curlen, count, freq[..]);
      count, prevlen := 0, curlen;
      if nextlen == 0 {
        maxCount, minCount := 138, 3;
      } else if curlen == nextlen {
        maxCount, minCount := 6, 3;
      } else {
        maxCount, minCount := 7, 4;
      }
    }
  }

  lemma CountingLength(freq: seq<nat>, freq0: seq<nat>, ops: seq<Op>)
    requires Counting(freq, freq0, ops)
    ensures |freq| == |freq0| >= 19
  {
  }

  // ---------------------------------------------------------------- sending the symbols

  /** Codes as the arrays Code and Len of a tree hold them. */
  ghost predicate Sendable(code: seq<nat>, len: seq<nat>, s: nat) {
    s < |code| && s < |len| && 0 < len[s] <= 15 && code[s] < Pow2(len[s])
  }

  ghost function OpBits(code: seq<nat>, len: seq<nat>, op: Op): seq<bool>
    requires Sendable(code, len, op.sym)
  {
    LsbBits(code[op.sym], len[op.sym]) + LsbBits(op.extra, ExtraBits(op.sym))
  }

  ghost predicate AllSendable(code: seq<nat>, len: seq<nat>, ops: seq<Op>) {
    forall i | 0 <= i < |ops| :: Sendable(code, len, ops[i].sym) && Fits(ops[i])
  }

  ghost function OpsBits(code: seq<nat>, len: seq<nat>, ops: seq<Op>): seq<bool>
    requires AllSendable(code, len, ops)
  {
    if ops == [] then [] else OpsBits(code, len, ops[..|ops| - 1]) + OpBits(code, len, ops[|ops| - 1])
  }

  /** What has been sent when the walk has emitted `ops`. */
  ghost predicate Sending(sent: seq<bool>, sent0: seq<bool>, code: seq<nat>, len: seq<nat>, ops: seq<Op>) {
    AllSendable(code, len, ops) && sent == sent0 + OpsBits(code, len, ops)
  }

  lemma SendingOne(sent: seq<bool>, sent0: seq<bool>, code: seq<nat>, len: seq<nat>, ops: seq<Op>, op: Op)
    requires Sending(sent, sent0, code, len, ops) && Sendable(code, len, op.sym) && Fits(op)
    ensures Sending(sent + LsbBits(code[op.sym], len[op.sym]) + LsbBits(op.extra, ExtraBits(op.sym)), sent0, code, len, ops + [op])
    ensures op.sym < 16 ==> Sending(sent + LsbBits(code[op.sym], len[op.sym]), sent0, code, len, ops + [op])
  {
    hide LsbBits;
    var all := ops + [op];
    assert all[..|all| - 1] == ops;
    var x, y := LsbBits(code[op.sym], len[op.sym]), LsbBits(op.extra, ExtraBits(op.sym));
    assert sent + x + y == sent0 + (OpsBits(code, len, ops) + (x + y));
    if op.sym < 16 {
      assert y == [];
      assert sent + x == sent + x + y;
    }
  }

  lemma SendingNone(sent: seq<bool>, code: seq<nat>, len: seq<nat>)
    ensures Sending(sent, sent, code, len, [])
  {
    assert sent + [] == sent;
  }

  lemma {:induction false} WalkGrows(len: seq<nat>, n: nat, m: nat)
    requires n <= m < |len|
    ensures WalkTo(len, n).ops <= WalkTo(len, m).ops
    decreases m - n
  {
    hide Emit;
    if n < m {
      WalkGrows(len, n, m - 1);
    }
  }

  /** Every symbol that is emitted on the way has a code. */
  lemma EmittedSendable(tree: seq<nat>, n: nat, m: nat, code: seq<nat>, len: seq<nat>)
    requires n <= m < |tree| && AllSendable(code, len, OpsFor(tree, m))
    ensures AllSendable(code, len, WalkTo(tree, n).ops)
  {
    hide Sendable, Fits;
    WalkGrows(tree, n, m);
    forall i | 0 <= i < |WalkTo(tree, n).ops|
      ensures Sendable(code, len, WalkTo(tree, n).ops[i].sym) && Fits(WalkTo(tree, n).ops[i])
    {
      assert WalkTo(tree, n).ops[i] == OpsFor(tree, m)[i];
    }
  }

  lemma LastSendable(code: seq<nat>, len: seq<nat>, ops: seq<Op>, e: seq<Op>, i: nat)
    requires AllSendable(code, len, ops + e) && i < |e|
    ensures Sendable(code, len, e[i].sym) && Fits(e[i])
  {
    assert (ops + e)[|ops| + i] == e[i];
  }

  method SendCode(w: BitWriter, code: array<nat>, len: array<nat>, s: nat)
    requires w.Valid() && Sendable(code[..], len[..], s)
    modifies w
    ensures old(w.pending) <= w.pending
    ensures w.Valid() && w.Sent() == old(w.Sent()) + LsbBits(code[s], len[s])
  {
    w.SendBits(code[s], len[s]);
  }

  lemma SendableBounds(code: seq<nat>, len: seq<nat>, s: nat)
    requires Sendable(code, len, s)
    ensures s < |code| && s < |len|
  {
  }

  /** Sends the same length several times. */
  method SendSame(w: BitWriter, code: array<nat>, len: array<nat>, s: nat, count0: nat, ghost sent0: seq<bool>, ghost ops: seq<Op>)
    requires w.Valid() && count0 > 0 && s < 16 && Sendable(code[..], len[..], s) && Fits(Op(s, 0))
    requires Sending(w.Sent(), sent0, code[..], len[..], ops)
    modifies w
    ensures old(w.pending) <= w.pending
    ensures w.Valid() && Sending(w.Sent(), sent0, code[..], len[..], ops + Same(s, count0))
  {
    hide Sending, Sendable, LsbBits;
    var count := count0;
    ghost var k, c, l := 0, code[..], len[..];
    SendableBounds(c, l, s);
    assert ops + Same(s, 0) == ops;
    while true
      invariant 0 < count == count0 - k && w.Valid() && code[..] == c && len[..] == l
      invariant old(w.pending) <= w.pending
      invariant Sending(w.Sent(), sent0, code[..], len[..], ops + Same(s, k))
      decreases count
    {
      SendingOne(w.Sent(), sent0, code[..], len[..], ops + Same(s, k), Op(s, 0));
      SendCode(w, code, len, s);
      assert code[..] == c && len[..] == l && c[s] == code[s] && l[s] == len[s];
      assert ops + Same(s, k) + [Op(s, 0)] == ops + Same(s, k + 1);
      count, k := count - 1, k + 1;
      if count == 0 {
        break;
      }
    }
  }

  /** Sends a repeat code with its extra bits. */
  method SendRepeat(w: BitWriter, code: array<nat>, len: array<nat>, s: nat, v: nat, bits: nat, ghost sent0: seq<bool>,
                    ghost ops: seq<Op>)
    requires w.Valid() && bits == ExtraBits(s) && Sendable(code[..], len[..], s) && Fits(Op(s, v))
    requires Sending(w.Sent(), sent0, code[..], len[..], ops)
    modifies w
    ensures old(w.pending) <= w.pending
    ensures w.Valid() && Sending(w.Sent(), sent0, code[..], len[..], ops + [Op(s, v)])
  {
    hide Sending, LsbBits, Pow2;
    SendingOne(w.Sent(), sent0, code[..], len[..], ops, Op(s, v));
    SendCode(w, code, len, s);
    w.SendBits(v, bits);
  }

  /** Sends the lengths of a tree in compressed form: the symbols that scan_tree counted, in order. */
  method SendTree(tree: array<nat>, maxCode: nat, code: array<nat>, len: array<nat>, w: BitWriter)
    requires w.Valid() && maxCode + 1 < tree.Length && (forall i | 0 <= i <= maxCode :: tree[i] < 16)
    requires AllSendable(code[..], len[..], OpsFor(tree[..], maxCode + 1))
    modifies w
    ensures old(w.pending) <= w.pending
    ensures w.Valid() && Sending(w.Sent(), old(w.Sent()), code[..], len[..], OpsFor(tree[..], maxCode + 1))
  {
    hide Sending, Emit, AllSendable, Sendable, LsbBits, Fits;
    ghost var t, sent0 := tree[..], w.Sent();
    var prevlen: int, nextlen, count := -1, tree[0], 0;
    var maxCount, minCount := 7, 4;
    if nextlen == 0 {
      maxCount, minCount := 138, 3;
    }
    SendingNone(sent0, code[..], len[..]);
    for n := 0 to maxCode + 1
      invariant w.Valid() && tree[..] == t && WalkTo(t, n).count == count && WalkTo(t, n).prev == prevlen
      invariant count < MaxCount(prevlen, nextlen) && nextlen == t[n]
      invariant maxCount == MaxCount(prevlen, nextlen) && minCount == MinCount(prevlen, nextlen)
      invariant Sending(w.Sent(), sent0, code[..], len[..], WalkTo(t, n).ops)
      invariant old(w.pending) <= w.pending
    {
      var curlen := nextlen;
      nextlen := tree[n + 1];
      count := count + 1;
      if count < maxCount && curlen == nextlen {
        continue;
      }
      ghost var ops, e := WalkTo(t, n).ops, Emit(prevlen, curlen, count);
      EmittedSendable(t, n + 1, maxCode + 1, code[..], len[..]);
      EmitShape(code[..], len[..], ops, prevlen, curlen, count);
      if count < minCount {
        SendSame(w, code, len, curlen, count, sent0, ops);
      } else if curlen != 0 {
        if curlen != prevlen {
          SendSame(w, code, len, curlen, 1, sent0, ops);
          count := count - 1;
          SendRepeat(w, code, len, 16, count - 3, 2, sent0, ops + Same(curlen, 1));
        } else {
          SendRepeat(w, code, len, 16, count - 3, 2, sent0, ops);
        }
      } else if count <= 10 {
        SendRepeat(w, code, len, 17, count - 3, 3, sent0, ops);
      } else {
        SendRepeat(w, code, len, 18, count - 11, 7, sent0, ops);
      }
      count, prevlen := 0, curlen;
      if nextlen == 0 {
        maxCount, minCount := 138, 3;
      } else if curlen == nextlen {
        maxCount, minCount := 6, 3;
      } else {
        maxCount, minCount := 7, 4;
      }
    }
  }

  lemma EmitShape(code: seq<nat>, len: seq<nat>, ops: seq<Op>, prev: int, cur: nat, count: nat)
    requires cur < 16 && 1 <= count <= MaxCount(prev, cur) && AllSendable(code, len, ops + Emit(prev, cur, count))
    ensures count < MinCount(prev, cur) ==>
      Sendable(code, len, cur) && Fits(Op(cur, 0)) && Emit(prev, cur, count) == Same(cur, count)
    ensures count >= MinCount(prev, cur) && cur != 0 && cur != prev ==>
      && Sendable(code, len, cur) && Fits(Op(cur, 0)) && Sendable(code, len, 16) && Fits(Op(16, count - 4))
      && ops + Emit(prev, cur, count) == ops + Same(cur, 1) + [Op(16, count - 4)]
    ensures count >= MinCount(prev, cur) && cur != 0 && cur == prev ==>
      Sendable(code, len, 16) && Fits(Op(16, count - 3)) && Emit(prev, cur, count) == [Op(16, count - 3)]
    ensures count >= MinCount(prev, cur) && cur == 0 && count <= 10 ==>
      Sendable(code, len, 17) && Fits(Op(17, count - 3)) && Emit(prev, cur, count) == [Op(17, count - 3)]
    ensures count >= MinCount(prev, cur) && cur == 0 && count > 10 ==>
      Sendable(code, len, 18) && Fits(Op(18, count - 11)) && Emit(prev, cur, count) == [Op(18, count - 11)]
  {
    hide Sendable, Fits, AllSendable;
    var e := Emit(prev, cur, count);
    assert |e| > 0;
    LastSendable(code, len, ops, e, 0);
    if |e| > 1 {
      LastSendable(code, len, ops, e, 1);
    }
  }

  // ---------------------------------------------------------------- no run is left uncoded

  /** A symbol that stands for lengths x. */
  predicate StandsFor(op: Op, x: int) {
    || (op == Op(op.sym, 0) && op.sym < 16 && op.sym == x)
    || (op.sym == 16 && x != 0) || ((op.sym == 17 || op.sym == 18) && x == 0)
  }

  /** What may follow a symbol: zeros only if it is a length other than 0 or the longest run of zeros, or one more 0 after a 0; and a
      repetition after a repetition only if that is as long as may be. */
  predicate MayFollow(a: Op, b: Op) {
    && (a.sym == 17 || a.sym == 18 ==> b.sym == 0 || b.sym == 17 || b.sym == 18 ==> a == Op(18, 127))
    && (a.sym == 16 && b.sym == 16 ==> a == Op(16, 3)) && (a == Op(0, 0) ==> b.sym != 17 && b.sym != 18)
  }

  ghost predicate Following(ops: seq<Op>) {
    forall i {:trigger ops[i]} | 0 <= i < |ops| - 1 :: MayFollow(ops[i], ops[i + 1])
  }

  ghost predicate FewZeros(ops: seq<Op>) {
    forall i {:trigger ops[i]} | 0 <= i < |ops| - 2 :: !(ops[i] == ops[i + 1] == ops[i + 2] == Op(0, 0))
  }

  ghost predicate FewEqual(ops: seq<Op>) {
    forall i {:trigger ops[i]} | 0 <= i < |ops| - 3 :: ops[i].sym < 16 ==> !(ops[i] == ops[i + 1] == ops[i + 2] == ops[i + 3])
  }

  /** The runs in a list of symbols are coded: neither three zeros nor four equal lengths follow each other as they are. */
  ghost predicate Tight(ops: seq<Op>) {
    Following(ops) && FewZeros(ops) && FewEqual(ops)
  }

  /** The last symbol stands for the length before, and is the longest one if the same length follows. */
  ghost predicate Closed(w: Walk, cur: int) {
    && (w.prev == -1 ==> w.ops == [])
    && (w.ops != [] ==>
          && StandsFor(w.ops[|w.ops| - 1], w.prev)
          && (w.prev == cur ==> w.ops[|w.ops| - 1] == if cur == 0 then Op(18, 127) else Op(16, 3)))
  }

  lemma FollowingJoin(a: seq<Op>, b: seq<Op>)
    requires Following(a) && Following(b) && (a != [] && b != [] ==> MayFollow(a[|a| - 1], b[0]))
    ensures Following(a + b)
  {
    hide MayFollow;
    var c := a + b;
    forall i {:trigger c[i]} | 0 <= i < |c| - 1 ensures MayFollow(c[i], c[i + 1]) {
      if i + 1 < |a| {
        assert c[i] == a[i] && c[i + 1] == a[i + 1];
      } else if i >= |a| {
        assert c[i] == b[i - |a|] && c[i + 1] == b[i - |a| + 1];
      }
    }
  }

  lemma FewZerosJoin(a: seq<Op>, b: seq<Op>)
    requires FewZeros(a) && FewZeros(b) && (a != [] && b != [] && a[|a| - 1].sym < 16 ==> a[|a| - 1] != b[0])
    ensures FewZeros(a + b)
  {
    var c := a + b;
    forall i {:trigger c[i]} | 0 <= i < |c| - 2 ensures !(c[i] == c[i + 1] == c[i + 2] == Op(0, 0)) {
      if i + 2 < |a| {
        assert c[i] == a[i] && c[i + 1] == a[i + 1] && c[i + 2] == a[i + 2];
      } else if i >= |a| {
        assert c[i] == b[i - |a|] && c[i + 1] == b[i - |a| + 1] && c[i + 2] == b[i - |a| + 2];
      }
    }
  }

  lemma FewEqualJoin(a: seq<Op>, b: seq<Op>)
    requires FewEqual(a) && FewEqual(b) && (a != [] && b != [] && a[|a| - 1].sym < 16 ==> a[|a| - 1] != b[0])
    ensures FewEqual(a + b)
  {
    var c := a + b;
    forall i {:trigger c[i]} | 0 <= i < |c| - 3 && c[i].sym < 16 ensures !(c[i] == c[i + 1] == c[i + 2] == c[i + 3]) {
      if i + 3 < |a| {
        assert c[i] == a[i] && c[i + 1] == a[i + 1] && c[i + 2] == a[i + 2] && c[i + 3] == a[i + 3];
      } else if i >= |a| {
        assert c[i] == b[i - |a|] && c[i + 1] == b[i - |a| + 1] && c[i + 2] == b[i - |a| + 2] && c[i + 3] == b[i - |a| + 3];
      }
    }
  }

  /** What is emitted for a run. */
  lemma EmitTight(prev: int, cur: nat, count: nat)
    requires cur < 16 && 1 <= count <= MaxCount(prev, cur)
    ensures Tight(Emit(prev, cur, count)) && Emit(prev, cur, count) != []
    ensures var e := Emit(prev, cur, count);
      && StandsFor(e[|e| - 1], cur) && StandsFor(e[0], cur) && (e[0].sym == 16 ==> cur == prev)
      && (count == MaxCount(prev, cur) ==> e[|e| - 1] == if cur == 0 then Op(18, 127) else Op(16, 3))
  {
  }

  lemma StepTight(w: Walk, cur: nat, next: nat)
    requires Tight(w.ops) && Closed(w, cur) && cur < 16 && w.count < MaxCount(w.prev, cur)
    ensures Tight(Step(w, cur, next).ops) && Closed(Step(w, cur, next), next)
  {
    hide Following, FewZeros, FewEqual, Emit;
    var count := w.count + 1;
    if !(count < MaxCount(w.prev, cur) && cur == next) {
      var e := Emit(w.prev, cur, count);
      EmitTight(w.prev, cur, count);
      FollowingJoin(w.ops, e);
      FewZerosJoin(w.ops, e);
      FewEqualJoin(w.ops, e);
    }
  }

  lemma {:induction false} WalkTight(len: seq<nat>, n: nat)
    requires n < |len| && forall i | 0 <= i < n :: len[i] < 16
    ensures Tight(WalkTo(len, n).ops) && Closed(WalkTo(len, n), len[n])
    ensures WalkTo(len, n).count < MaxCount(WalkTo(len, n).prev, len[n])
  {
    hide Tight, Closed, Emit;
    if n == 0 {
      NothingTight(len[0]);
    } else {
      WalkTight(len, n - 1);
      StepTight(WalkTo(len, n - 1), len[n - 1], len[n]);
    }
  }

  lemma NothingTight(cur: nat)
    ensures Tight([]) && Closed(Walk([], 0, -1), cur)
  {
  }

  /** scan_tree and send_tree leave no run of lengths uncoded. */
  lemma RunsAreCoded(lens: seq<nat>)
    requires forall i | 0 <= i < |lens| :: lens[i] < 16
    ensures Tight(OpsOf(lens))
  {
    hide Tight;
    WalkTight(lens + [0xffff], |lens|);
  }
}
