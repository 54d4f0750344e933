/** build_bl_tree and send_all_trees (src/ext/zlib/trees.c): the description of the two dynamic trees. */
module SendTrees {
  import opened Bits
  import opened PairTree
  import opened LengthLimit
  import opened CodeLengths
  import opened Canonical
  import opened Streams
  import opened DecodeTables
  import opened InfTrees
  import opened Reading
  import opened Inflation
  import opened SendBits
  import opened Blocks
  import opened Headers
  import opened StaticTables
  import opened Tally
  import opened Compress
  import opened RunLength
  import opened TreeBuilding
  import opened BitLengths
  import opened GenCodes

  // ---------------------------------------------------------------- frequencies of the code length symbols

  ghost predicate AllFit(ops: seq<Op>) {
    forall i | 0 <= i < |ops| :: Fits(ops[i])
  }

  ghost function OpFreq(ops: seq<Op>): (r: seq<nat>)
    requires AllFit(ops)
    ensures |r| == 19
  {
    if ops == [] then NoFreq(19) else Bump(OpFreq(ops[..|ops| - 1]), ops[|ops| - 1].sym)
  }

  lemma {:induction false} OpFreqIs(ops: seq<Op>, s: nat)
    requires AllFit(ops) && s < 19
    ensures OpFreq(ops)[s] == OpCount(ops, s)
  {
    if ops != [] {
      OpFreqIs(ops[..|ops| - 1], s);
    }
  }

  lemma {:induction false} OpFreqTotal(ops: seq<Op>)
    requires AllFit(ops)
    ensures SumTo(OpFreq(ops), 19) == |ops|
  {
    hide SumTo;
    if ops == [] {
      SumToZero(NoFreq(19), 19);
    } else {
      OpFreqTotal(ops[..|ops| - 1]);
      SumToUpdate(OpFreq(ops[..|ops| - 1]), 19, ops[|ops| - 1].sym);
    }
  }

  lemma {:induction false} OpFreqPositive(ops: seq<Op>, i: nat)
    requires AllFit(ops) && i < |ops|
    ensures OpFreq(ops)[ops[i].sym] > 0
    decreases |ops|
  {
    if i < |ops| - 1 {
      OpFreqPositive(ops[..|ops| - 1], i);
    }
  }

  function OpExtras(): (r: seq<nat>)
    ensures |r| == 19 && forall s | 0 <= s < 19 :: r[s] == ExtraBits(s)
  {
    seq(19, s requires 0 <= s < 19 => ExtraBits(s))
  }

  lemma {:induction false} OpsSize(cl: seq<nat>, ops: seq<Op>)
    requires |cl| == 19 && OpsCoded(cl, ops)
    ensures |OpsBitsOf(cl, ops)| == Text(OpFreq(ops), cl, OpExtras())
    decreases |ops|
  {
    hide Text, Bitstring, OpExtras, Fits, LsbBits;
    if ops == [] {
      TextNone(19, cl, OpExtras());
    } else {
      var us, op := ops[..|ops| - 1], ops[|ops| - 1];
      OpsSize(cl, us);
      TextBump(OpFreq(us), op.sym, cl, OpExtras());
    }
  }

  lemma {:induction false} OpsBitsJoin(cl: seq<nat>, a: seq<Op>, b: seq<Op>)
    requires OpsCoded(cl, a) && OpsCoded(cl, b)
    ensures OpsCoded(cl, a + b) && |OpsBitsOf(cl, a + b)| == |OpsBitsOf(cl, a)| + |OpsBitsOf(cl, b)|
    decreases |b|
  {
    hide Bitstring, Fits, HasCode, OpBitsOf;
    if b == [] {
      assert a + b == a;
    } else {
      OpsBitsJoin(cl, a, b[..|b| - 1]);
      assert (a + b)[..|a + b| - 1] == a + b[..|b| - 1];
    }
  }

  /** Every symbol stands for at least one length. */
  lemma {:induction false} FewOps(acc: seq<nat>, ops: seq<Op>)
    requires Decodable(acc, ops)
    ensures |acc| + |ops| <= |Grown(acc, ops)|
    decreases |ops|
  {
    hide Grow;
    if ops != [] {
      GrowGrows(acc, ops[0]);
      FewOps(Grow(acc, ops[0]), ops[1..]);
    }
  }

  // ---------------------------------------------------------------- codes of dynamic trees

  /** A tree that build_tree has finished: its first n lengths, those of all symbols that occur, and their codes. */
  ghost predicate Finished(code: seq<nat>, dl: seq<nat>, lens: seq<nat>, freq: seq<nat>, limit: nat) {
    && 1 <= limit <= 15 && |lens| <= |dl| && |lens| <= |code| && |lens| <= |freq|
    && (forall s | 0 <= s < |lens| :: lens[s] <= limit && (freq[s] != 0 ==> lens[s] != 0))
    && KraftSum(lens) == Pow2(15) && Encodes(code, dl, lens)
  }

  lemma {:induction false} CountTrim(len: seq<nat>, n: nat, b: nat)
    requires n <= |len| && b > 0 && forall s | n <= s < |len| :: len[s] == 0
    ensures Count(len, b) == Count(len[..n], b)
    decreases |len|
  {
    hide Count;
    if n < |len| {
      var m := |len| - 1;
      assert len == len[..m] + [len[m]];
      CountAppend(len[..m], len[m], b);
      CountTrim(len[..m], n, b);
      assert len[..m][..n] == len[..n];
    } else {
      assert len[..n] == len;
    }
  }

  /** Symbols without a code at the end do not matter. */
  lemma TrimmedCounts(len: seq<nat>, n: nat)
    requires n <= |len| && forall s | n <= s < |len| :: len[s] == 0
    ensures Counts(len[..n]) == Counts(len)
  {
    hide Count;
    forall b | 1 <= b < 16 ensures Count(len, b) == Count(len[..n], b) {
      CountTrim(len, n, b);
    }
  }

  lemma FinishedTree(fc: seq<nat>, dl: seq<nat>, elems: nat, bl: seq<nat>, limit: nat, freq: seq<nat>, freq0: seq<nat>,
                     n: nat)
    requires elems <= |fc| && elems <= |dl| && elems <= |freq| && 1 <= limit <= 15 && n <= elems && |freq0| == |freq|
    requires CompleteCode(dl[..elems], bl, limit, Used(freq, elems)) && Assigned(fc, dl[..elems], bl, elems)
    requires forall s | 0 <= s < |freq| && freq0[s] != 0 :: freq[s] != 0
    requires forall s | n <= s < elems :: freq[s] == 0
    ensures Finished(fc, dl, dl[..n], freq0, limit)
  {
    hide Count, KraftUpTo, Pow2, Code, Reversed;
    var len, lens := dl[..elems], dl[..n];
    assert len[..n] == lens;
    TrimmedCounts(len, n);
    assert bl == Counts(len);
    CompleteIsCodable(len, bl, limit, Used(freq, elems));
    KraftSumIs(lens, bl);
    forall s | 0 <= s < n ensures Code(lens, bl, s) == Code(len, bl, s) {
      SameCode(len, n, bl, s);
    }
  }

  lemma SameCode(len: seq<nat>, n: nat, bl: seq<nat>, s: nat)
    requires s < n <= |len| && len[s] <= |bl|
    ensures Code(len[..n], bl, s) == Code(len, bl, s)
  {
    hide Count, First;
    assert len[..n][..s] == len[..s];
  }

  lemma FinishedUsable(kind: CodeType, code: seq<nat>, dl: seq<nat>, lens: seq<nat>, freq: seq<nat>, limit: nat)
    requires Finished(code, dl, lens, freq, limit) && |lens| <= Symbols(kind)
    ensures Usable(kind, lens) && forall s | 0 <= s < |lens| && freq[s] != 0 :: HasCode(lens, s)
  {
    hide KraftSum, Pow2, Encodes;
  }

  /** The kinds of trees. */
  function LitKind(): TreeKind {
    TreeKind(FixedLengths(), seq(29, c requires 0 <= c < 29 => LengthExtra(c)), 257, 286, 15)
  }

  function DistKind(): TreeKind {
    TreeKind(seq(30, i => 5), DistExtras(), 0, 30, 15)
  }

  function BlKind(): TreeKind {
    TreeKind([], OpExtras(), 0, 19, 7)
  }

  lemma KindsValid()
    ensures LitKind().Valid() && DistKind().Valid() && BlKind().Valid()
    ensures LitKind().Extras() == LitExtras() && DistKind().Extras() == DistExtras() && BlKind().Extras() == OpExtras()
  {
    Pow2Values();
    DistanceBases(0);
  }

  // ---------------------------------------------------------------- build_bl_tree

  ghost predicate Small(len: seq<nat>, n: nat) {
    n <= |len| && forall i | 0 <= i < n :: len[i] < 16
  }

  /** The symbols for both trees: what they decode to, and that they can be counted in a tree of 19 symbols. */
  lemma BothTrees(l: seq<nat>, ln: nat, d: seq<nat>, dn: nat)
    requires 0 < ln < |l| && Small(l, ln) && l[ln] == 0xffff && 0 < dn < |d| && Small(d, dn) && d[dn] == 0xffff
    ensures var a, b := OpsFor(l, ln), OpsFor(d, dn);
      && Decodable([], a) && Grown([], a) == l[..ln] && Decodable(l[..ln], b) && Grown(l[..ln], b) == l[..ln] + d[..dn]
      && |a + b| <= ln + dn && AllFit(a + b)
  {
    hide Decodable, Grown, OpsFor, Fits;
    OpsDecode([], l, ln);
    OpsDecode(l[..ln], d, dn);
    FewOps([], OpsFor(l, ln));
    FewOps(l[..ln], OpsFor(d, dn));
    assert [] + l[..ln] == l[..ln];
  }

  lemma CountedBoth(f0: seq<nat>, f1: seq<nat>, f2: seq<nat>, a: seq<Op>, b: seq<Op>)
    requires Counting(f1, f0, a) && Counting(f2, f1, b) && |f0| >= 19 && f0[..19] == NoFreq(19)
    requires AllFit(a + b)
    ensures f2[..19] == OpFreq(a + b)
  {
    hide OpCount, OpFreq;
    forall s | 0 <= s < 19 ensures f2[s] == OpFreq(a + b)[s] {
      OpCountAppend(a, b, s);
      OpFreqIs(a + b, s);
      assert f0[s] == f0[..19][s];
    }
  }

  /** What is known of the code length tree once it is built. */
  ghost predicate BlTree(code: seq<nat>, len: seq<nat>, cl: seq<nat>, n: nat, lops: seq<Op>, dops: seq<Op>) {
    && |cl| == 19 && 4 <= n <= 19 && Usable(CODES, cl) && Encodes(code, len, cl) && 19 <= |code| && 19 <= |len|
    && (forall i | 0 <= i < 19 :: cl[i] <= 7 && len[i] == cl[i]) && (forall i | n <= i < 19 :: cl[ORDER[i]] == 0)
    && OpsCoded(cl, lops) && OpsCoded(cl, dops)
  }

  lemma OpsHaveCodes(cl: seq<nat>, code: seq<nat>, dl: seq<nat>, freq: seq<nat>, a: seq<Op>, b: seq<Op>)
    requires |cl| == 19 && Finished(code, dl, cl, freq, 7) && AllFit(a + b)
    requires |freq| >= 19 && freq[..19] == OpFreq(a + b)
    ensures OpsCoded(cl, a + b) && OpsCoded(cl, a) && OpsCoded(cl, b)
  {
    hide KraftSum, Encodes, OpFreq;
    forall i | 0 <= i < |a + b| ensures HasCode(cl, (a + b)[i].sym) && Fits((a + b)[i]) {
      OpFreqPositive(a + b, i);
      assert freq[(a + b)[i].sym] == freq[..19][(a + b)[i].sym];
    }
    forall i | 0 <= i < |a| ensures HasCode(cl, a[i].sym) && Fits(a[i]) {
      assert (a + b)[i] == a[i];
    }
    forall i | 0 <= i < |b| ensures HasCode(cl, b[i].sym) && Fits(b[i]) {
      assert (a + b)[|a| + i] == b[i];
    }
  }

  lemma NoStatic(len: seq<nat>, freq: seq<nat>)
    requires |len| == 19 <= |freq|
    ensures BlKind().Valid() && StaticCost(BlKind(), len, freq) == 0
  {
    KindsValid();
  }

  /** The number of code length code lengths to send, less one: at least three, as some length is in use. */
  method LastBlIndex(bdl: array<nat>, ghost w: nat) returns (maxBlindex: nat)
    requires bdl.Length >= 19 && 3 <= w < 19 && bdl[ORDER[w]] != 0
    ensures 3 <= maxBlindex < 19 && bdl[ORDER[maxBlindex]] != 0 && forall i | maxBlindex < i < 19 :: bdl[ORDER[i]] == 0
  {
    maxBlindex := 18;
    while maxBlindex >= 3 && bdl[ORDER[maxBlindex]] == 0
      invariant w <= maxBlindex <= 18 && forall i | maxBlindex < i < 19 :: bdl[ORDER[i]] == 0
    {
      maxBlindex := maxBlindex - 1;
    }
  }

  /** As many code length code lengths are sent as there are up to the last one in use. */
  ghost predicate LastSent(cl: seq<nat>, n: nat) {
    |cl| == 19 && 4 <= n <= 19 && cl[ORDER[n - 1]] != 0 && forall i | n <= i < 19 :: cl[ORDER[i]] == 0
  }

  /** Determines the code length tree for the two trees and the number of its lengths to send. */
  method BuildBlTree(b: TreeBuilder, ltree: array<nat>, lMax: nat, dtree: array<nat>, dMax: nat, bfc: array<nat>, bdl: array<nat>)
    returns (maxBlindex: nat, ghost cl: seq<nat>, ghost tree: HuffmanTree)
    requires b.Valid() && b.Fits(bfc, bdl, 19) && bfc[..19] == NoFreq(19)
    requires lMax + 1 < ltree.Length && dMax + 1 < dtree.Length && Small(ltree[..], lMax + 1) && Small(dtree[..], dMax + 1)
    requires ltree != dtree && lMax + dMax + 2 <= 320 && ltree[lMax] != 0
    requires ltree != bfc && ltree != bdl && ltree != b.heap && ltree != b.depth && ltree != b.blCount
    requires dtree != bfc && dtree != bdl && dtree != b.heap && dtree != b.depth && dtree != b.blCount
    modifies b, b.heap, b.depth, b.blCount, ltree, dtree, bfc, bdl
    ensures ltree[..] == old(ltree[..])[lMax + 1 := 0xffff] && dtree[..] == old(dtree[..])[dMax + 1 := 0xffff]
    ensures var lops, dops := OpsFor(ltree[..], lMax + 1), OpsFor(dtree[..], dMax + 1);
      && BlTree(bfc[..], bdl[..], cl, maxBlindex + 1, lops, dops)
      && AllFit(lops + dops) && TreeFor(tree, OpFreq(lops + dops), 7) && tree.len == cl && LastSent(cl, maxBlindex + 1)
      && b.optLen == old(b.optLen) + 14 + 3 * (maxBlindex + 1) + |OpsBitsOf(cl, lops)| + |OpsBitsOf(cl, dops)|
    ensures b.staticLen == old(b.staticLen)
  {
    hide OpsFor, OpFreq, Counting, Fits, Decodable, Grown, CompleteCode, Assigned, Monotone, Optimum, BitCost, StaticCost,
         SumTo, Finished, OpsCoded, OpsBitsOf, Usable, Encodes, Text, OpExtras, TreeFor, Overflow, LastSent;
    ghost var l1, d1 := ltree[..][lMax + 1 := 0xffff], dtree[..][dMax + 1 := 0xffff];
    ghost var f0 := bfc[..];
    ScanTree(ltree, lMax, bfc);
    ghost var f1 := bfc[..];
    assert ltree[..] == l1 && dtree[..] == old(dtree[..]);
    ScanTree(dtree, dMax, bfc);
    ghost var f2 := bfc[..];
    assert ltree[..] == l1 && dtree[..] == d1;
    ghost var lops, dops := OpsFor(l1, lMax + 1), OpsFor(d1, dMax + 1);
    BothTrees(l1, lMax + 1, d1, dMax + 1);
    CountedBoth(f0, f1, f2, lops, dops);
    OpFreqTotal(lops + dops);
    SumToPrefix(f2, 19);
    KindsValid();
    var maxCode, overflow;
    ghost var freq, forced;
    maxCode, overflow, freq, forced, tree := BuildTree(b, bfc, bdl, BlKind());
    assert ltree[..] == l1 && dtree[..] == d1;
    NoStatic(bdl[..19], f2);
    cl := bdl[..19];
    BlFinished(bfc[..], bdl[..], b.blCount[..], f2, freq, forced, lops, dops);
    ghost var w := SomeLength(cl, lops, l1, lMax);
    maxBlindex := LastBlIndex(bdl, w);
    forall i | maxBlindex < i < 19 ensures cl[ORDER[i]] == 0 {
      OrderIsPermutation(i);
    }
    MakeLastSent(cl, bdl[..], maxBlindex);
    b.optLen := b.optLen + 3 * (maxBlindex + 1) + 14;
    assert ltree[..] == l1 && dtree[..] == d1;
  }

  lemma MakeLastSent(cl: seq<nat>, bdl: seq<nat>, maxBlindex: nat)
    requires |bdl| >= 19 && cl == bdl[..19] && 3 <= maxBlindex < 19 && bdl[ORDER[maxBlindex]] != 0
    requires forall i | maxBlindex < i < 19 :: bdl[ORDER[i]] == 0
    ensures LastSent(cl, maxBlindex + 1)
  {
    forall i | maxBlindex <= i < 19 ensures ORDER[i] < 19 {
      OrderIsPermutation(i);
    }
  }

  lemma {:induction false} ZerosOnly(acc: seq<nat>, ops: seq<Op>)
    requires Decodable(acc, ops) && (forall i | 0 <= i < |acc| :: acc[i] == 0) && forall i | 0 <= i < |ops| :: ops[i].sym >= 16
    ensures forall i | 0 <= i < |Grown(acc, ops)| :: Grown(acc, ops)[i] == 0
    decreases |ops|
  {
    if ops != [] {
      ZerosOnly(Grow(acc, ops[0]), ops[1..]);
    }
  }

  /** Some length other than by repetition is always sent, so at least four lengths of the code length code are. */
  lemma SomeLength(cl: seq<nat>, lops: seq<Op>, l: seq<nat>, lMax: nat) returns (w: nat)
    requires |cl| == 19 && OpsCoded(cl, lops) && lMax < |l| && l[lMax] != 0
    requires Decodable([], lops) && Grown([], lops) == l[..lMax + 1]
    ensures 3 <= w < 19 && cl[ORDER[w]] != 0
  {
    hide Decodable, Grown, Fits;
    if forall i | 0 <= i < |lops| :: lops[i].sym >= 16 {
      ZerosOnly([], lops);
      assert false;
    }
    var i :| 0 <= i < |lops| && lops[i].sym < 16;
    OrderIsPermutation(lops[i].sym);
    w := PLACE[lops[i].sym];
  }

  lemma {:induction false} SumToPrefix(f: seq<nat>, n: nat)
    requires n <= |f|
    ensures forall m | n <= m <= |f| :: SumTo(f[..m], n) == SumTo(f, n)
  {
    if n > 0 {
      SumToPrefix(f, n - 1);
    }
  }

  lemma BlFinished(fc: seq<nat>, dl: seq<nat>, bl: seq<nat>, f: seq<nat>, freq: seq<nat>, forced: seq<nat>, a: seq<Op>, b: seq<Op>)
    requires |fc| >= 19 && |dl| >= 19 && |freq| == |f| >= 19 && Forcing(f, freq, forced)
    requires AllFit(a + b)
    requires f[..19] == OpFreq(a + b)
    requires CompleteCode(dl[..19], bl, 7, Used(freq, 19)) && Assigned(fc, dl[..19], bl, 19)
    ensures Finished(fc, dl, dl[..19], f, 7) && OpsCoded(dl[..19], a) && OpsCoded(dl[..19], b) && Usable(CODES, dl[..19])
    ensures Encodes(fc, dl, dl[..19]) && forall i | 0 <= i < 19 :: dl[i] <= 7
    ensures BitCost(dl[..19], f, dl[..19], OpExtras()) == |OpsBitsOf(dl[..19], a)| + |OpsBitsOf(dl[..19], b)|
  {
    hide CompleteCode, Assigned, BitCost, Encodes, Fits, OpFreq, KraftSum, Text, OpsBitsOf, OpExtras, HasCode;
    var cl := dl[..19];
    assert cl[..19] == cl;
    FinishedTree(fc, dl, 19, bl, 7, freq, f, 19);
    FinishedUsable(CODES, fc, dl, cl, f, 7);
    OpsHaveCodes(cl, fc, dl, f, a, b);
    OpsBitsJoin(cl, a, b);
    OpsSize(cl, a + b);
    TextIsBitCost(cl, f, cl, OpExtras());
  }

  // ---------------------------------------------------------------- send_all_trees

  lemma {:induction false} SameOpsBits(code: seq<nat>, len: seq<nat>, cl: seq<nat>, ops: seq<Op>)
    requires Encodes(code, len, cl) && OpsCoded(cl, ops) && |cl| <= |code| && |cl| <= |len|
    ensures AllSendable(code, len, ops) && OpsBits(code, len, ops) == OpsBitsOf(cl, ops)
    decreases |ops|
  {
    hide Encodes, Fits, Bitstring, LsbBits;
    forall i | 0 <= i < |ops| ensures Sendable(code, len, ops[i].sym) {
      CodeIsBitstring(code, len, cl, ops[i].sym);
    }
    if ops != [] {
      SameOpsBits(code, len, cl, ops[..|ops| - 1]);
      CodeIsBitstring(code, len, cl, ops[|ops| - 1].sym);
    }
  }

  lemma StoredNext(cl: seq<nat>, n: nat)
    requires |cl| == 19 && n < 19
    ensures ORDER[n] < 19 && StoredLengths(cl, n + 1) == StoredLengths(cl, n) + LsbBits(cl[ORDER[n]], 3)
    ensures StoredLengths(cl, 0) == []
  {
    hide LsbBits;
    OrderIsPermutation(n);
  }

  method SendStored(w: BitWriter, bdl: array<nat>, blcodes: nat, ghost cl: seq<nat>)
    requires w.Valid() && bdl.Length >= 19 && 1 <= blcodes <= 19 && |cl| == 19
    requires forall i | 0 <= i < 19 :: bdl[i] == cl[i] <= 7
    modifies w
    ensures old(w.pending) <= w.pending
    ensures w.Valid() && w.Sent() == old(w.Sent()) + StoredLengths(cl, blcodes)
  {
    hide StoredLengths, LsbBits, Pow2;
    ghost var sent0 := w.Sent();
    Pow2Values();
    StoredNext(cl, 0);
    for rank := 0 to blcodes
      invariant w.Valid() && w.Sent() == sent0 + StoredLengths(cl, rank)
      invariant old(w.pending) <= w.pending
    {
      StoredNext(cl, rank);
      w.SendBits(bdl[ORDER[rank]], 3);
      Compress.Regroup(sent0, StoredLengths(cl, rank), LsbBits(cl[ORDER[rank]], 3));
    }
  }

  method SendOps(w: BitWriter, tree: array<nat>, maxCode: nat, bfc: array<nat>, bdl: array<nat>, ghost cl: seq<nat>)
    requires w.Valid() && maxCode + 1 < tree.Length && Small(tree[..], maxCode + 1)
    requires Encodes(bfc[..], bdl[..], cl) && |cl| == 19 <= bfc.Length && 19 <= bdl.Length
    requires OpsCoded(cl, OpsFor(tree[..], maxCode + 1))
    modifies w
    ensures old(w.pending) <= w.pending
    ensures w.Valid() && w.Sent() == old(w.Sent()) + OpsBitsOf(cl, OpsFor(tree[..], maxCode + 1))
  {
    hide OpsFor, Encodes, OpsCoded, OpsBitsOf, OpsBits, AllSendable;
    ghost var ops := OpsFor(tree[..], maxCode + 1);
    SameOpsBits(bfc[..], bdl[..], cl, ops);
    forall i | 0 <= i <= maxCode ensures tree[i] < 16 {
      assert tree[..][i] == tree[i];
    }
    SendTree(tree, maxCode, bfc, bdl, w);
    assert tree[..] == old(tree[..]);
  }

  method SendAllTrees(w: BitWriter, ltree: array<nat>, lcodes: nat, dtree: array<nat>, dcodes: nat, blcodes: nat,
                      bfc: array<nat>, bdl: array<nat>, ghost cl: seq<nat>)
    requires w.Valid() && 257 <= lcodes <= 286 && 1 <= dcodes <= 30 && lcodes < ltree.Length && dcodes < dtree.Length
    requires Small(ltree[..], lcodes) && Small(dtree[..], dcodes)
    requires BlTree(bfc[..], bdl[..], cl, blcodes, OpsFor(ltree[..], lcodes), OpsFor(dtree[..], dcodes))
    modifies w
    ensures old(w.pending) <= w.pending
    ensures w.Valid()
    ensures w.Sent() ==
      old(w.Sent()) + HeaderBits(lcodes, dcodes, cl, blcodes, OpsFor(ltree[..], lcodes), OpsFor(dtree[..], dcodes))
  {
    hide OpsFor, Encodes, OpsCoded, OpsBitsOf, StoredLengths, Usable, LsbBits, Pow2;
    Pow2Values();
    ghost var sent0, lops, dops := w.Sent(), OpsFor(ltree[..], lcodes), OpsFor(dtree[..], dcodes);
    BlLengths(bfc[..], bdl[..], cl, blcodes, lops, dops);
    w.SendBits(lcodes - 257, 5);
    w.SendBits(dcodes - 1, 5);
    w.SendBits(blcodes - 4, 4);
    SendStored(w, bdl, blcodes, cl);
    ghost var sent1 := w.Sent();
    assert ltree[..] == old(ltree[..]) && bfc[..] == old(bfc[..]) && bdl[..] == old(bdl[..]);
    SendOps(w, ltree, lcodes - 1, bfc, bdl, cl);
    assert dtree[..] == old(dtree[..]) && bfc[..] == old(bfc[..]) && bdl[..] == old(bdl[..]);
    SendOps(w, dtree, dcodes - 1, bfc, bdl, cl);
    SixParts(sent0, LsbBits(lcodes - 257, 5), LsbBits(dcodes - 1, 5), LsbBits(blcodes - 4, 4), StoredLengths(cl, blcodes),
             OpsBitsOf(cl, lops), OpsBitsOf(cl, dops));
  }

  lemma BlLengths(code: seq<nat>, len: seq<nat>, cl: seq<nat>, n: nat, lops: seq<Op>, dops: seq<Op>)
    requires BlTree(code, len, cl, n, lops, dops)
    ensures |cl| == 19 <= |code| && 19 <= |len| && 4 <= n <= 19 && forall i | 0 <= i < 19 :: len[i] == cl[i] <= 7
    ensures Encodes(code, len, cl) && OpsCoded(cl, lops) && OpsCoded(cl, dops)
  {
    hide Usable, Encodes, OpsCoded;
  }

  lemma SixParts(s: seq<bool>, a: seq<bool>, b: seq<bool>, c: seq<bool>, d: seq<bool>, e: seq<bool>, f: seq<bool>)
    ensures s + a + b + c + d + e + f == s + (a + b + c + d + e + f)
  {
  }
}
