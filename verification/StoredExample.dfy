/** Fifteen bytes that _tr_flush_block of src/ext/zlib/trees.c sends in a stored block although the fixed codes are shorter. */
module StoredExample {
  import opened Bits
  import opened PairTree
  import opened LengthLimit
  import opened CodeLengths
  import opened Canonical
  import opened DecodeTables
  import opened InfTrees
  import opened Reading
  import opened Streams
  import opened SendBits
  import opened Compress
  import opened Inflation
  import opened Blocks
  import opened Headers
  import opened RunLength
  import opened Tally
  import opened SendTrees
  import opened Delivery
  import opened Forest
  import opened Optimal
  import opened TreeBuilding
  import opened BitLengths
  import opened GenCodes
  import opened FlushBlock
  import opened BlockCoder
  import opened BlockSizes
  import opened BlockText

  /** Fifteen literals with fixed codes of nine bits, far apart, so that their own codes are expensive to describe. */
  function SpreadBytes(): (buf: seq<byte>)
    ensures |buf| == 15 && forall i | 0 <= i < 15 :: buf[i] == 144 + 7 * i
  {
    seq(15, i requires 0 <= i < 15 => 144 + 7 * i)
  }

  function SpreadTokens(n: nat): (ts: seq<Token>)
    requires n <= 15
    ensures |ts| == n && forall i | 0 <= i < n :: ts[i] == Literal(144 + 7 * i)
  {
    seq(n, i requires 0 <= i < n => Literal(144 + 7 * i))
  }

  // ---------------------------------------------------------------- their frequencies

  predicate IsSpread(x: nat, n: nat) {
    144 <= x < 144 + 7 * n && (x - 144) % 7 == 0
  }

  lemma {:induction false} SpreadFreq(n: nat)
    requires n <= 15
    ensures AllGood(SpreadTokens(n))
    ensures forall x | 0 <= x < 286 :: LitFreq(SpreadTokens(n))[x] == if x == 256 || IsSpread(x, n) then 1 else 0
  {
    if n == 0 {
    } else {
      SpreadFreq(n - 1);
      var ts := SpreadTokens(n);
      assert ts[..n - 1] == SpreadTokens(n - 1);
      assert LitSymbol(ts[n - 1]) == 144 + 7 * (n - 1);
      forall x: nat | x < 286 ensures IsSpread(x, n) <==> IsSpread(x, n - 1) || x == 144 + 7 * (n - 1) {
      }
    }
  }

  // ---------------------------------------------------------------- how long their text is

  lemma {:induction false} LongText(p: seq<int>, f: seq<nat>, m: nat, n: nat)
    requires |p| == |f| && n <= |f| && forall x | 0 <= x < n :: p[x] >= m * f[x]
    ensures Sum(p[..n]) >= m * SumTo(f, n)
  {
    if n > 0 {
      LongText(p, f, m, n - 1);
      assert p[..n][..n - 1] == p[..n - 1];
    }
  }

  lemma {:induction false} KraftText(s: seq<int>, p: seq<int>, f: seq<nat>, n: nat)
    requires |s| == |p| == |f| && n <= |f| && forall x | 0 <= x < n :: s[x] + 2048 * p[x] >= 10240 * f[x]
    ensures Sum(s[..n]) + 2048 * Sum(p[..n]) >= 10240 * SumTo(f, n)
  {
    if n > 0 {
      KraftText(s, p, f, n - 1);
      assert s[..n][..n - 1] == s[..n - 1] && p[..n][..n - 1] == p[..n - 1];
    }
  }

  lemma ShortCodesCost(l: nat)
    requires 1 <= l <= 15
    ensures Pow2(15 - l) + 2048 * l >= 10240
  {
    hide Pow2;
    Pow2Values();
    Pow2Add(9, 2);
    if l < 5 {
      Pow2Add(11, 4 - l);
      assert Pow2(15 - l) == 2048 * Pow2(4 - l) && Pow2(4 - l) >= 5 - l;
    }
  }

  lemma SpreadPoint(t: HuffmanTree, f: seq<nat>, extra: seq<nat>, x: nat)
    requires TreeFor(t, f, 15) && |extra| == |f| && x < |f| && f[x] <= 1
    ensures |t.len| == |f| && Parts(f, t.len, extra)[x] >= f[x] * t.len[x]
    ensures Shares(t.len, 15, 15)[x] + 2048 * Parts(f, t.len, extra)[x] >= 10240 * f[x]
  {
    hide Complete, FromTree, CompleteCode, Monotone, Optimum, ToForce, Pow2, Overflow;
    if f[x] != 0 {
      UsedLength(t, f, x);
      ShortCodesCost(t.len[x]);
    }
  }

  lemma CompleteShares(t: HuffmanTree, f: seq<nat>)
    requires TreeFor(t, f, 15)
    ensures |t.len| == |f| && Sum(Shares(t.len, 15, 15)) <= 32768
  {
    hide Complete, FromTree, Monotone, Optimum, ToForce, Pow2, Overflow, Count, KraftUpTo, Sum;
    CompleteIsCodable(t.len, t.counts, 15, Used(t.freq, |f|));
    KraftFromCounts(t.counts, t.len, 15, 15);
    Pow2Values();
  }

  /** Sixteen symbols that occur once each, with a complete code: at least 64 bits, and 80 if no code is shorter than five. */
  lemma SpreadText(t: HuffmanTree, f: seq<nat>, extra: seq<nat>)
    requires TreeFor(t, f, 15) && |extra| == |f| && (forall x | 0 <= x < |f| :: f[x] <= 1) && SumTo(f, |f|) == 16
    ensures Text(f, t.len, extra) >= 64
    ensures (forall x | 0 <= x < |f| && f[x] != 0 :: t.len[x] >= 5) ==> Text(f, t.len, extra) >= 80
  {
    hide Sum, TreeFor, SumTo, Spend;
    CompleteShares(t, f);
    var s, p, n := Shares(t.len, 15, 15), Parts(f, t.len, extra), |f|;
    forall x | 0 <= x < n ensures s[x] + 2048 * p[x] >= 10240 * f[x] && p[x] >= f[x] * t.len[x] {
      SpreadPoint(t, f, extra, x);
    }
    KraftText(s, p, f, n);
    assert s[..n] == s && p[..n] == p;
    if forall x | 0 <= x < n && f[x] != 0 :: t.len[x] >= 5 {
      LongText(p, f, 5, n);
    }
  }

  lemma UsedLength(t: HuffmanTree, f: seq<nat>, x: nat)
    requires TreeFor(t, f, 15) && x < |f| && f[x] != 0
    ensures |t.len| == |f| && 1 <= t.len[x] <= 15
  {
    hide Complete, FromTree, Monotone, Optimum, ToForce, Pow2, Overflow, Count, KraftUpTo;
    assert t.freq[x] != 0;
  }

  /** With two symbols or more in use nothing is forced, and the others have no code. */
  lemma UnusedLength(t: HuffmanTree, f: seq<nat>, x: nat)
    requires TreeFor(t, f, 15) && x < |f| && f[x] == 0 && |Used(f, |f|)| >= 2
    ensures |t.len| == |f| && t.len[x] == 0
  {
    hide Complete, FromTree, Monotone, Optimum, Pow2, Overflow, Count, KraftUpTo;
    assert t.forced == [];
    assert t.freq[x] == 0;
  }

  // ---------------------------------------------------------------- how long their description is

  /** The number of stretches of equal lengths. */
  ghost function Runs(s: seq<nat>): nat {
    if s == [] then 0
    else Runs(s[..|s| - 1]) + if |s| == 1 || s[|s| - 1] != s[|s| - 2] then 1 else 0
  }

  lemma {:induction false} RunsOfRun(s: seq<nat>, v: nat, c: nat)
    ensures Runs(s + seq(c, i => v)) <= Runs(s) + if s == [] || s[|s| - 1] != v then 1 else 0
    decreases c
  {
    var r := s + seq(c, i => v);
    if c == 0 {
      assert r == s;
    } else {
      RunsOfRun(s, v, c - 1);
      assert r[..|r| - 1] == s + seq(c - 1, i => v);
    }
  }

  lemma {:induction false} RunsOfOps(acc: seq<nat>, ops: seq<Op>)
    requires Decodable(acc, ops)
    ensures Runs(Grown(acc, ops)) <= Runs(acc) + |ops|
    decreases |ops|
  {
    hide Runs;
    if ops != [] {
      RunsOfOps(Grow(acc, ops[0]), ops[1..]);
      RunsGrow(acc, ops[0]);
    }
  }

  lemma RunsGrow(acc: seq<nat>, op: Op)
    requires op.sym == 16 ==> acc != []
    ensures Runs(Grow(acc, op)) <= Runs(acc) + 1
  {
    if op.sym < 16 {
      assert (acc + [op.sym])[..|acc|] == acc;
    } else if op.sym == 16 {
      RunsOfRun(acc, acc[|acc| - 1], 3 + op.extra);
    } else {
      RunsOfRun(acc, 0, (if op.sym == 17 then 3 else 11) + op.extra);
    }
  }

  lemma {:induction false} RunsRise(s: seq<nat>, i: nat, j: nat)
    requires i <= j < |s|
    ensures Runs(s[..i + 1]) <= Runs(s[..j + 1])
    ensures s[i] != s[j] ==> Runs(s[..i + 1]) < Runs(s[..j + 1])
    decreases j
  {
    if i < j {
      RunsRise(s, i, j - 1);
      assert s[..j + 1][..j] == s[..j];
    }
  }

  ghost predicate SpreadLengths(ll: seq<nat>) {
    |ll| == 257 && forall x | 0 <= x < 257 :: ll[x] != 0 <==> x == 256 || IsSpread(x, 15)
  }

  lemma {:induction false} RunsOfSpread(ll: seq<nat>, k: nat)
    requires SpreadLengths(ll) && k < 15
    ensures Runs(ll[..144 + 7 * k + 1]) >= 2 * k + 2
  {
    hide Runs;
    var at := 144 + 7 * k;
    assert IsSpread(at, 15) && ll[at] != 0;
    if k == 0 {
      RunsRise(ll, 0, at);
      OneRun(ll);
    } else {
      RunsOfSpread(ll, k - 1);
      assert !IsSpread(at - 6, 15) && IsSpread(at - 7, 15);
      RunsRise(ll, at - 7, at - 6);
      RunsRise(ll, at - 6, at);
    }
  }

  lemma OneRun(s: seq<nat>)
    requires s != []
    ensures Runs(s[..1]) == 1
  {
    assert s[..1][..0] == [];
  }

  lemma SpreadRuns(ll: seq<nat>)
    requires SpreadLengths(ll)
    ensures Runs(ll) >= 32
  {
    hide Runs;
    RunsOfSpread(ll, 14);
    assert IsSpread(242, 15) && !IsSpread(243, 15);
    RunsRise(ll, 242, 243);
    RunsRise(ll, 243, 256);
    assert ll[..257] == ll;
  }

  /** Every length that is described has been sent, or is 0. */
  lemma {:induction false} ValuesSent(acc: seq<nat>, ops: seq<Op>, m: nat)
    requires Decodable(acc, ops) && (forall i | 0 <= i < |acc| :: acc[i] == 0 || acc[i] >= m)
    requires forall i | 0 <= i < |ops| && ops[i].sym < 16 :: ops[i].sym == 0 || ops[i].sym >= m
    ensures forall i | 0 <= i < |Grown(acc, ops)| :: Grown(acc, ops)[i] == 0 || Grown(acc, ops)[i] >= m
    decreases |ops|
  {
    if ops != [] {
      ValuesSent(Grow(acc, ops[0]), ops[1..], m);
    }
  }

  /** The fewer code length code lengths are sent, the longer all code lengths are. */
  lemma FewSent(cl: seq<nat>, n: nat, ops: seq<Op>)
    requires LastSent(cl, n) && OpsCoded(cl, ops) && Decodable([], ops)
    ensures n == 4 ==> forall i | 0 <= i < |Grown([], ops)| :: Grown([], ops)[i] == 0 || Grown([], ops)[i] >= 16
    ensures n < 12 ==> forall i | 0 <= i < |Grown([], ops)| :: Grown([], ops)[i] == 0 || Grown([], ops)[i] >= 5
  {
    hide Decodable, Grown, Fits;
    forall i | 0 <= i < |ops| ensures ops[i].sym < 19 && PLACE[ops[i].sym] < n {
      assert HasCode(cl, ops[i].sym);
      OrderIsPermutation(ops[i].sym);
    }
    if n == 4 {
      ValuesSent([], ops, 16);
    }
    if n < 12 {
      ValuesSent([], ops, 5);
    }
  }

  lemma {:induction false} OpsAreLong(cl: seq<nat>, ops: seq<Op>)
    requires OpsCoded(cl, ops)
    ensures |OpsBitsOf(cl, ops)| >= |ops|
    decreases |ops|
  {
    hide Bitstring, LsbBits, Fits;
    if ops != [] {
      assert HasCode(cl, ops[|ops| - 1].sym);
      OpsAreLong(cl, ops[..|ops| - 1]);
    }
  }

  // ---------------------------------------------------------------- the block

  lemma HeaderLength(ll: seq<nat>, dd: seq<nat>, cl: seq<nat>, n: nat, lops: seq<Op>, dops: seq<Op>)
    requires Describes(ll, dd, cl, n, lops, dops)
    ensures |HeaderBits(|ll|, |dd|, cl, n, lops, dops)| >= 14 + 3 * n + |lops| + |dops|
  {
    hide OpsBitsOf, OpsCoded, LsbBits, Usable, StoredLengths, Decodable, Grown;
    FlushBlock.StoredSize(cl, n);
    OpsAreLong(cl, lops);
    OpsAreLong(cl, dops);
  }

  /** The literal/length tree of the fifteen bytes has codes for them and the end of the block only. */
  lemma SpreadTree(t: HuffmanTree)
    requires AllGood(SpreadTokens(15)) && TreeFor(t, LitFreq(SpreadTokens(15)), 15)
    ensures SpreadLengths(Trim(t.len)) && |t.len| == 286 && t.len[256] <= 15
    ensures forall x | 0 <= x < 257 :: Trim(t.len)[x] == t.len[x]
  {
    hide TreeFor, Trim, LitFreq;
    var f := LitFreq(SpreadTokens(15));
    SpreadFreq(15);
    assert IsSpread(144, 15);
    TwoUsed(f, 144, 256);
    forall x | 0 <= x < 286 ensures |t.len| == 286 && (t.len[x] != 0 <==> x == 256 || IsSpread(x, 15)) {
      if f[x] == 0 {
        UnusedLength(t, f, x);
      } else {
        UsedLength(t, f, x);
      }
    }
    UsedLength(t, f, 256);
    TrimIs(t.len, 257);
  }

  lemma TwoUsed(f: seq<nat>, x: nat, y: nat)
    requires x < y < |f| && f[x] != 0 && f[y] != 0
    ensures |Used(f, |f|)| >= 2
  {
    SubsetSize({x, y}, Used(f, |f|));
  }

  lemma SpreadTextSize(t: HuffmanTree)
    requires AllGood(SpreadTokens(15)) && TreeFor(t, LitFreq(SpreadTokens(15)), 15)
    ensures |t.len| == 286 && Text(LitFreq(SpreadTokens(15)), t.len, LitExtras()) >= 64
    ensures (forall x | 0 <= x < 257 :: t.len[x] == 0 || t.len[x] >= 5)
      ==> Text(LitFreq(SpreadTokens(15)), t.len, LitExtras()) >= 80
  {
    hide TreeFor, LitFreq, Text, LitExtras, SumTo;
    var f := LitFreq(SpreadTokens(15));
    SpreadFreq(15);
    FreqTotals(SpreadTokens(15));
    BlockText.TreeSize(t, f);
    SpreadText(t, f, LitExtras());
    if forall x | 0 <= x < 257 :: t.len[x] == 0 || t.len[x] >= 5 {
      forall x | 0 <= x < 286 && f[x] != 0 ensures t.len[x] >= 5 {
        UsedLength(t, f, x);
      }
    }
  }

  /** With the codes that are built for them the fifteen bytes take at least 145 bits. */
  lemma SpreadDynamic(b: seq<bool>, eof: bool, trees: BlockTrees, n: nat)
    requires IsBuiltWith(b, SpreadTokens(15), eof, trees, n)
    ensures |b| >= 145
  {
    hide TreeFor, Trim, OpsOf, AllFit, OpFreq, LitFreq, DistFreq, AllCoded, BlockBits, HeaderBits, Text, LitExtras, DistExtras, Usable,
         OpsCoded, Decodable, Grown, Runs, SpreadLengths, LastSent;
    var ts, ll, dd := SpreadTokens(15), Trim(trees.lit.len), Trim(trees.dist.len);
    var cl, lops, dops := trees.codes.len, OpsOf(ll), OpsOf(dd);
    DynamicSize(ll, dd, cl, n, lops, dops, ts, eof);
    HeaderLength(ll, dd, cl, n, lops, dops);
    SpreadTree(trees.lit);
    SpreadRuns(ll);
    RunsOfOps([], lops);
    assert Runs([]) == 0 by { NoRuns(); }
    SomeOps(ll, dops, dd);
    SpreadTextSize(trees.lit);
    BuiltTextSize(trees, ts, n);
    FewSent(cl, n, lops);
    EndHasLength(ll);
    assert ll[256] == trees.lit.len[256];
    assert n < 12 ==> forall x | 0 <= x < 257 :: ll[x] == 0 || ll[x] >= 5;
  }

  lemma NoRuns()
    ensures Runs([]) == 0
  {
  }

  lemma SomeOps(acc: seq<nat>, ops: seq<Op>, more: seq<nat>)
    requires Decodable(acc, ops) && Grown(acc, ops) == acc + more && more != []
    ensures |ops| >= 1
  {
  }

  lemma EndHasLength(ll: seq<nat>)
    requires SpreadLengths(ll)
    ensures |ll| == 257 && ll[256] != 0
  {
  }

  lemma BuiltTextSize(trees: BlockTrees, ts: seq<Token>, n: nat)
    requires TreesFor(trees, ts, n) && AllCoded(Trim(trees.lit.len), Trim(trees.dist.len), ts)
    ensures |trees.lit.len| == 286 && |trees.dist.len| == 30
    ensures |BlockBits(Trim(trees.lit.len), Trim(trees.dist.len), ts)| >= Text(LitFreq(ts), trees.lit.len, LitExtras())
  {
    hide TreeFor, Trim, AllFit, OpFreq, LitFreq, DistFreq, AllCoded, BlockBits, Text, LitExtras, DistExtras, LastSent;
    BlockText.TreeSize(trees.lit, LitFreq(ts));
    BlockText.TreeSize(trees.dist, DistFreq(ts));
    TrimPrefix(trees.lit.len);
    TrimPrefix(trees.dist.len);
    Tally.BlockSize(Trim(trees.lit.len), Trim(trees.dist.len), ts, trees.lit.len, trees.dist.len);
    TextNotNegative(DistFreq(ts), trees.dist.len, DistExtras());
  }

  lemma TextNotNegative(f: seq<nat>, len: seq<nat>, extra: seq<nat>)
    requires |len| >= |f| && |extra| >= |f|
    ensures Text(f, len, extra) >= 0
  {
    hide Sum, SumTo, Spend;
    LongText(Parts(f, len, extra), f, 0, |f|);
    assert Parts(f, len, extra)[..|f|] == Parts(f, len, extra);
  }

  lemma {:induction false} NineBitsEach(ts: seq<Token>)
    requires AllCoded(FixedLengths(), FixedDistances(), ts)
    requires forall i | 0 <= i < |ts| :: ts[i].Literal? && 144 <= ts[i].c <= 255
    ensures |TokensBits(FixedLengths(), FixedDistances(), ts)| == 9 * |ts|
    decreases |ts|
  {
    hide FixedDistances, Bitstring;
    if ts != [] {
      NineBitsEach(ts[..|ts| - 1]);
    }
  }

  lemma SpreadStatic(eof: bool)
    ensures AllCoded(FixedLengths(), FixedDistances(), SpreadTokens(15)) && |StaticBits(SpreadTokens(15), eof)| == 145
  {
    hide TokensBits, Bitstring, TypeBits;
    FixedCodesAll(SpreadTokens(15));
    NineBitsEach(SpreadTokens(15));
  }

  /** However these fifteen bytes are flushed at the start of a stream, they are sent stored, in 20 bytes, where the fixed codes take
      19. */
  lemma StoredIsNotSmallest(form: Form, sent: seq<bool>, dynamic: seq<bool>, eof: bool, level: nat, fixedOnly: bool)
    requires AllCoded(FixedLengths(), FixedDistances(), SpreadTokens(15)) && level > 0
    requires Outcome(form, sent, dynamic, 0, SpreadTokens(15), SpreadBytes(), true, 15, eof, level, fixedOnly)
    ensures form == Stored && sent == StoredBits(0, SpreadBytes(), eof)
    ensures Bytes(|sent|) == 20 && Bytes(|StaticBits(SpreadTokens(15), eof)|) == 19
  {
    hide IsBuiltWith, IsDynamic, StoredBits, StaticBits, BlockBits, AllCoded;
    var ts := SpreadTokens(15);
    SpreadStatic(eof);
    StaticParts(ts, eof);
    var trees, n :| IsBuiltWith(dynamic, ts, eof, trees, n);
    SpreadDynamic(dynamic, eof, trees, n);
    BlockSizes.StoredSize(0, SpreadBytes(), eof);
  }

  lemma TokensCounted(c: Coder)
    requires c.Valid()
    ensures c.lastLit == |c.tokens| && c.w.Valid()
  {
    hide Coder.Shaped, LitFreq, DistFreq, Buffered, BitWriter.Valid;
  }

  lemma {:induction false} BitsOfSize(bytes: seq<nat>)
    ensures |BitsOf(bytes)| == 8 * |bytes|
  {
    if bytes != [] {
      BitsOfSize(bytes[..|bytes| - 1]);
    }
  }

  lemma NothingHeld(c: Coder, sent: seq<bool>)
    requires c.w.biValid == 0 && c.w.Sent() == sent && |sent| == 160
    ensures BitsOf(c.w.pending) == sent && |c.w.pending| == 20
  {
    assert LsbBits(c.w.biBuf, 0) == [];
    assert c.w.Sent() == BitsOf(c.w.pending);
    BitsOfSize(c.w.pending);
  }

  /** Tallied and flushed as the only block of a stream, at whatever level above 0, they come out that way. */
  method SendSpread(level: nat, fixedOnly: bool) returns (c: Coder)
    requires level > 0
    ensures BitsOf(c.w.pending) == StoredBits(0, SpreadBytes(), true) && |c.w.pending| == 20
  {
    hide Outcome, AllCoded, FixedLengths, FixedDistances, Coder.Valid, LitFreq, DistFreq, Buffered, BitWriter.Sent, Zeros,
         LsbBits, BitsOf, StaticBits, StoredBits;
    c := new Coder(128);
    assert c.tokens == SpreadTokens(0);
    for i := 0 to 15
      invariant c.Valid() && c.tokens == SpreadTokens(i) && c.w.Sent() == [] && c.dBuf.Length == 128
      invariant fresh(c) && fresh(c.w) && fresh(c.builder) && fresh(c.dBuf) && fresh(c.lBuf) && fresh(c.lfc) && fresh(c.ldl)
      invariant fresh(c.dfc) && fresh(c.ddl) && fresh(c.bfc) && fresh(c.bdl) && fresh(c.builder.heap) && fresh(c.builder.depth)
      invariant fresh(c.builder.blCount)
    {
      TokensCounted(c);
      var full := c.Tally(0, 144 + 7 * i);
      assert SpreadTokens(i + 1) == SpreadTokens(i) + [Literal(144 + 7 * i)];
    }
    ghost var form, sent, dynamic := c.FlushBlock(SpreadBytes(), true, 15, true, level, fixedOnly);
    StoredIsNotSmallest(form, sent, dynamic, true, level, fixedOnly);
    BlockSizes.StoredSize(0, SpreadBytes(), true);
    assert [] + sent == sent;
    assert Padding(160) == 0;
    NoZeros();
    assert sent + [] == sent;
    NothingHeld(c, sent);
  }

  lemma NoZeros()
    ensures Zeros(0) == []
  {
  }
}
