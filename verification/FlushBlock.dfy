/** The part of _tr_flush_block (src/ext/zlib/trees.c) that builds a block's three trees. */
module FlushBlock {
  import opened Bits
  import opened PairTree
  import opened CodeLengths
  import opened Canonical
  import opened Streams
  import opened DecodeTables
  import opened InfTrees
  import opened Reading
  import opened Inflation
  import opened SendBits
  import opened Blocks
  import opened Headers
  import opened StaticTables
  import opened Tally
  import opened Compress
  import opened SendTrees
  import opened Delivery
  import opened TreeBuilding
  import opened BitLengths
  import opened GenCodes
  import opened RunLength

  // ---------------------------------------------------------------- what the trees are after they are built

  /** What build_tree makes of a block: the literal/length and distance trees, and the tree for their description. */
  datatype BlockTrees = BlockTrees(lit: HuffmanTree, dist: HuffmanTree, codes: HuffmanTree)

  /** Lengths without the zeros behind the last symbol in use. */
  ghost function Trim(len: seq<nat>): seq<nat> {
    if len == [] || len[|len| - 1] != 0 then len else Trim(len[..|len| - 1])
  }

  lemma {:induction false} TrimIs(len: seq<nat>, n: nat)
    requires n <= |len| && (n > 0 ==> len[n - 1] != 0) && forall s | n <= s < |len| :: len[s] == 0
    ensures Trim(len) == len[..n]
    decreases |len|
  {
    if n < |len| {
      TrimIs(len[..|len| - 1], n);
      assert len[..|len| - 1][..n] == len[..n];
    } else {
      assert len[..n] == len;
    }
  }

  /** The run-length symbols for both trees. */
  ghost function Description(trees: BlockTrees): seq<Op> {
    OpsOf(Trim(trees.lit.len)) + OpsOf(Trim(trees.dist.len))
  }

  /** These are the trees that are built for the tokens: each for the frequencies that are counted. */
  ghost predicate TreesFor(trees: BlockTrees, ts: seq<Token>, n: nat) {
    && AllGood(ts) && TreeFor(trees.lit, LitFreq(ts), 15) && TreeFor(trees.dist, DistFreq(ts), 15)
    && AllFit(Description(trees)) && TreeFor(trees.codes, OpFreq(Description(trees)), 7) && LastSent(trees.codes.len, n)
  }

  /** The lengths and symbols to send are those of the trees built for the tokens. */
  ghost predicate Planned(trees: BlockTrees, ts: seq<Token>, n: nat, ll: seq<nat>, dd: seq<nat>, cl: seq<nat>, lops: seq<Op>,
                          dops: seq<Op>)
  {
    && TreesFor(trees, ts, n) && ll == Trim(trees.lit.len) && dd == Trim(trees.dist.len) && cl == trees.codes.len
    && lops == OpsOf(ll) && dops == OpsOf(dd)
  }

  lemma MakePlan(trees: BlockTrees, ts: seq<Token>, n: nat, ll: seq<nat>, dd: seq<nat>, cl: seq<nat>, lops: seq<Op>,
                 dops: seq<Op>)
    requires AllGood(ts) && TreeFor(trees.lit, LitFreq(ts), 15) && TreeFor(trees.dist, DistFreq(ts), 15)
    requires ll == Trim(trees.lit.len) && dd == Trim(trees.dist.len) && cl == trees.codes.len && lops == OpsOf(ll) && dops == OpsOf(dd)
    requires AllFit(lops + dops) && TreeFor(trees.codes, OpFreq(lops + dops), 7) && LastSent(cl, n)
    ensures Planned(trees, ts, n, ll, dd, cl, lops, dops)
  {
    hide TreeFor, LitFreq, DistFreq, OpFreq, Trim, OpsOf, AllFit;
  }

  /** The trees of a block, ready to be sent: lengths up to the largest symbols in use, their codes and their description. */
  ghost predicate Built(ts: seq<Token>, lfc: seq<nat>, ldl: seq<nat>, dfc: seq<nat>, ddl: seq<nat>, bfc: seq<nat>, bdl: seq<nat>,
                        lMax: nat, dMax: nat, maxBlindex: nat, ll: seq<nat>, dd: seq<nat>, cl: seq<nat>, trees: BlockTrees)
  {
    && 256 <= lMax < 286 && dMax < 30 && lMax + 1 < |ldl| && dMax + 1 < |ddl| && AllGood(ts)
    && ll == ldl[..lMax + 1] && dd == ddl[..dMax + 1] && Small(ldl, lMax + 1) && Small(ddl, dMax + 1)
    && AllCoded(ll, dd, ts) && Encodes(lfc, ldl, ll) && Encodes(dfc, ddl, dd)
    && BlTree(bfc, bdl, cl, maxBlindex + 1, OpsFor(ldl, lMax + 1), OpsFor(ddl, dMax + 1))
    && Describes(ll, dd, cl, maxBlindex + 1, OpsFor(ldl, lMax + 1), OpsFor(ddl, dMax + 1))
    && Planned(trees, ts, maxBlindex + 1, ll, dd, cl, OpsFor(ldl, lMax + 1), OpsFor(ddl, dMax + 1))
  }

  /** All symbols of the tokens have codes in finished trees. */
  lemma AllHaveCodes(ts: seq<Token>, lcode: seq<nat>, ldl: seq<nat>, ll: seq<nat>, dcode: seq<nat>, ddl: seq<nat>, dd: seq<nat>,
                     lf: seq<nat>, df: seq<nat>)
    requires AllGood(ts) && Finished(lcode, ldl, ll, lf, 15) && Finished(dcode, ddl, dd, df, 15) && |lf| >= 286
      && |df| >= 30
    requires |ll| <= 286 && |dd| <= 30 && lf[..286] == LitFreq(ts) && df[..30] == DistFreq(ts)
    requires (forall s | |ll| <= s < 286 :: lf[s] == 0) && (forall s | |dd| <= s < 30 :: df[s] == 0)
    ensures AllCoded(ll, dd, ts)
  {
    hide Finished, LitFreq, DistFreq, LengthCode, DistanceCode;
    FinishedUsable(LENS, lcode, ldl, ll, lf, 15);
    FinishedUsable(DISTS, dcode, ddl, dd, df, 15);
    EndCounted(ts);
    assert lf[..286][256] == lf[256];
    forall i | 0 <= i < |ts| ensures HasCodes(ll, dd, ts[i]) {
      FreqGrows(ts, i);
      var s := LitSymbol(ts[i]);
      assert lf[..286][s] == lf[s];
      if ts[i].Match? {
        var c := DistanceCode(ts[i].dist - 1);
        assert df[..30][c] == df[c];
      }
    }
  }

  lemma CountsPositive(freq: seq<nat>, freq': seq<nat>, forced: seq<nat>)
    requires Forcing(freq, freq', forced)
    ensures |freq'| == |freq| && forall s | 0 <= s < |freq| && freq[s] != 0 :: freq'[s] != 0
    ensures forall s | 3 <= s < |freq| :: freq'[s] == freq[s]
  {
  }

  /** The largest symbol in use has a code, and is at least the end of block. */
  lemma LitMax(ts: seq<Token>, f: seq<nat>, freq: seq<nat>, forced: seq<nat>, maxCode: nat)
    requires AllGood(ts) && |f| >= 286 && f[..286] == LitFreq(ts) && Forcing(f, freq, forced) && maxCode < 286
    requires forall x | maxCode < x < 286 :: freq[x] == 0
    ensures 256 <= maxCode && forall s | maxCode + 1 <= s < 286 :: f[s] == 0
  {
    hide LitFreq;
    EndCounted(ts);
    CountsPositive(f, freq, forced);
    assert f[..286][256] == f[256];
  }

  /** One of the two main trees after build_tree. */
  lemma TreeDone(fc: seq<nat>, dl: seq<nat>, elems: nat, bl: seq<nat>, freq: seq<nat>, f: seq<nat>, forced: seq<nat>, n: nat)
    requires elems <= |fc| && elems <= |dl| && elems <= |freq| && n <= elems && Forcing(f, freq, forced)
    requires CompleteCode(dl[..elems], bl, 15, Used(freq, elems)) && Assigned(fc, dl[..elems], bl, elems)
    requires forall s | n <= s < elems :: freq[s] == 0
    ensures Finished(fc, dl, dl[..n], f, 15) && Small(dl, n)
    ensures forall s | 0 <= s < elems && f[s] != 0 :: dl[s] != 0
    ensures n > 0 && freq[n - 1] != 0 ==> dl[n - 1] != 0 && Trim(dl[..elems]) == dl[..n]
    ensures forall s | n <= s < elems :: f[s] == 0
  {
    hide Assigned, KraftSum, Encodes, Pow2, Counts, Trim;
    CountsPositive(f, freq, forced);
    FinishedTree(fc, dl, elems, bl, 15, freq, f, n);
    FinishedSmall(fc, dl, dl[..n], f, 15, n);
    CompleteLengths(dl[..elems], bl, 15, freq, elems);
    if n > 0 && freq[n - 1] != 0 {
      TrimIs(dl[..elems], n);
      assert dl[..elems][..n] == dl[..n];
    }
  }

  lemma FinishedSmall(fc: seq<nat>, dl: seq<nat>, lens: seq<nat>, f: seq<nat>, limit: nat, n: nat)
    requires Finished(fc, dl, lens, f, limit) && n <= |dl| && lens == dl[..n]
    ensures Small(dl, n)
  {
    hide KraftSum, Encodes;
    forall i | 0 <= i < n ensures dl[i] < 16 {
      assert lens[i] == dl[i];
    }
  }

  lemma CompleteLengths(len: seq<nat>, bl: seq<nat>, limit: nat, freq: seq<nat>, elems: nat)
    requires |len| == elems <= |freq| && CompleteCode(len, bl, limit, Used(freq, elems))
    ensures forall s | 0 <= s < elems :: (len[s] != 0 <==> freq[s] != 0)
  {
  }

  /** The cost of a tree's symbols, coded with its own or with the static lengths. */
  lemma TreeCost(k: TreeKind, len: seq<nat>, f: seq<nat>, stat: seq<nat>, g: seq<nat>)
    requires k.Valid() && |len| == k.elems <= |f| && k.slen == stat && |stat| >= k.elems && g == f[..k.elems]
    requires forall s | 0 <= s < k.elems && f[s] != 0 :: len[s] != 0
    ensures BitCost(len, f, len, k.Extras()) == Text(g, len, k.Extras())
    ensures StaticCost(k, len, f) == Text(g, stat, k.Extras())
  {
    hide BitCost, Text, Pow2;
    TextIsBitCost(len, f, len, k.Extras());
    TextIsBitCost(len, f, k.Statics(), k.Extras());
    SameText(g, k.Statics(), stat, k.Extras());
  }

  lemma SameText(g: seq<nat>, a: seq<nat>, b: seq<nat>, extra: seq<nat>)
    requires |a| >= |g| && |b| >= |g| && |extra| >= |g| && forall s | 0 <= s < |g| :: a[s] == b[s]
    ensures Text(g, a, extra) == Text(g, b, extra)
  {
    assert Parts(g, a, extra) == Parts(g, b, extra);
  }

  lemma DescribesBuilt(ll: seq<nat>, dd: seq<nat>, l: seq<nat>, lMax: nat, d: seq<nat>, dMax: nat, lcode: seq<nat>,
                       dcode: seq<nat>, ldl: seq<nat>, ddl: seq<nat>, lf: seq<nat>, df: seq<nat>,
                       bfc: seq<nat>, bdl: seq<nat>, cl: seq<nat>, n: nat)
    requires 256 <= lMax < 286 && dMax < 30 && lMax + 1 < |ldl| && dMax + 1 < |ddl|
    requires l == ldl[lMax + 1 := 0xffff] && d == ddl[dMax + 1 := 0xffff] && ll == ldl[..lMax + 1] && dd == ddl[..dMax + 1]
    requires Finished(lcode, ldl, ll, lf, 15) && Finished(dcode, ddl, dd, df, 15)
    requires BlTree(bfc, bdl, cl, n, OpsFor(l, lMax + 1), OpsFor(d, dMax + 1))
    requires Small(ldl, lMax + 1) && Small(ddl, dMax + 1)
    ensures ll == l[..lMax + 1] && dd == d[..dMax + 1] && Small(l, lMax + 1) && Small(d, dMax + 1)
    ensures Describes(ll, dd, cl, n, OpsFor(l, lMax + 1), OpsFor(d, dMax + 1))
    ensures Encodes(lcode, l, ll) && Encodes(dcode, d, dd)
  {
    hide OpsFor, OpsCoded, Decodable, Grown, Usable, Encodes, KraftSum, Fits, OpsBitsOf;
    BothTrees(l, lMax + 1, d, dMax + 1);
    FinishedUsable(LENS, lcode, ldl, ll, lf, 15);
    FinishedUsable(DISTS, dcode, ddl, dd, df, 15);
    EncodesGuarded(lcode, ldl, ll, 0xffff);
    EncodesGuarded(dcode, ddl, dd, 0xffff);
  }

  lemma EncodesGuarded(code: seq<nat>, len: seq<nat>, lens: seq<nat>, guard: nat)
    requires Encodes(code, len, lens) && |lens| < |len|
    ensures Encodes(code, len[|lens| := guard], lens)
  {
    hide FixedCode;
  }

  /** Builds the literal/length, distance and code length trees; opt_len and static_len then are the exact sizes. */
  method BuildTrees(b: TreeBuilder, tables: Tables, lfc: array<nat>, ldl: array<nat>, dfc: array<nat>, ddl: array<nat>,
                    bfc: array<nat>, bdl: array<nat>, ghost ts: seq<Token>)
    returns (lMax: nat, dMax: nat, maxBlindex: nat, ghost ll: seq<nat>, ghost dd: seq<nat>, ghost cl: seq<nat>,
             ghost trees: BlockTrees)
    requires b.Valid() && b.Fits(lfc, ldl, 286) && b.Fits(dfc, ddl, 30) && b.Fits(bfc, bdl, 19) && AllGood(ts)
      && |ts| < 32768
    requires lfc != dfc && lfc != ddl && lfc != bfc && lfc != bdl && ldl != dfc && ldl != ddl && ldl != bfc && ldl != bdl
    requires dfc != bfc && dfc != bdl && ddl != bfc && ddl != bdl
    requires lfc[..286] == LitFreq(ts) && dfc[..30] == DistFreq(ts) && bfc[..19] == NoFreq(19)
    modifies b, b.heap, b.depth, b.blCount, lfc, ldl, dfc, ddl, bfc, bdl
    ensures Built(ts, lfc[..], ldl[..], dfc[..], ddl[..], bfc[..], bdl[..], lMax, dMax, maxBlindex, ll, dd, cl, trees)
    ensures AllCoded(FixedLengths(), FixedDistances(), ts)
    ensures b.optLen == old(b.optLen) + |BlockBits(ll, dd, ts)|
      + |HeaderBits(|ll|, |dd|, cl, maxBlindex + 1, OpsFor(ldl[..], lMax + 1), OpsFor(ddl[..], dMax + 1))|
    ensures b.staticLen == old(b.staticLen) + |BlockBits(FixedLengths(), FixedDistances(), ts)|
  {
    hide LitFreq, DistFreq, SumTo, OpsFor, CompleteCode, Assigned, Monotone, Optimum, BitCost, StaticCost, Finished, Encodes,
         Forcing, BlTree, Describes, AllCoded, Text, LitExtras, DistExtras, OpExtras, OpsBitsOf, HeaderBits, BlockBits,
         TreeFor, Overflow, Trim, OpsOf, OpFreq, Planned, AllFit, LastSent, ToForce, LengthsOf, Usable;
    KindsValid();
    FreqTotals(ts);
    ghost var lf, df := lfc[..], dfc[..];
    SumToPrefix(lf, 286);
    SumToPrefix(df, 30);
    assert lf[..286] == LitFreq(ts) && df[..30] == DistFreq(ts);
    var overflow;
    ghost var lfreq, lforced, dfreq, dforced, lit, dist, codes;
    lMax, overflow, lfreq, lforced, lit := BuildTree(b, lfc, ldl, LitKind());
    ghost var lc, l0 := lfc[..], ldl[..];
    ll := l0[..lMax + 1];
    TreeDone(lc, l0, 286, b.blCount[..], lfreq, lf, lforced, lMax + 1);
    LitMax(ts, lf, lfreq, lforced, lMax);
    TreeCost(LitKind(), l0[..286], lf, FixedLengths(), LitFreq(ts));
    assert dfc[..] == df;
    dMax, overflow, dfreq, dforced, dist := BuildTree(b, dfc, ddl, DistKind());
    ghost var dc, d0 := dfc[..], ddl[..];
    dd := d0[..dMax + 1];
    TreeDone(dc, d0, 30, b.blCount[..], dfreq, df, dforced, dMax + 1);
    TreeCost(DistKind(), d0[..30], df, DistKind().slen, DistFreq(ts));
    AllHaveCodes(ts, lc, l0, ll, dc, d0, dd, lf, df);
    assert lfc[..] == lc && ldl[..] == l0;
    maxBlindex, cl, codes := BuildBlTree(b, ldl, lMax, ddl, dMax, bfc, bdl);
    assert lfc[..] == lc && dfc[..] == dc;
    DescribesBuilt(ll, dd, ldl[..], lMax, ddl[..], dMax, lc, dc, l0, d0, lf, df, bfc[..], bdl[..], cl, maxBlindex + 1);
    OpsOfPrefix(ldl[..], lMax + 1);
    OpsOfPrefix(ddl[..], dMax + 1);
    trees := BlockTrees(lit, dist, codes);
    assert l0[..286][..lMax + 1] == ll && d0[..30][..dMax + 1] == dd;
    MakePlan(trees, ts, maxBlindex + 1, ll, dd, cl, OpsFor(ldl[..], lMax + 1), OpsFor(ddl[..], dMax + 1));
    FixedCodesAll(ts);
    BlockSize(ll, dd, ts, l0[..286], d0[..30]);
    BlockSize(FixedLengths(), FixedDistances(), ts, FixedLengths(), DistKind().slen);
    HeaderSize(|ll|, |dd|, cl, maxBlindex + 1, OpsFor(ldl[..], lMax + 1), OpsFor(ddl[..], dMax + 1), bfc[..], bdl[..]);
  }

  lemma {:induction false} StoredSize(cl: seq<nat>, n: nat)
    requires |cl| == 19 && n <= 19
    ensures |StoredLengths(cl, n)| == 3 * n
  {
    if n > 0 {
      StoredSize(cl, n - 1);
    }
  }

  lemma HeaderSize(lcodes: nat, dcodes: nat, cl: seq<nat>, n: nat, lops: seq<Op>, dops: seq<Op>, bfc: seq<nat>, bdl: seq<nat>)
    requires 257 <= lcodes <= 286 && 1 <= dcodes <= 30 && BlTree(bfc, bdl, cl, n, lops, dops)
    ensures |cl| == 19 && 4 <= n <= 19 && OpsCoded(cl, lops) && OpsCoded(cl, dops)
    ensures |HeaderBits(lcodes, dcodes, cl, n, lops, dops)| == 14 + 3 * n + |OpsBitsOf(cl, lops)| + |OpsBitsOf(cl, dops)|
  {
    hide OpsBitsOf, OpsCoded, LsbBits, Usable, Encodes, StoredLengths;
    StoredSize(cl, n);
  }
}
