/** The text of a dynamic block is as short as any codes can make it, unless a tree had to be cut off at the limit
    (_tr_flush_block in src/ext/zlib/trees.c). */
module BlockText {
  import opened Bits
  import opened PairTree
  import opened CodeLengths
  import opened Canonical
  import opened DecodeTables
  import opened InfTrees
  import opened Reading
  import opened Inflation
  import opened Blocks
  import opened Tally
  import opened SendTrees
  import opened Delivery
  import opened TreeBuilding
  import opened BitLengths
  import opened Optimal
  import opened Forest
  import opened GenCodes
  import opened FlushBlock

  // ---------------------------------------------------------------- sums

  lemma {:induction false} SumsDiffer(p: seq<int>, q: seq<int>, r: seq<int>, s: seq<int>)
    requires |p| == |q| == |r| == |s| && forall i | 0 <= i < |p| :: p[i] - q[i] == r[i] - s[i]
    ensures Sum(p) - Sum(q) == Sum(r) - Sum(s)
    decreases |p|
  {
    if p != [] {
      var n := |p| - 1;
      SumsDiffer(p[..n], q[..n], r[..n], s[..n]);
    }
  }

  lemma {:induction false} SumAtMost(p: seq<int>, q: seq<int>)
    requires |p| == |q| && forall i | 0 <= i < |p| :: p[i] <= q[i]
    ensures Sum(p) <= Sum(q)
    decreases |p|
  {
    if p != [] {
      SumAtMost(p[..|p| - 1], q[..|q| - 1]);
    }
  }

  /** Two encodings of the same symbols differ by their code lengths, whatever extra bits there are. */
  lemma TextsDiffer(f: seq<nat>, a: seq<nat>, b: seq<nat>, extra: seq<nat>)
    requires |a| == |b| == |f| == |extra|
    ensures Text(f, a, extra) - Text(f, b, extra) == TextBits(a, f) - TextBits(b, f)
  {
    hide Sum;
    forall i | 0 <= i < |f|
      ensures Parts(f, a, extra)[i] - Parts(f, b, extra)[i] == Products(a, f)[i] - Products(b, f)[i]
    {
      SpendDifference(f[i], a[i], b[i], extra[i]);
      var u: int, v: int := a[i], b[i];
      assert (u - v) * f[i] == f[i] * u - f[i] * v;
    }
    SumsDiffer(Parts(f, a, extra), Parts(f, b, extra), Products(a, f), Products(b, f));
  }

  // ---------------------------------------------------------------- one tree

  /** Code lengths for at least the symbols in use, within the Kraft inequality. */
  ghost predicate Codeable(len: seq<nat>, f: seq<nat>) {
    && |len| == |f| && KraftSum(len) <= Pow2(15)
    && (forall x | 0 <= x < |f| :: len[x] <= 15 && (f[x] != 0 ==> len[x] != 0))
  }

  /** The lengths of the symbols in use alone. */
  ghost function Only(len: seq<nat>, f: seq<nat>): (r: seq<nat>)
    requires |len| == |f|
    ensures |r| == |f| && forall x | 0 <= x < |f| :: r[x] == if f[x] == 0 then 0 else len[x]
  {
    seq(|f|, x requires 0 <= x < |f| => if f[x] == 0 then 0 else len[x])
  }

  lemma OnlyCompetes(len: seq<nat>, f: seq<nat>)
    requires Codeable(len, f)
    ensures Competes(Only(len, f), f, 15) && TextBits(Only(len, f), f) == TextBits(len, f)
  {
    hide Sum, Pow2, Kraft, ItemsUpTo, Within;
    var r, n := Only(len, f), |f|;
    assert Products(r, f) == Products(len, f);
    SumAtMost(Shares(r, 15, 15), Shares(len, 15, 15));
    ItemsKraft(r, f, n, 15);
    assert r[..n] == r;
  }

  /** Two codes are all there is: one bit each, and nothing is shorter. */
  lemma TwoAreShortest(t: HuffmanTree, f: seq<nat>, other: seq<nat>, extra: seq<nat>)
    requires TreeFor(t, f, 15) && t.forced != [] && |extra| == |f| && Codeable(other, f)
    ensures Text(f, t.len, extra) <= Text(f, other, extra)
  {
    hide Sum, Complete, FromTree, CompleteCode, Monotone, Optimum, ToForce, Pow2, KraftSum, Overflow;
    forall x | 0 <= x < |f| ensures Parts(f, t.len, extra)[x] <= Parts(f, other, extra)[x] {
      if f[x] != 0 {
        assert x in Used(t.freq, |f|);
        OneBit(t, f, x);
        OneIsLess(f[x], other[x], extra[x]);
      }
    }
    SumAtMost(Parts(f, t.len, extra), Parts(f, other, extra));
  }

  lemma OneIsLess(f: nat, l: nat, e: nat)
    requires l >= 1
    ensures Spend(f, 1, e) <= Spend(f, l, e)
  {
    assert f * (l - 1) >= 0;
    assert f * (l + e) == f * (1 + e) + f * (l - 1);
  }

  lemma OneBit(t: HuffmanTree, f: seq<nat>, x: nat)
    requires TreeFor(t, f, 15) && t.forced != [] && x < |f| && x in Used(t.freq, |f|)
    ensures t.len[x] == 1
  {
    hide Complete, FromTree, CompleteCode, Monotone, Optimum, ToForce, Overflow;
    var u := Used(t.freq, |f|);
    assert |u - {x}| == 1;
    var y :| y in u - {x};
    assert |u - {x} - {y}| == 0;
    assert u == {x, y};
    TwoCodes(t.len, t.counts, 15, u, x, y);
  }

  /** A tree that was not cut off is as good as any code, extra bits included. */
  lemma TreeIsShortest(t: HuffmanTree, f: seq<nat>, other: seq<nat>, extra: seq<nat>)
    requires TreeFor(t, f, 15) && Overflow(t, 15) == 0 && |extra| == |f| && Codeable(other, f)
    ensures Text(f, t.len, extra) <= Text(f, other, extra)
  {
    hide Sum, Complete, FromTree, CompleteCode, Monotone, Optimum, ToForce, Pow2, KraftSum, Overflow, Text, TextBits, Codeable, Competes;
    if t.forced != [] {
      TwoAreShortest(t, f, other, extra);
    } else {
      assert t.freq == f;
      SameLength(other, f);
      OnlyCompetes(other, f);
      OptimumBeats(t.len, Only(other, f), f, 15);
      TextsDiffer(f, t.len, other, extra);
    }
  }

  lemma SameLength(len: seq<nat>, f: seq<nat>)
    requires Codeable(len, f)
    ensures |len| == |f|
  {
  }

  // ---------------------------------------------------------------- a whole block

  lemma {:induction false} UsedHasCode(ll: seq<nat>, dd: seq<nat>, ts: seq<Token>, x: nat)
    requires AllGood(ts) && AllCoded(ll, dd, ts)
    ensures x < 286 && LitFreq(ts)[x] != 0 ==> HasCode(ll, x)
    ensures x < 30 && DistFreq(ts)[x] != 0 ==> HasCode(dd, x)
    decreases |ts|
  {
    hide LengthCode, DistanceCode;
    if ts != [] {
      UsedHasCode(ll, dd, ts[..|ts| - 1], x);
      assert HasCodes(ll, dd, ts[|ts| - 1]);
    }
  }

  /** Lengths for exactly n symbols. */
  ghost function Padded(len: seq<nat>, n: nat): (r: seq<nat>)
    ensures |r| == n && forall x | 0 <= x < n :: r[x] == if x < |len| then len[x] else 0
  {
    seq(n, x requires 0 <= x < n => if x < |len| then len[x] else 0)
  }

  lemma {:induction false} SumOfPrefix(p: seq<int>, q: seq<int>)
    requires forall i | 0 <= i < |p| :: p[i] == if i < |q| then q[i] else 0
    requires forall i | 0 <= i < |q| :: q[i] >= 0
    ensures Sum(p) <= Sum(q)
    decreases |p| + |q|
  {
    if |p| > |q| {
      SumOfPrefix(p[..|p| - 1], q);
    } else if |p| < |q| {
      SumOfPrefix(p, q[..|q| - 1]);
    } else {
      assert p == q;
    }
  }

  lemma PaddedCodeable(kind: CodeType, len: seq<nat>, f: seq<nat>)
    requires Usable(kind, len) && forall x | 0 <= x < |f| && f[x] != 0 :: HasCode(len, x)
    ensures Codeable(Padded(len, |f|), f)
  {
    hide Pow2, Sum;
    var r := Padded(len, |f|);
    SumOfPrefix(Shares(r, 15, 15), Shares(len, 15, 15));
    if forall s | 0 <= s < |len| :: len[s] == 0 {
      SumZero(Shares(len, 15, 15));
    }
  }

  lemma {:induction false} TrimPrefix(len: seq<nat>)
    ensures Trim(len) <= len
  {
    if len != [] && len[|len| - 1] == 0 {
      TrimPrefix(len[..|len| - 1]);
    }
  }

  /** With both trees uncut no usable pair of codes makes the text of the block shorter than the one that is built. */
  lemma BuiltTextIsShortest(trees: BlockTrees, ts: seq<Token>, n: nat, ll: seq<nat>, dd: seq<nat>)
    requires TreesFor(trees, ts, n) && AllCoded(Trim(trees.lit.len), Trim(trees.dist.len), ts)
    requires Overflow(trees.lit, 15) == 0 && Overflow(trees.dist, 15) == 0
    requires Usable(LENS, ll) && Usable(DISTS, dd) && AllCoded(ll, dd, ts)
    ensures |BlockBits(Trim(trees.lit.len), Trim(trees.dist.len), ts)| <= |BlockBits(ll, dd, ts)|
  {
    hide TreeFor, Overflow, Text, Usable, OpFreq, AllFit, AllCoded, BlockBits, LitFreq, DistFreq, LitExtras, DistExtras, Trim, LastSent,
         Codeable, HasCode;
    var l, d := Padded(ll, 286), Padded(dd, 30);
    TreeSize(trees.lit, LitFreq(ts));
    TreeSize(trees.dist, DistFreq(ts));
    TrimPrefix(trees.lit.len);
    TrimPrefix(trees.dist.len);
    Tally.BlockSize(Trim(trees.lit.len), Trim(trees.dist.len), ts, trees.lit.len, trees.dist.len);
    Tally.BlockSize(ll, dd, ts, l, d);
    forall x | 0 <= x < 286 && LitFreq(ts)[x] != 0 ensures HasCode(ll, x) {
      UsedHasCode(ll, dd, ts, x);
    }
    forall x | 0 <= x < 30 && DistFreq(ts)[x] != 0 ensures HasCode(dd, x) {
      UsedHasCode(ll, dd, ts, x);
    }
    PaddedCodeable(LENS, ll, LitFreq(ts));
    PaddedCodeable(DISTS, dd, DistFreq(ts));
    TreeIsShortest(trees.lit, LitFreq(ts), l, LitExtras());
    TreeIsShortest(trees.dist, DistFreq(ts), d, DistExtras());
  }

  lemma TreeSize(t: HuffmanTree, f: seq<nat>)
    requires TreeFor(t, f, 15)
    ensures |t.len| == |f|
  {
  }
}
