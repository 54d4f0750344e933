/** The shape of the tree that build_tree leaves in heap[heap_max..] (src/ext/zlib/trees.c): n leaves and n - 1 inner
    nodes, listed in the order in which they leave the heap, two siblings next to each other and the root last. `up[p]`
    is the position of the father of the node at position p. */
module PairTree {
  import opened Bits

  ghost predicate Shape(up: seq<nat>, n: nat) {
    && n >= 1 && |up| == 2 * n - 2
    && (forall p | 0 <= p < |up| :: p < up[p] <= |up|)
    && (forall j | 0 <= j < n - 1 :: up[2 * j] == up[2 * j + 1])
    && (forall j, k | 0 <= j < k < n - 1 :: up[2 * j] != up[2 * k])
  }

  ghost function Depth(up: seq<nat>, p: nat): nat
    requires p <= |up| && forall q | 0 <= q < |up| :: q < up[q] <= |up|
    decreases |up| - p
  {
    if p == |up| then 0 else 1 + Depth(up, up[p])
  }

  function Sum(s: seq<int>): int {
    if s == [] then 0 else Sum(s[..|s| - 1]) + s[|s| - 1]
  }

  lemma {:induction false} SumUpdate(s: seq<int>, i: nat, x: int)
    requires i < |s|
    ensures Sum(s[i := x]) == Sum(s) - s[i] + x
    decreases |s|
  {
    var t := s[i := x];
    if i == |s| - 1 {
      assert t[..|t| - 1] == s[..|s| - 1];
    } else {
      assert t[..|t| - 1] == s[..|s| - 1][i := x];
      SumUpdate(s[..|s| - 1], i, x);
    }
  }

  lemma {:induction false} SumZero(s: seq<int>)
    requires forall i | 0 <= i < |s| :: s[i] == 0
    ensures Sum(s) == 0
  {
    if s != [] {
      SumZero(s[..|s| - 1]);
    }
  }

  lemma {:induction false} SumAppend(s: seq<int>, t: seq<int>)
    ensures Sum(s + t) == Sum(s) + Sum(t)
    decreases |t|
  {
    if t == [] {
      assert s + t == s;
    } else {
      assert (s + t)[..|s + t| - 1] == s + t[..|t| - 1];
      SumAppend(s, t[..|t| - 1]);
    }
  }

  /** The values of w at the leaves, and zero at the inner nodes. */
  ghost function LeafValues(up: seq<nat>, w: seq<int>): (r: seq<int>)
    ensures |r| == |w| && forall p | 0 <= p < |w| :: r[p] == if p in up then 0 else w[p]
  {
    seq(|w|, p requires 0 <= p < |w| => if p in up then 0 else w[p])
  }

  /** The values of w on the frontier once the pairs from k on have been reached from the root. */
  ghost function OpenValues(up: seq<nat>, w: seq<int>, k: nat): (r: seq<int>)
    requires 2 * k <= |up|
    ensures |r| == |w| && forall p | 0 <= p < |w| :: r[p] == if p < 2 * k || p in up[2 * k..] then 0 else w[p]
  {
    seq(|w|, p requires 0 <= p < |w| => if p < 2 * k || p in up[2 * k..] then 0 else w[p])
  }

  /** What w gains from a father to its two sons, over the pairs from k on. */
  ghost function Gain(up: seq<nat>, w: seq<int>, k: nat): int
    requires Shape(up, |up| / 2 + 1) && |w| == |up| + 1 && 2 * k <= |up|
    decreases |up| - 2 * k
  {
    if 2 * k == |up| then 0
    else w[2 * k] + w[2 * k + 1] - w[up[2 * k]] + Gain(up, w, k + 1)
  }

  lemma OpenStep(up: seq<nat>, n: nat, w: seq<int>, k: nat)
    requires Shape(up, n) && |w| == |up| + 1 && k < n - 1
    ensures OpenValues(up, w, k) == OpenValues(up, w, k + 1)[up[2 * k] := 0][2 * k := w[2 * k]][2 * k + 1 := w[2 * k + 1]]
    ensures OpenValues(up, w, k + 1)[up[2 * k]] == w[up[2 * k]]
  {
    var u := up[2 * k];
    assert u == up[2 * k + 1] && u > 2 * k + 1;
    assert u !in up[2 * k + 2..] by {
      forall i | 2 * k + 2 <= i < |up| ensures up[i] != u {
        assert up[2 * (i / 2)] == up[2 * (i / 2) + 1];
      }
    }
    forall p | 0 <= p < |w|
      ensures OpenValues(up, w, k)[p] == OpenValues(up, w, k + 1)[u := 0][2 * k := w[2 * k]][2 * k + 1 := w[2 * k + 1]][p]
    {
      assert p in up[2 * k..] <==> p == u || p in up[2 * k + 2..] by {
        assert up[2 * k..] == [u, u] + up[2 * k + 2..];
      }
      assert p <= 2 * k + 1 ==> p !in up[2 * k + 2..];
    }
  }

  lemma {:induction false} OpenSum(up: seq<nat>, n: nat, w: seq<int>, k: nat)
    requires Shape(up, n) && |w| == |up| + 1 && k <= n - 1
    ensures Sum(OpenValues(up, w, k)) == w[|up|] + Gain(up, w, k)
    decreases n - k
  {
    hide Sum;
    if k == n - 1 {
      var zeros := seq(|up|, p => 0);
      assert OpenValues(up, w, k) == zeros + [w[|up|]];
      SumAppend(zeros, [w[|up|]]);
      SumZero(zeros);
      SumOne(w[|up|]);
    } else {
      OpenSum(up, n, w, k + 1);
      OpenStep(up, n, w, k);
      var v := OpenValues(up, w, k + 1);
      var u := up[2 * k];
      assert u > 2 * k + 1;
      SumUpdate(v, u, 0);
      SumUpdate(v[u := 0], 2 * k, w[2 * k]);
      SumUpdate(v[u := 0][2 * k := w[2 * k]], 2 * k + 1, w[2 * k + 1]);
    }
  }

  lemma SumOne(x: int)
    ensures Sum([x]) == x
  {
    assert [x][..0] == [];
  }

  /** The sum of w over the leaves is its value at the root plus what it gains on the way down. */
  lemma LeafSum(up: seq<nat>, n: nat, w: seq<int>)
    requires Shape(up, n) && |w| == |up| + 1
    ensures Sum(LeafValues(up, w)) == w[|up|] + Gain(up, w, 0)
  {
    OpenSum(up, n, w, 0);
    assert up[0..] == up;
    assert LeafValues(up, w) == OpenValues(up, w, 0);
  }

  // ---------------------------------------------------------------- three sums over the leaves

  /** Depths cut off at `limit`. */
  ghost function CutDepth(up: seq<nat>, p: nat, limit: nat): nat
    requires p <= |up| && forall q | 0 <= q < |up| :: q < up[q] <= |up|
  {
    if Depth(up, p) < limit then Depth(up, p) else limit
  }

  ghost function CutWeights(up: seq<nat>, n: nat, limit: nat): (w: seq<int>)
    requires Shape(up, n)
    ensures |w| == |up| + 1 && forall p | 0 <= p < |w| :: w[p] == Pow2(limit - CutDepth(up, p, limit))
  {
    seq(|up| + 1, p requires 0 <= p <= |up| => Pow2(limit - CutDepth(up, p, limit)))
  }

  /** The number of pairs whose depth exceeds `limit`, from pair k on. */
  ghost function DeepPairs(up: seq<nat>, n: nat, limit: nat, k: nat): nat
    requires Shape(up, n) && k <= n - 1
    decreases n - k
  {
    if k == n - 1 then 0
    else (if Depth(up, 2 * k) > limit then 1 else 0) + DeepPairs(up, n, limit, k + 1)
  }

  lemma {:induction false} CutGain(up: seq<nat>, n: nat, limit: nat, k: nat)
    requires Shape(up, n) && k <= n - 1
    ensures Gain(up, CutWeights(up, n, limit), k) == DeepPairs(up, n, limit, k)
    decreases n - k
  {
    if k < n - 1 {
      CutGain(up, n, limit, k + 1);
      var u := up[2 * k];
      assert u == up[2 * k + 1];
      assert Depth(up, 2 * k) == 1 + Depth(up, u) && Depth(up, 2 * k + 1) == 1 + Depth(up, u);
      var d := Depth(up, u);
      if d < limit {
        assert Pow2(limit - d) == 2 * Pow2(limit - d - 1);
      } else {
        assert Pow2(0) == 1;
      }
    }
  }

  /** The Kraft sum of the leaves, scaled to 2^limit, exceeds 2^limit by the number of pairs that were cut off. */
  lemma CutKraft(up: seq<nat>, n: nat, limit: nat)
    requires Shape(up, n)
    ensures Sum(LeafValues(up, CutWeights(up, n, limit))) == Pow2(limit) + DeepPairs(up, n, limit, 0)
  {
    LeafSum(up, n, CutWeights(up, n, limit));
    CutGain(up, n, limit, 0);
  }

  /** Frequencies add up from the sons to the father. */
  ghost predicate Additive(up: seq<nat>, n: nat, f: seq<nat>) {
    Shape(up, n) && |f| == |up| + 1 && forall j | 0 <= j < n - 1 :: f[up[2 * j]] == f[2 * j] + f[2 * j + 1]
  }

  ghost function Costs(up: seq<nat>, n: nat, f: seq<nat>): (w: seq<int>)
    requires Shape(up, n) && |f| == |up| + 1
    ensures |w| == |up| + 1 && forall p | 0 <= p < |w| :: w[p] == f[p] * Depth(up, p)
  {
    seq(|up| + 1, p requires 0 <= p <= |up| => f[p] * Depth(up, p))
  }

  /** The total frequency of the fathers of the pairs below k. */
  ghost function Merged(f: seq<nat>, k: nat): nat
    requires 2 * k <= |f|
  {
    if k == 0 then 0 else Merged(f, k - 1) + f[2 * k - 2] + f[2 * k - 1]
  }

  lemma AdditivePairs(up: seq<nat>, n: nat, f: seq<nat>)
    requires Additive(up, n, f)
    ensures Shape(up, n) && n >= 1 && |up| == 2 * n - 2 && |f| == |up| + 1 && forall p | 0 <= p < |up| :: p < up[p] <= |up|
  {
  }

  lemma CostPair(up: seq<nat>, n: nat, f: seq<nat>, k: nat)
    requires Additive(up, n, f) && k < n - 1
    ensures var w := Costs(up, n, f);
      up[2 * k] < |w| && w[2 * k] + w[2 * k + 1] - w[up[2 * k]] == f[2 * k] + f[2 * k + 1]
  {
    hide Costs;
    var u := up[2 * k];
    var d := Depth(up, u);
    assert u == up[2 * k + 1];
    assert Depth(up, 2 * k) == 1 + d && Depth(up, 2 * k + 1) == 1 + d;
    OneDeeper(f[2 * k], f[2 * k + 1], d);
  }

  lemma {:induction false} CostGain(up: seq<nat>, n: nat, f: seq<nat>, k: nat)
    requires Additive(up, n, f) && k <= n - 1
    ensures Gain(up, Costs(up, n, f), k) == Merged(f, n - 1) - Merged(f, k)
    decreases n - k
  {
    hide Costs, Depth, Shape, Additive;
    AdditivePairs(up, n, f);
    if k < n - 1 {
      CostGain(up, n, f, k + 1);
      CostPair(up, n, f, k);
    }
  }

  lemma OneDeeper(a: nat, b: nat, d: nat)
    ensures a * (1 + d) + b * (1 + d) - (a + b) * d == a + b
  {
  }

  /** The weighted path length of the leaves is the total frequency of the inner nodes. */
  lemma LeafCost(up: seq<nat>, n: nat, f: seq<nat>)
    requires Additive(up, n, f)
    ensures Sum(LeafValues(up, Costs(up, n, f))) == Merged(f, n - 1)
  {
    LeafSum(up, n, Costs(up, n, f));
    CostGain(up, n, f, 0);
    assert Depth(up, |up|) == 0;
  }

  /** The Kraft sum of the leaves above `limit` alone. */
  ghost function ShortWeights(up: seq<nat>, n: nat, limit: nat): (w: seq<int>)
    requires Shape(up, n)
    ensures |w| == |up| + 1
    ensures forall p | 0 <= p < |w| :: w[p] == if Depth(up, p) < limit then Pow2(limit - Depth(up, p)) else 0
  {
    seq(|up| + 1, p requires 0 <= p <= |up| => if Depth(up, p) < limit then Pow2(limit - Depth(up, p)) else 0)
  }

  lemma PairsAre(up: seq<nat>, n: nat)
    requires Shape(up, n)
    ensures n >= 1 && |up| == 2 * n - 2 && forall p | 0 <= p < |up| :: p < up[p] <= |up|
  {
  }

  /** Two sons weigh no more than their father. */
  lemma ShortPair(up: seq<nat>, n: nat, limit: nat, k: nat)
    requires Shape(up, n) && k < n - 1
    ensures var w := ShortWeights(up, n, limit);
      up[2 * k] < |w| && 2 * k + 1 < |w| && w[2 * k] + w[2 * k + 1] <= w[up[2 * k]]
  {
    hide ShortWeights;
    var u := up[2 * k];
    assert u == up[2 * k + 1];
    assert Depth(up, 2 * k) == 1 + Depth(up, u) && Depth(up, 2 * k + 1) == 1 + Depth(up, u);
    var d := Depth(up, u);
    assert d < limit ==> Pow2(limit - d) == 2 * Pow2(limit - d - 1);
  }

  lemma {:induction false} ShortGain(up: seq<nat>, n: nat, limit: nat, k: nat)
    requires Shape(up, n) && k <= n - 1
    ensures Gain(up, ShortWeights(up, n, limit), k) <= 0
    decreases n - k
  {
    hide ShortWeights, Depth, Pow2, Shape;
    PairsAre(up, n);
    if k < n - 1 {
      ShortGain(up, n, limit, k + 1);
      ShortPair(up, n, limit, k);
    }
  }

  lemma ShortKraft(up: seq<nat>, n: nat, limit: nat)
    requires Shape(up, n) && limit >= 1
    ensures Sum(LeafValues(up, ShortWeights(up, n, limit))) <= Pow2(limit)
  {
    hide Gain, Sum, Pow2, LeafValues;
    LeafSum(up, n, ShortWeights(up, n, limit));
    ShortGain(up, n, limit, 0);
    RootDepth(up);
  }

  lemma RootDepth(up: seq<nat>)
    requires forall q | 0 <= q < |up| :: q < up[q] <= |up|
    ensures Depth(up, |up|) == 0
  {
  }

  ghost function Ones(up: seq<nat>): (w: seq<int>)
    ensures |w| == |up| + 1 && forall p | 0 <= p < |w| :: w[p] == 1
  {
    seq(|up| + 1, p => 1)
  }

  lemma {:induction false} OnesGain(up: seq<nat>, n: nat, k: nat)
    requires Shape(up, n) && k <= n - 1
    ensures Gain(up, Ones(up), k) == n - 1 - k
    decreases n - k
  {
    if k < n - 1 {
      OnesGain(up, n, k + 1);
    }
  }

  lemma LeafCount(up: seq<nat>, n: nat)
    requires Shape(up, n)
    ensures Sum(LeafValues(up, Ones(up))) == n
  {
    LeafSum(up, n, Ones(up));
    OnesGain(up, n, 0);
  }
}
