/** gen_bitlen (src/ext/zlib/trees.c): code lengths from the finished tree, cut off at the limit, repaired and handed out
    again when some were too long. */
module BitLengths {
  import opened Bits
  import opened PairTree
  import opened LengthLimit
  import opened CodeLengths
  import opened Optimal
  import opened Forest
  import opened TreeBuilding

  // ---------------------------------------------------------------- lengths read off the tree

  /** The lengths of the leaves at positions p and up, by position; 0 elsewhere. */
  ghost function PosLens(up: seq<nat>, n: nat, limit: nat, p: nat): (r: seq<nat>)
    requires Shape(up, n)
    ensures |r| == |up| + 1
    ensures forall q | 0 <= q < |r| :: r[q] == if q < p || q in up then 0 else CutDepth(up, q, limit)
  {
    seq(|up| + 1, q requires 0 <= q <= |up| => if q < p || q in up then 0 else CutDepth(up, q, limit))
  }

  lemma LeafDepth(up: seq<nat>, n: nat, limit: nat, p: nat)
    requires Shape(up, n) && n >= 2 && limit >= 1 && p <= |up| && p !in up
    ensures p < |up| && Depth(up, p) >= 1 && 1 <= CutDepth(up, p, limit) <= limit
  {
    if p == |up| {
      RootHasSons(up, n);
    }
  }

  lemma RootHasSons(up: seq<nat>, n: nat)
    requires Shape(up, n) && n >= 2
    ensures |up| in up
  {
    assert up[|up| - 1] == |up|;
  }

  lemma SharesOfTree(up: seq<nat>, n: nat, limit: nat)
    requires Shape(up, n) && n >= 2 && limit >= 1
    ensures Shares(PosLens(up, n, limit, 0), limit, limit) == LeafValues(up, CutWeights(up, n, limit))
    ensures Coded(PosLens(up, n, limit, 0), limit) == LeafValues(up, Ones(up))
  {
    hide Shape, CutDepth, Pow2;
    forall p | 0 <= p <= |up| && p !in up ensures 1 <= PosLens(up, n, limit, 0)[p] <= limit {
      LeafDepth(up, n, limit, p);
    }
  }

  lemma ShortSharesOfTree(up: seq<nat>, n: nat, limit: nat)
    requires Shape(up, n) && n >= 2 && limit >= 1
    ensures Shares(PosLens(up, n, limit, 0), limit, limit - 1) == LeafValues(up, ShortWeights(up, n, limit))
  {
    hide Pow2, Depth;
    forall p | 0 <= p <= |up| && p !in up ensures Depth(up, p) >= 1 {
      LeafDepth(up, n, limit, p);
    }
  }

  /** After the first pass the counts are those of a tree that owes one leaf for every two nodes beyond the limit. */
  lemma FirstPassOwes(bl: seq<nat>, up: seq<nat>, n: nat, limit: nat)
    requires Shape(up, n) && n >= 2 && limit >= 1 && Counted(bl, PosLens(up, n, limit, 0), limit) && n <= Pow2(limit)
    ensures Owing(bl, limit, DeepPairs(up, n, limit, 0)) && CodesUpTo(bl, limit) == n
  {
    hide Sum, Gain, KraftUpTo, CodesUpTo, Pow2, LeafValues, Shares, Coded, PosLens, Shape, Counted;
    CountedLimit(bl, PosLens(up, n, limit, 0), limit);
    var s := PosLens(up, n, limit, 0);
    KraftFromCounts(bl, s, limit, limit);
    KraftFromCounts(bl, s, limit, limit - 1);
    CodesFromCounts(bl, s, limit, limit);
    CutKraft(up, n, limit);
    ShortKraft(up, n, limit);
    LeafCount(up, n);
    SharesOfTree(up, n, limit);
    ShortSharesOfTree(up, n, limit);
  }

  lemma CountedLimit(bl: seq<nat>, s: seq<nat>, limit: nat)
    requires Counted(bl, s, limit)
    ensures limit < |bl|
  {
  }

  // ---------------------------------------------------------------- lengths by symbol

  /** The lengths of the symbols at positions p and up, by symbol; 0 for all others. */
  ghost function SymLens(order: seq<nat>, up: seq<nat>, n: nat, elems: nat, limit: nat, p: nat): (r: seq<nat>)
    requires Shape(up, n) && |order| == |up| + 1 && p <= |order|
    ensures |r| == elems
    decreases |order| - p
  {
    if p == |order| then seq(elems, x => 0)
    else
      var r := SymLens(order, up, n, elems, limit, p + 1);
      if order[p] < elems then r[order[p] := CutDepth(up, p, limit)] else r
  }

  /** What the first pass of gen_bitlen needs to know about the tree. */
  ghost predicate Tree(order: seq<nat>, up: seq<nat>, n: nat, elems: nat) {
    && Shape(up, n) && n >= 2 && |order| == |up| + 1
    && (forall i, k | 0 <= i < k < |order| :: order[i] != order[k])
    && (forall p {:trigger p in up} | 0 <= p < |order| :: p in up <==> order[p] >= elems)
    && (forall p | 0 <= p < |up| :: order[up[p]] == elems + p / 2)
  }

  lemma {:induction false} SymLensAt(order: seq<nat>, up: seq<nat>, n: nat, elems: nat, limit: nat, p: nat)
    requires Tree(order, up, n, elems) && p <= |order|
    ensures forall q | p <= q < |order| && order[q] < elems :: SymLens(order, up, n, elems, limit, p)[order[q]] == CutDepth(up, q, limit)
    ensures forall x | 0 <= x < elems && x !in order[p..] :: SymLens(order, up, n, elems, limit, p)[x] == 0
    decreases |order| - p
  {
    if p < |order| {
      SymLensAt(order, up, n, elems, limit, p + 1);
      assert order[p..] == [order[p]] + order[p + 1..];
    }
  }

  lemma SymLensStep(order: seq<nat>, up: seq<nat>, n: nat, elems: nat, limit: nat, p: nat)
    requires Tree(order, up, n, elems) && p < |order|
    ensures order[p] >= elems ==> SymLens(order, up, n, elems, limit, p) == SymLens(order, up, n, elems, limit, p + 1)
    ensures order[p] < elems ==>
      && SymLens(order, up, n, elems, limit, p) == SymLens(order, up, n, elems, limit, p + 1)[order[p] := CutDepth(up, p, limit)]
      && SymLens(order, up, n, elems, limit, p + 1)[order[p]] == 0
  {
    SymLensAt(order, up, n, elems, limit, p + 1);
  }

  lemma PosLensStep(up: seq<nat>, n: nat, limit: nat, p: nat)
    requires Shape(up, n) && p <= |up|
    ensures p in up ==> PosLens(up, n, limit, p) == PosLens(up, n, limit, p + 1)
    ensures p !in up ==> PosLens(up, n, limit, p) == PosLens(up, n, limit, p + 1)[p := CutDepth(up, p, limit)]
    ensures PosLens(up, n, limit, p + 1)[p] == 0
  {
  }

  lemma NoLens(order: seq<nat>, up: seq<nat>, n: nat, elems: nat, limit: nat)
    requires Shape(up, n) && |order| == |up| + 1
    ensures forall x | 0 <= x < elems :: SymLens(order, up, n, elems, limit, |order|)[x] == 0
    ensures forall q | 0 <= q <= |up| :: PosLens(up, n, limit, |order|)[q] == 0
  {
  }

  /** By symbol and by position there are as many codes of each length. */
  lemma {:induction false} SymIsPos(order: seq<nat>, up: seq<nat>, n: nat, elems: nat, limit: nat, p: nat, b: nat)
    requires Tree(order, up, n, elems) && p <= |order| && b >= 1
    ensures Count(SymLens(order, up, n, elems, limit, p), b) == Count(PosLens(up, n, limit, p), b)
    decreases |order| - p
  {
    hide Count, SymLens, PosLens, CutDepth, Depth;
    if p == |order| {
      NoLens(order, up, n, elems, limit);
      CountNone(SymLens(order, up, n, elems, limit, p), b);
      CountNone(PosLens(up, n, limit, p), b);
    } else {
      SymIsPos(order, up, n, elems, limit, p + 1, b);
      SymLensStep(order, up, n, elems, limit, p);
      PosLensStep(up, n, limit, p);
      if order[p] < elems {
        CountUpdate(SymLens(order, up, n, elems, limit, p + 1), order[p], CutDepth(up, p, limit), b);
        CountUpdate(PosLens(up, n, limit, p + 1), p, CutDepth(up, p, limit), b);
      }
    }
  }

  /** The sum over s of s[i] * f[i]. */
  ghost function Products(s: seq<nat>, f: seq<nat>): (r: seq<int>)
    requires |f| >= |s|
    ensures |r| == |s| && forall i | 0 <= i < |s| :: r[i] == f[i] * s[i]
  {
    seq(|s|, i requires 0 <= i < |s| => f[i] * s[i])
  }

  lemma ProductsUpdate(s: seq<nat>, f: seq<nat>, i: nat, x: nat)
    requires |f| >= |s| && i < |s| && s[i] == 0
    ensures Sum(Products(s[i := x], f)) == Sum(Products(s, f)) + f[i] * x
  {
    assert Products(s[i := x], f) == Products(s, f)[i := f[i] * x];
    assert f[i] * s[i] == 0;
    SumUpdate(Products(s, f), i, f[i] * x);
  }

  /** By symbol and by position the weighted lengths agree. */
  lemma {:induction false} SymCostIsPosCost(order: seq<nat>, up: seq<nat>, n: nat, elems: nat, limit: nat, p: nat, fc: seq<nat>)
    requires Tree(order, up, n, elems) && p <= |order| && elems <= |fc| && forall i | 0 <= i < |order| :: order[i] < |fc|
    ensures Sum(Products(SymLens(order, up, n, elems, limit, p), fc))
         == Sum(Products(PosLens(up, n, limit, p), OrderFreqs(order, fc)))
    decreases |order| - p
  {
    hide Sum, SymLens, PosLens, CutDepth, Depth;
    var f := OrderFreqs(order, fc);
    if p == |order| {
      NoLens(order, up, n, elems, limit);
      SumZero(Products(SymLens(order, up, n, elems, limit, p), fc));
      SumZero(Products(PosLens(up, n, limit, p), f));
    } else {
      SymCostIsPosCost(order, up, n, elems, limit, p + 1, fc);
      SymLensStep(order, up, n, elems, limit, p);
      PosLensStep(up, n, limit, p);
      if order[p] < elems {
        ProductsUpdate(SymLens(order, up, n, elems, limit, p + 1), fc, order[p], CutDepth(up, p, limit));
        ProductsUpdate(PosLens(up, n, limit, p + 1), f, p, CutDepth(up, p, limit));
      }
    }
  }

  // ---------------------------------------------------------------- the first pass

  /** static_tree_desc: static code lengths (empty for the bit length tree), extra bits from symbol `base` on, the number
      of symbols and the longest code allowed. */
  datatype TreeKind = TreeKind(slen: seq<nat>, extra: seq<nat>, base: nat, elems: nat, limit: nat) {
    ghost predicate Valid() {
      && 3 <= elems && (slen == [] || |slen| >= elems) && (base < elems ==> |extra| >= elems - base)
      && 1 <= limit <= 15 && elems <= Pow2(limit)
      && forall i | 0 <= i < |extra| && base + i < 3 :: extra[i] == 0
    }

    function XBits(x: nat): nat
      requires base < elems ==> |extra| >= elems - base
      requires x < elems
    {
      if x >= base then extra[x - base] else 0
    }

    ghost function Extras(): (r: seq<nat>)
      requires base < elems ==> |extra| >= elems - base
      ensures |r| == elems && forall x | 0 <= x < elems :: r[x] == XBits(x)
    {
      seq(elems, x requires 0 <= x < elems => XBits(x))
    }

    /** Static lengths by symbol, 0 when there are none. */
    ghost function Statics(): (r: seq<nat>)
      requires slen == [] || |slen| >= elems
      ensures |r| == elems && forall x | 0 <= x < elems :: r[x] == LengthOf(slen, x)
    {
      seq(elems, x requires 0 <= x < elems => LengthOf(slen, x))
    }
  }

  /** What the static trees would spend on the symbols coded in len; nothing is accounted without a static tree. */
  ghost function StaticCost(k: TreeKind, len: seq<nat>, freq: seq<nat>): int
    requires k.Valid() && |len| == k.elems <= |freq|
  {
    if k.slen == [] then 0 else BitCost(len, freq, k.Statics(), k.Extras())
  }

  ghost function DeepFrom(up: seq<nat>, n: nat, limit: nat, p: nat): nat
    requires Shape(up, n) && p <= |up|
    decreases |up| - p
  {
    if p == |up| then 0 else (if Depth(up, p) > limit then 1 else 0) + DeepFrom(up, n, limit, p + 1)
  }

  lemma {:induction false} DeepFromPairs(up: seq<nat>, n: nat, limit: nat, k: nat)
    requires Shape(up, n) && k <= n - 1
    ensures DeepFrom(up, n, limit, 2 * k) == 2 * DeepPairs(up, n, limit, k)
    decreases n - k
  {
    if k < n - 1 {
      DeepFromPairs(up, n, limit, k + 1);
      assert Depth(up, 2 * k) == 1 + Depth(up, up[2 * k]) && Depth(up, 2 * k + 1) == 1 + Depth(up, up[2 * k + 1]);
      assert DeepFrom(up, n, limit, 2 * k + 1) == (if Depth(up, 2 * k + 1) > limit then 1 else 0) + DeepFrom(up, n, limit, 2 * k + 2);
    }
  }

  /** Where the first pass stands when the positions from p on are done. */
  ghost predicate Passed(k: TreeKind, order: seq<nat>, up: seq<nat>, n: nat, p: nat, dl: seq<nat>, bl: seq<nat>) {
    && Tree(order, up, n, k.elems) && p <= |up| && |bl| == 16
    && (forall q | 0 <= q < |order| :: order[q] < |dl|)
    && (forall q | p <= q < |order| :: dl[order[q]] == CutDepth(up, q, k.limit))
    && (forall q | 0 <= q < p :: dl[order[q]] == k.elems + q / 2)
    && bl[0] == 0 && forall b | 1 <= b < 16 :: bl[b] == Count(SymLens(order, up, n, k.elems, k.limit, p), b)
  }

  lemma PassedFather(k: TreeKind, order: seq<nat>, up: seq<nat>, n: nat, p: nat, dl: seq<nat>, bl: seq<nat>)
    requires Passed(k, order, up, n, p + 1, dl, bl)
    ensures order[p] < |dl| && dl[order[p]] < |dl| && dl[dl[order[p]]] == CutDepth(up, up[p], k.limit)
    ensures CutDepth(up, p, k.limit) == if CutDepth(up, up[p], k.limit) + 1 > k.limit then k.limit else CutDepth(up, up[p], k.limit) + 1
    ensures Depth(up, p) > k.limit <==> CutDepth(up, up[p], k.limit) + 1 > k.limit
  {
    hide SymLens, Count;
    assert order[up[p]] == k.elems + p / 2;
    FatherDepth(up, p);
  }

  lemma FatherDepth(up: seq<nat>, p: nat)
    requires p < |up| && forall q | 0 <= q < |up| :: q < up[q] <= |up|
    ensures Depth(up, p) == 1 + Depth(up, up[p])
  {
  }

  lemma PassedStep(k: TreeKind, order: seq<nat>, up: seq<nat>, n: nat, p: nat, dl: seq<nat>, bl: seq<nat>)
    requires Passed(k, order, up, n, p + 1, dl, bl) && 1 <= k.limit <= 15
    ensures order[p] < |dl|
    ensures var bits := CutDepth(up, p, k.limit);
      && (order[p] >= k.elems ==> Passed(k, order, up, n, p, dl[order[p] := bits], bl))
      && (order[p] < k.elems ==> 1 <= bits <= 15 && Passed(k, order, up, n, p, dl[order[p] := bits], bl[bits := bl[bits] + 1]))
  {
    hide SymLens, CutDepth, Count;
    SymLensStep(order, up, n, k.elems, k.limit, p);
    var bits := CutDepth(up, p, k.limit);
    if order[p] < k.elems {
      LeafDepth(up, n, k.limit, p);
      forall b | 1 <= b < 16
        ensures bl[bits := bl[bits] + 1][b] == Count(SymLens(order, up, n, k.elems, k.limit, p), b)
      {
        CountUpdate(SymLens(order, up, n, k.elems, k.limit, p + 1), order[p], bits, b);
      }
    }
  }

  /** The sizes and the separation that the two passes rely on. */
  ghost predicate Ready(b: TreeBuilder, fc: array<nat>, dl: array<nat>, k: TreeKind)
    reads b
  {
    b.Valid() && b.Fits(fc, dl, k.elems) && k.Valid() && b.heapMax < b.heap.Length
  }

  /** The accounts of opt_len and static_len for a symbol that gets a code of `bits` bits. */
  method Account(b: TreeBuilder, k: TreeKind, x: nat, f: nat, bits: nat)
    requires k.Valid() && x < k.elems
    modifies b`optLen, b`staticLen
    ensures b.optLen == old(b.optLen) + Spend(f, bits, k.XBits(x))
    ensures b.staticLen == old(b.staticLen) + if k.slen == [] then 0 else Spend(f, k.slen[x], k.XBits(x))
  {
    var xbits := 0;
    if x >= k.base {
      xbits := k.extra[x - k.base];
    }
    b.optLen := b.optLen + Spend(f, bits, xbits);
    if k.slen != [] {
      b.staticLen := b.staticLen + Spend(f, k.slen[x], xbits);
    }
  }

  lemma AccountStep(k: TreeKind, len: seq<nat>, freq: seq<nat>, x: nat, bits: nat)
    requires k.Valid() && |len| == k.elems <= |freq| && x < k.elems && len[x] == 0 && bits > 0
    ensures BitCost(len[x := bits], freq, len[x := bits], k.Extras())
         == BitCost(len, freq, len, k.Extras()) + Spend(freq[x], bits, k.XBits(x))
    ensures StaticCost(k, len[x := bits], freq)
         == StaticCost(k, len, freq) + if k.slen == [] then 0 else Spend(freq[x], k.slen[x], k.XBits(x))
  {
    BitCostUpdate(len, freq, len, k.Extras(), x, bits, len[x := bits]);
    if k.slen != [] {
      BitCostUpdate(len, freq, k.Statics(), k.Extras(), x, bits, k.Statics());
    }
  }

  /** The accounts when the positions from p on are done. */
  ghost function OptAt(k: TreeKind, order: seq<nat>, up: seq<nat>, n: nat, p: nat, freq: seq<nat>): int
    requires k.Valid() && k.elems <= |freq| && Shape(up, n) && |order| == |up| + 1 && p <= |order|
  {
    var len := SymLens(order, up, n, k.elems, k.limit, p);
    BitCost(len, freq, len, k.Extras())
  }

  ghost function StaticAt(k: TreeKind, order: seq<nat>, up: seq<nat>, n: nat, p: nat, freq: seq<nat>): int
    requires k.Valid() && k.elems <= |freq| && Shape(up, n) && |order| == |up| + 1 && p <= |order|
  {
    StaticCost(k, SymLens(order, up, n, k.elems, k.limit, p), freq)
  }

  lemma AccountAt(k: TreeKind, order: seq<nat>, up: seq<nat>, n: nat, p: nat, freq: seq<nat>)
    requires k.Valid() && k.elems <= |freq| && Tree(order, up, n, k.elems) && p < |up|
    ensures order[p] >= k.elems ==>
      && OptAt(k, order, up, n, p, freq) == OptAt(k, order, up, n, p + 1, freq)
      && StaticAt(k, order, up, n, p, freq) == StaticAt(k, order, up, n, p + 1, freq)
    ensures order[p] < k.elems ==>
      && OptAt(k, order, up, n, p, freq)
         == OptAt(k, order, up, n, p + 1, freq) + Spend(freq[order[p]], CutDepth(up, p, k.limit), k.XBits(order[p]))
      && StaticAt(k, order, up, n, p, freq) == StaticAt(k, order, up, n, p + 1, freq)
         + if k.slen == [] then 0 else Spend(freq[order[p]], k.slen[order[p]], k.XBits(order[p]))
  {
    hide SymLens, CutDepth, Depth, BitCost, StaticCost;
    SymLensStep(order, up, n, k.elems, k.limit, p);
    if order[p] < k.elems {
      LeafDepth(up, n, k.limit, p);
      AccountStep(k, SymLens(order, up, n, k.elems, k.limit, p + 1), freq, order[p], CutDepth(up, p, k.limit));
    }
  }

  /** One node of the first pass. */
  method PassNode(b: TreeBuilder, fc: array<nat>, dl: array<nat>, k: TreeKind, maxCode: nat, x: nat, overflow0: nat,
                  ghost order: seq<nat>, ghost up: seq<nat>, ghost n: nat, ghost p: nat) returns (overflow: nat)
    requires Ready(b, fc, dl, k) && Tree(order, up, n, k.elems) && p < |up| && x == order[p] && x < fc.Length
    requires maxCode < k.elems && (x < k.elems ==> x <= maxCode)
    requires Passed(k, order, up, n, p + 1, dl[..], b.blCount[..])
    modifies b`optLen, b`staticLen, b.blCount, dl
    ensures Passed(k, order, up, n, p, dl[..], b.blCount[..])
    ensures overflow == overflow0 + if Depth(up, p) > k.limit then 1 else 0
    ensures b.optLen == old(b.optLen) + OptAt(k, order, up, n, p, fc[..]) - OptAt(k, order, up, n, p + 1, fc[..])
    ensures b.staticLen == old(b.staticLen) + StaticAt(k, order, up, n, p, fc[..]) - StaticAt(k, order, up, n, p + 1, fc[..])
    ensures forall i | 0 <= i < dl.Length && i != x :: dl[i] == old(dl[i])
  {
    hide SymLens, CutDepth, Depth, Passed, Tree, Shape, OptAt, StaticAt, Spend, Pow2;
    TreeSize(order, up, n, k.elems);
    ghost var d, bl := dl[..], b.blCount[..];
    PassedFather(k, order, up, n, p, d, bl);
    PassedStep(k, order, up, n, p, d, bl);
    AccountAt(k, order, up, n, p, fc[..]);
    overflow := overflow0;
    var bits: nat := dl[dl[x]] + 1;
    if bits > k.limit {
      bits, overflow := k.limit, overflow + 1;
    }
    dl[x] := bits;
    assert dl[..] == d[x := bits];
    if x <= maxCode {
      b.blCount[bits] := b.blCount[bits] + 1;
      assert b.blCount[..] == bl[bits := bl[bits] + 1];
      Account(b, k, x, fc[x], bits);
    }
  }

  /** The first loop of gen_bitlen. */
  method FirstPass(b: TreeBuilder, fc: array<nat>, dl: array<nat>, k: TreeKind, maxCode: nat,
                   ghost order: seq<nat>, ghost up: seq<nat>, ghost n: nat) returns (overflow: nat)
    requires Ready(b, fc, dl, k) && order == Order(b.heap[..], b.heapMax) && Tree(order, up, n, k.elems)
    requires maxCode < k.elems && forall p | 0 <= p < |order| && order[p] < k.elems :: order[p] <= maxCode
    requires forall p | 0 <= p < |order| :: order[p] < fc.Length
    requires forall q | 0 <= q < |up| :: dl[order[q]] == k.elems + q / 2
    modifies b`optLen, b`staticLen, b.blCount, dl
    ensures Passed(k, order, up, n, 0, dl[..], b.blCount[..]) && overflow == DeepFrom(up, n, k.limit, 0)
    ensures b.optLen == old(b.optLen) + OptAt(k, order, up, n, 0, fc[..])
    ensures b.staticLen == old(b.staticLen) + StaticAt(k, order, up, n, 0, fc[..])
    ensures forall x | 0 <= x < dl.Length && x !in order :: dl[x] == old(dl[x])
  {
    hide Passed, Tree, Shape, OptAt, StaticAt, Depth, Pow2;
    TreeSize(order, up, n, k.elems);
    overflow := 0;
    ClearCounts(b);
    assert order[|up|] == b.heap[b.heapMax];
    dl[b.heap[b.heapMax]] := 0;
    PassedNone(k, order, up, n, dl[..], b.blCount[..], fc[..]);
    var h := b.heapMax + 1;
    while h < b.heap.Length
      invariant b.heapMax < h <= b.heap.Length
      invariant Passed(k, order, up, n, b.heap.Length - h, dl[..], b.blCount[..])
      invariant overflow == DeepFrom(up, n, k.limit, b.heap.Length - h)
      invariant b.optLen == old(b.optLen) + OptAt(k, order, up, n, b.heap.Length - h, fc[..])
      invariant b.staticLen == old(b.staticLen) + StaticAt(k, order, up, n, b.heap.Length - h, fc[..])
      invariant forall x | 0 <= x < dl.Length && x !in order :: dl[x] == old(dl[x])
    {
      ghost var p := b.heap.Length - 1 - h;
      assert b.heap[h] == order[p];
      overflow := PassNode(b, fc, dl, k, maxCode, b.heap[h], overflow, order, up, n, p);
      h := h + 1;
    }
  }

  method ClearCounts(b: TreeBuilder)
    requires b.Valid()
    modifies b.blCount
    ensures forall i | 0 <= i < 16 :: b.blCount[i] == 0
  {
    for bits := 0 to 16
      invariant forall i | 0 <= i < bits :: b.blCount[i] == 0
    {
      b.blCount[bits] := 0;
    }
  }

  lemma TreeSize(order: seq<nat>, up: seq<nat>, n: nat, elems: nat)
    requires Tree(order, up, n, elems)
    ensures Shape(up, n) && |order| == |up| + 1 && forall q | 0 <= q < |up| :: q < up[q] <= |up|
    ensures forall p | 0 <= p < |up| :: order[p] != order[|up|]
  {
  }

  lemma PassedNone(k: TreeKind, order: seq<nat>, up: seq<nat>, n: nat, dl: seq<nat>, bl: seq<nat>, fc: seq<nat>)
    requires k.Valid() && Tree(order, up, n, k.elems) && |bl| == 16 && (forall i | 0 <= i < 16 :: bl[i] == 0)
    requires k.elems <= |fc| && forall q | 0 <= q < |order| :: order[q] < |dl|
    requires dl[order[|up|]] == 0 && forall q | 0 <= q < |up| :: dl[order[q]] == k.elems + q / 2
    ensures Passed(k, order, up, n, |up|, dl, bl) && DeepFrom(up, n, k.limit, |up|) == 0
    ensures OptAt(k, order, up, n, |up|, fc) == 0 && StaticAt(k, order, up, n, |up|, fc) == 0
  {
    hide SymLens, Count, BitCost, CutDepth;
    var len := SymLens(order, up, n, k.elems, k.limit, |up|);
    RootLens(order, up, n, k.elems, k.limit);
    BitCostNone(len, fc, len, k.Extras());
    BitCostNone(len, fc, k.Statics(), k.Extras());
    forall b | 1 <= b < 16 ensures Count(len, b) == 0 {
      CountNone(len, b);
    }
  }

  lemma RootLens(order: seq<nat>, up: seq<nat>, n: nat, elems: nat, limit: nat)
    requires Tree(order, up, n, elems)
    ensures forall x | 0 <= x < elems :: SymLens(order, up, n, elems, limit, |up|)[x] == 0
    ensures CutDepth(up, |up|, limit) == 0
  {
    RootHasSons(up, n);
    SymLensStep(order, up, n, elems, limit, |up|);
    NoLens(order, up, n, elems, limit);
    RootDepth(up);
  }

  // ---------------------------------------------------------------- handing the lengths out again

  ghost function LeavesFrom(order: seq<nat>, elems: nat, p: nat): nat
    requires p <= |order|
    decreases |order| - p
  {
    if p == |order| then 0 else (if order[p] < elems then 1 else 0) + LeavesFrom(order, elems, p + 1)
  }

  lemma {:induction false} LeavesAreCoded(order: seq<nat>, up: seq<nat>, n: nat, elems: nat, limit: nat, p: nat)
    requires Tree(order, up, n, elems) && p <= |order| && limit >= 1
    ensures LeavesFrom(order, elems, p) == Sum(Coded(PosLens(up, n, limit, p), limit))
    decreases |order| - p
  {
    hide Sum, PosLens, CutDepth, Depth;
    if p == |order| {
      NoLens(order, up, n, elems, limit);
      SumZero(Coded(PosLens(up, n, limit, p), limit));
    } else {
      LeavesAreCoded(order, up, n, elems, limit, p + 1);
      PosLensStep(up, n, limit, p);
      var s, t := PosLens(up, n, limit, p), PosLens(up, n, limit, p + 1);
      if order[p] < elems {
        LeafDepth(up, n, limit, p);
        assert Coded(s, limit) == Coded(t, limit)[p := 1];
        SumUpdate(Coded(t, limit), p, 1);
      } else {
        assert p in up;
      }
    }
  }

  /** The second pass has scanned p positions and still has `left` codes of `bits` bits to give; `neu` are the lengths
      given so far and len0 those of the first pass. */
  ghost predicate Handing(order: seq<nat>, elems: nat, limit: nat, len0: seq<nat>, bl: seq<nat>, bits: nat, left: nat,
                          p: nat, dl: seq<nat>, neu: seq<nat>) {
    && bits <= limit < |bl| && p <= |order| && |neu| == elems == |len0|
    && (forall i, k | 0 <= i < k < |order| :: order[i] != order[k])
    && (forall q | 0 <= q < |order| && order[q] < elems :: order[q] < |dl|)
    && (forall q | 0 <= q < p && order[q] < elems :: dl[order[q]] == neu[order[q]] && bits <= neu[order[q]] <= limit && neu[order[q]] >= 1)
    && (forall q | p <= q < |order| && order[q] < elems :: dl[order[q]] == len0[order[q]] && neu[order[q]] == 0)
    && (forall x | 0 <= x < elems && x !in order :: neu[x] == 0)
    && (forall q, r | 0 <= q < r < p && order[q] < elems && order[r] < elems :: neu[order[q]] >= neu[order[r]])
    && (forall b | 1 <= b <= limit :: Count(neu, b) == if b > bits then bl[b] else if b == bits then bl[b] - left else 0)
    && LeavesFrom(order, elems, p) == left + if bits == 0 then 0 else CodesUpTo(bl, bits - 1)
  }

  ghost predicate Distinct(s: seq<nat>) {
    forall i, k | 0 <= i < k < |s| :: s[i] != s[k]
  }

  lemma HandingStart(order: seq<nat>, elems: nat, limit: nat, len0: seq<nat>, bl: seq<nat>, dl: seq<nat>)
    requires 1 <= limit < |bl| && |len0| == elems && elems <= |dl|
    requires Distinct(order) && forall q | 0 <= q < |order| && order[q] < elems :: dl[order[q]] == len0[order[q]]
    requires LeavesFrom(order, elems, 0) == CodesUpTo(bl, limit)
    ensures Handing(order, elems, limit, len0, bl, limit, bl[limit], 0, dl, seq(elems, x => 0))
  {
    hide Count, LeavesFrom;
    var neu := seq(elems, x => 0);
    forall b | 1 <= b <= limit ensures Count(neu, b) == 0 {
      CountNone(neu, b);
    }
  }

  lemma HandInner(order: seq<nat>, elems: nat, limit: nat, len0: seq<nat>, bl: seq<nat>, bits: nat, left: nat,
                  p: nat, dl: seq<nat>, neu: seq<nat>)
    requires Handing(order, elems, limit, len0, bl, bits, left, p, dl, neu) && p < |order| && order[p] >= elems
    ensures Handing(order, elems, limit, len0, bl, bits, left, p + 1, dl, neu)
  {
    hide Count, CodesUpTo;
  }

  lemma HandLeaf(order: seq<nat>, elems: nat, limit: nat, len0: seq<nat>, bl: seq<nat>, bits: nat, left: nat,
                 p: nat, dl: seq<nat>, neu: seq<nat>)
    requires Handing(order, elems, limit, len0, bl, bits, left, p, dl, neu) && p < |order| && order[p] < elems
    requires left > 0 && bits >= 1
    ensures Handing(order, elems, limit, len0, bl, bits, left - 1, p + 1, dl[order[p] := bits], neu[order[p] := bits])
  {
    hide Count, CodesUpTo;
    assert order[p] in order;
    forall b | 1 <= b <= limit
      ensures Count(neu[order[p] := bits], b) == if b > bits then bl[b] else if b == bits then bl[b] - (left - 1) else 0
    {
      CountUpdate(neu, order[p], bits, b);
      assert neu[order[p]] == 0;
      assert Count(neu, b) == if b > bits then bl[b] else if b == bits then bl[b] - left else 0;
    }
  }

  lemma HandNext(order: seq<nat>, elems: nat, limit: nat, len0: seq<nat>, bl: seq<nat>, bits: nat,
                 p: nat, dl: seq<nat>, neu: seq<nat>)
    requires Handing(order, elems, limit, len0, bl, bits, 0, p, dl, neu) && bits >= 1
    ensures Handing(order, elems, limit, len0, bl, bits - 1, if bits == 1 then 0 else bl[bits - 1], p, dl, neu)
  {
    hide Count;
  }

  lemma HandSome(order: seq<nat>, elems: nat, limit: nat, len0: seq<nat>, bl: seq<nat>, bits: nat, left: nat,
                 p: nat, dl: seq<nat>, neu: seq<nat>)
    requires Handing(order, elems, limit, len0, bl, bits, left, p, dl, neu) && left > 0
    ensures p < |order|
  {
  }

  /** The lengths when the second pass is at p: new ones where given, those of the first pass elsewhere. */
  ghost function Mixed(len0: seq<nat>, neu: seq<nat>): (r: seq<nat>)
    requires |neu| == |len0|
    ensures |r| == |len0| && forall x | 0 <= x < |r| :: r[x] == if neu[x] == 0 then len0[x] else neu[x]
  {
    seq(|len0|, x requires 0 <= x < |len0| => if neu[x] == 0 then len0[x] else neu[x])
  }

  ghost function MixedCost(k: TreeKind, len0: seq<nat>, neu: seq<nat>, freq: seq<nat>): int
    requires k.Valid() && |neu| == |len0| == k.elems <= |freq|
  {
    BitCost(Mixed(len0, neu), freq, Mixed(len0, neu), k.Extras())
  }

  lemma MixedStep(k: TreeKind, len0: seq<nat>, neu: seq<nat>, freq: seq<nat>, x: nat, bits: nat)
    requires k.Valid() && |neu| == |len0| == k.elems <= |freq| && x < k.elems && neu[x] == 0 && len0[x] > 0 && bits > 0
    ensures MixedCost(k, len0, neu[x := bits], freq) == MixedCost(k, len0, neu, freq) + (bits - len0[x]) * freq[x]
  {
    hide BitCost;
    var m := Mixed(len0, neu);
    assert Mixed(len0, neu[x := bits]) == m[x := bits];
    BitCostUpdate(m, freq, m, k.Extras(), x, bits, m[x := bits]);
    SpendDifference(freq[x], bits, len0[x], k.XBits(x));
  }

  lemma SpendDifference(f: nat, a: nat, b: nat, x: nat)
    ensures Spend(f, a, x) - Spend(f, b, x) == (a - b) * f
  {
  }

  /** One position of the second pass; `left` goes down when it is a leaf. */
  method HandOne(b: TreeBuilder, fc: array<nat>, dl: array<nat>, k: TreeKind, maxCode: nat, m: nat, bits: nat, left0: nat,
                 ghost order: seq<nat>, ghost len0: seq<nat>, ghost p: nat, ghost neu: seq<nat>)
    returns (left: nat, ghost neu': seq<nat>)
    requires Ready(b, fc, dl, k) && maxCode < k.elems && p < |order| && m == order[p] && (m < k.elems ==> m <= maxCode)
    requires Handing(order, k.elems, k.limit, len0, b.blCount[..], bits, left0, p, dl[..], neu) && left0 > 0 && bits >= 1
    requires (m < k.elems ==> len0[m] > 0)
    modifies b`optLen, dl
    ensures Handing(order, k.elems, k.limit, len0, b.blCount[..], bits, left, p + 1, dl[..], neu')
    ensures b.optLen == old(b.optLen) + MixedCost(k, len0, neu', fc[..]) - MixedCost(k, len0, neu, fc[..])
    ensures forall i | 0 <= i < dl.Length && (i != m || m > maxCode) :: dl[i] == old(dl[i])
  {
    hide Handing, MixedCost, Pow2;
    left, neu' := left0, neu;
    if m > maxCode {
      HandInner(order, k.elems, k.limit, len0, b.blCount[..], bits, left0, p, dl[..], neu);
    } else {
      HandingAt(order, k.elems, k.limit, len0, b.blCount[..], bits, left0, p, dl[..], neu);
      HandLeaf(order, k.elems, k.limit, len0, b.blCount[..], bits, left0, p, dl[..], neu);
      MixedStep(k, len0, neu, fc[..], m, bits);
      ghost var d := dl[..];
      if dl[m] != bits {
        b.optLen := b.optLen + (bits - dl[m]) * fc[m];
        dl[m] := bits;
      }
      assert dl[..] == d[m := bits];
      left, neu' := left0 - 1, neu[m := bits];
    }
  }

  lemma HandingAt(order: seq<nat>, elems: nat, limit: nat, len0: seq<nat>, bl: seq<nat>, bits: nat, left: nat,
                  p: nat, dl: seq<nat>, neu: seq<nat>)
    requires Handing(order, elems, limit, len0, bl, bits, left, p, dl, neu)
    ensures |neu| == elems == |len0| && p <= |order| && limit < |bl| && bits <= limit
    ensures p < |order| && order[p] < elems ==> order[p] < |dl| && dl[order[p]] == len0[order[p]] && neu[order[p]] == 0
  {
  }

  /** The last loop of gen_bitlen: the counts, longest first, go to the leaves by increasing frequency. */
  method HandOut(b: TreeBuilder, fc: array<nat>, dl: array<nat>, k: TreeKind, maxCode: nat,
                 ghost order: seq<nat>, ghost len0: seq<nat>) returns (ghost neu: seq<nat>)
    requires Ready(b, fc, dl, k) && maxCode < k.elems && |order| == b.heap.Length - b.heapMax && |len0| == k.elems
    requires forall i | 0 <= i < |order| :: order[i] == b.heap[b.heap.Length - 1 - i]
    requires Distinct(order)
    requires Matches(order, k.elems, maxCode, dl[..], len0)
    requires LeavesFrom(order, k.elems, 0) == CodesUpTo(b.blCount[..], k.limit)
    modifies b`optLen, dl
    ensures Handing(order, k.elems, k.limit, len0, b.blCount[..], 0, 0, |order|, dl[..], neu)
    ensures b.optLen == old(b.optLen) + MixedCost(k, len0, neu, fc[..]) - BitCost(len0, fc[..], len0, k.Extras())
    ensures forall x | 0 <= x < dl.Length && (x !in order || x > maxCode) :: dl[x] == old(dl[x])
  {
    hide Handing, MixedCost, Pow2, LeavesFrom, CodesUpTo, BitCost;
    ghost var bl := b.blCount[..];
    neu := seq(k.elems, x => 0);
    HandingStart(order, k.elems, k.limit, len0, bl, dl[..]);
    MixedStart(k, len0, fc[..]);
    var h := b.heap.Length;
    var bits := k.limit;
    ghost var p := 0;
    while bits != 0
      invariant 0 <= bits <= k.limit && p == b.heap.Length - h && p <= |order|
      invariant Handing(order, k.elems, k.limit, len0, bl, bits, if bits == 0 then 0 else bl[bits], p, dl[..], neu)
        && |neu| == k.elems
      invariant b.blCount[..] == bl
      invariant b.optLen == old(b.optLen) + MixedCost(k, len0, neu, fc[..]) - BitCost(len0, fc[..], len0, k.Extras())
      invariant forall x | 0 <= x < dl.Length && (x !in order || x > maxCode) :: dl[x] == old(dl[x])
      decreases bits
    {
      var n := b.blCount[bits];
      while n != 0
        invariant p == b.heap.Length - h && p <= |order|
        invariant Handing(order, k.elems, k.limit, len0, bl, bits, n, p, dl[..], neu) && |neu| == k.elems
        invariant b.blCount[..] == bl
        invariant b.optLen == old(b.optLen) + MixedCost(k, len0, neu, fc[..]) - BitCost(len0, fc[..], len0, k.Extras())
        invariant forall x | 0 <= x < dl.Length && (x !in order || x > maxCode) :: dl[x] == old(dl[x])
        decreases |order| - p
      {
        HandSome(order, k.elems, k.limit, len0, bl, bits, n, p, dl[..], neu);
        h := h - 1;
        assert b.heap[h] == order[p] && order[p] in order;
        n, neu := HandOne(b, fc, dl, k, maxCode, b.heap[h], bits, n, order, len0, p, neu);
        p := p + 1;
        HandingAt(order, k.elems, k.limit, len0, bl, bits, n, p, dl[..], neu);
      }
      HandNext(order, k.elems, k.limit, len0, bl, bits, p, dl[..], neu);
      bits := bits - 1;
    }
    HandingEnd(order, k.elems, k.limit, len0, bl, p, dl[..], neu);
  }

  lemma MixedStart(k: TreeKind, len0: seq<nat>, freq: seq<nat>)
    requires k.Valid() && |len0| == k.elems <= |freq|
    ensures MixedCost(k, len0, seq(k.elems, x => 0), freq) == BitCost(len0, freq, len0, k.Extras())
  {
    hide BitCost;
    assert Mixed(len0, seq(k.elems, x => 0)) == len0;
  }

  /** When all codes have been given every leaf has one. */
  lemma {:induction false} HandingEnd(order: seq<nat>, elems: nat, limit: nat, len0: seq<nat>, bl: seq<nat>,
                                      p: nat, dl: seq<nat>, neu: seq<nat>)
    requires Handing(order, elems, limit, len0, bl, 0, 0, p, dl, neu)
    ensures Handing(order, elems, limit, len0, bl, 0, 0, |order|, dl, neu)
    decreases |order| - p
  {
    if p < |order| {
      HandInner(order, elems, limit, len0, bl, 0, 0, p, dl, neu);
      HandingEnd(order, elems, limit, len0, bl, p + 1, dl, neu);
    }
  }

  // ---------------------------------------------------------------- gen_bitlen as a whole

  lemma CompleteIsTree(order: seq<nat>, fc: seq<nat>, dl: seq<nat>, elems: nat, leaves: set<nat>, n: nat)
    requires Complete(order, fc, dl, elems, leaves, n)
    ensures Tree(order, Ups(order, elems, n), n, elems)
    ensures (forall p | 0 <= p < |order| :: order[p] < |fc|) && forall p | 0 <= p < 2 * n - 2 :: order[p] < |dl| && dl[order[p]] == elems + p / 2
    ensures forall p | 0 <= p < |order| && order[p] < elems :: order[p] in leaves
    ensures forall x | x in leaves :: x < elems && x in order
    ensures |order| == 2 * n - 1
  {
    hide LowerBound, FreqBag, Spent;
    CompleteIsShape(order, fc, dl, elems, leaves, n);
    InnerNodes(order, fc, dl, elems, leaves, n);
    forall p | 0 <= p < 2 * n - 2 ensures dl[order[p]] == elems + p / 2 {
      assert order[..2 * n - 2][p] == order[p];
    }
  }

  lemma {:induction false} NothingDeep(up: seq<nat>, n: nat, limit: nat, p: nat, q: nat)
    requires Shape(up, n) && p <= q < |up| && DeepFrom(up, n, limit, p) == 0
    ensures Depth(up, q) <= limit
    decreases |up| - p
  {
    if p < q {
      NothingDeep(up, n, limit, p + 1, q);
    }
  }

  /** Without overflow the lengths cost exactly what the merges have cost. */
  lemma UncutCost(order: seq<nat>, fc: seq<nat>, dl: seq<nat>, k: TreeKind, leaves: set<nat>, n: nat, up: seq<nat>)
    requires Complete(order, fc, dl, k.elems, leaves, n) && up == Ups(order, k.elems, n) && Tree(order, up, n, k.elems)
    requires forall p | 0 <= p < |order| :: order[p] < |fc|
    requires k.elems <= |fc| && DeepFrom(up, n, k.limit, 0) == 0
    ensures Sum(Products(SymLens(order, up, n, k.elems, k.limit, 0), fc)) == Spent(order[..2 * n - 2], fc)
  {
    hide Sum, SymLens, Depth, LowerBound, FreqBag, Linked, Summed, Tree, PosLens, Shape, Complete, Additive, DeepFrom, Spent, Products,
      LeafValues, Costs;
    TreeSize(order, up, n, k.elems);
    var f := OrderFreqs(order, fc);
    SymCostIsPosCost(order, up, n, k.elems, k.limit, 0, fc);
    CompleteIsAdditive(order, fc, dl, k.elems, leaves, n);
    UncutProducts(up, n, k.limit, f);
    LeafCost(up, n, f);
    SpentIsMerged(order, fc, n - 1);
  }

  lemma UncutProducts(up: seq<nat>, n: nat, limit: nat, f: seq<nat>)
    requires Shape(up, n) && DeepFrom(up, n, limit, 0) == 0 && |f| == |up| + 1
    ensures Products(PosLens(up, n, limit, 0), f) == LeafValues(up, Costs(up, n, f))
  {
    hide Depth, DeepFrom;
    forall p | 0 <= p < |up| ensures Depth(up, p) <= limit {
      NothingDeep(up, n, limit, 0, p);
    }
    RootDepth(up);
  }

  /** What gen_bitlen leaves for gen_codes: a complete code for the leaves, no length above the limit. */
  ghost predicate CompleteCode(len: seq<nat>, bl: seq<nat>, limit: nat, leaves: set<nat>) {
    && |bl| == 16 && limit <= 15 && bl[0] == 0
    && (forall x | 0 <= x < |len| :: len[x] <= limit && (len[x] == 0 <==> x !in leaves))
    && (forall b | 1 <= b < 16 :: bl[b] == Count(len, b))
    && KraftUpTo(bl, limit, limit) == Pow2(limit)
  }

  /** Rarer symbols never get shorter codes. */
  ghost predicate Monotone(len: seq<nat>, freq: seq<nat>, leaves: set<nat>) {
    forall x, y | x in leaves && y in leaves && x < |len| && y < |len| && x < |freq| && y < |freq| && freq[x] < freq[y] ::
      len[x] >= len[y]
  }

  /** Along the order in which the nodes were taken off the heap, rarest first and ties included, codes never get longer. */
  ghost predicate LongestFirst(order: seq<nat>, len: seq<nat>) {
    && (forall x | 0 <= x < |len| && len[x] != 0 :: x in order)
    && forall q, r | 0 <= q < r < |order| && order[q] < |len| && order[r] < |len| :: len[order[q]] >= len[order[r]]
  }

  ghost function CountsOf(len: seq<nat>): (bl: seq<nat>)
    ensures |bl| == 16 && bl[0] == 0 && forall b | 1 <= b < 16 :: bl[b] == Count(len, b)
  {
    seq(16, b requires 0 <= b < 16 => if b == 0 then 0 else Count(len, b))
  }

  /** How many nodes of the tree are deeper than the limit. */
  ghost function TooDeep(order: seq<nat>, elems: nat, n: nat, limit: nat): nat
    requires n >= 1 && (forall x | elems <= x < elems + n - 1 :: x in order) && Tree(order, Ups(order, elems, n), n, elems)
  {
    DeepFrom(Ups(order, elems, n), n, limit, 0)
  }

  /** The code lengths, and how many there are of each, come from the tree: they are the depths of the leaves, or if any node is too
      deep, the repaired counts of the depths cut off at the limit, given out again in the order of the leaves. */
  ghost predicate FromTree(len: seq<nat>, bl: seq<nat>, order: seq<nat>, elems: nat, n: nat, limit: nat) {
    && n >= 1 && (forall x | elems <= x < elems + n - 1 :: x in order) && Tree(order, Ups(order, elems, n), n, elems)
    && 1 <= limit <= 15
    && (var depths := SymLens(order, Ups(order, elems, n), n, elems, limit, 0);
        if TooDeep(order, elems, n, limit) == 0 then len == depths
        else bl == Repaired(CountsOf(depths), limit, TooDeep(order, elems, n, limit) / 2) && LongestFirst(order, len))
  }

  /** No other lengths that satisfy the Kraft inequality cost less. */
  ghost predicate Optimum(len: seq<nat>, freq: seq<nat>, leaves: set<nat>) {
    && |len| <= |freq| && (forall x | x in leaves :: x < |freq|)
    && Sum(Products(len, freq)) >= 0 && LowerBound(FreqBag(leaves, freq), Sum(Products(len, freq)))
  }

  /** The leaves among the nodes: all used symbols and nothing else. */
  ghost predicate Leafy(order: seq<nat>, elems: nat, leaves: set<nat>, maxCode: nat) {
    && (forall p | 0 <= p < |order| && order[p] < elems :: order[p] in leaves)
    && (forall x | x in leaves :: x <= maxCode && x in order)
  }

  ghost predicate Rising(order: seq<nat>, fc: seq<nat>) {
    && (forall p | 0 <= p < |order| :: order[p] < |fc|)
    && (forall i, j | 0 <= i < j < |order| :: fc[order[i]] <= fc[order[j]])
  }

  /** Nothing has a length except through the tree. */
  ghost predicate Blank(order: seq<nat>, elems: nat, dl: seq<nat>) {
    elems <= |dl| && forall x | 0 <= x < elems && x !in order :: dl[x] == 0
  }

  /** The leaves still have their first lengths len0. */
  ghost predicate Matches(order: seq<nat>, elems: nat, maxCode: nat, dl: seq<nat>, len0: seq<nat>) {
    && |len0| == elems
    && forall q | 0 <= q < |order| && order[q] < elems ::
         order[q] <= maxCode && order[q] < |dl| && dl[order[q]] == len0[order[q]] && len0[order[q]] > 0
  }

  lemma PassedLens(k: TreeKind, order: seq<nat>, up: seq<nat>, n: nat, dl: seq<nat>, bl: seq<nat>, leaves: set<nat>, maxCode: nat)
    requires Passed(k, order, up, n, 0, dl, bl) && k.Valid() && maxCode < k.elems
    requires Leafy(order, k.elems, leaves, maxCode) && Blank(order, k.elems, dl)
    ensures dl[..k.elems] == SymLens(order, up, n, k.elems, k.limit, 0)
    ensures forall x | 0 <= x < k.elems :: dl[x] <= k.limit && (dl[x] == 0 <==> x !in leaves)
    ensures forall q | 0 <= q < |order| && order[q] < k.elems :: 0 < dl[order[q]] <= k.limit
    ensures Matches(order, k.elems, maxCode, dl, dl[..k.elems])
  {
    hide SymLens, Depth, Count;
    SymLensAt(order, up, n, k.elems, k.limit, 0);
    assert order[0..] == order;
    forall q | 0 <= q < |order| && order[q] < k.elems ensures 0 < dl[order[q]] <= k.limit {
      LeafDepth(up, n, k.limit, q);
    }
    forall x | 0 <= x < k.elems ensures dl[x] <= k.limit && (dl[x] == 0 <==> x !in leaves)
      ensures dl[x] == SymLens(order, up, n, k.elems, k.limit, 0)[x]
    {
      if x in order {
        var q :| 0 <= q < |order| && order[q] == x;
      }
    }
  }

  lemma PassedCounted(k: TreeKind, order: seq<nat>, up: seq<nat>, n: nat, dl: seq<nat>, bl: seq<nat>)
    requires Passed(k, order, up, n, 0, dl, bl) && k.Valid()
    ensures |bl| == 16 && bl[0] == 0 && Counted(bl, PosLens(up, n, k.limit, 0), k.limit)
    ensures forall b | 1 <= b < 16 :: bl[b] == Count(SymLens(order, up, n, k.elems, k.limit, 0), b)
  {
    hide SymLens, Depth, Count, CutDepth;
    forall b | 1 <= b <= k.limit ensures bl[b] == Count(PosLens(up, n, k.limit, 0), b) {
      SymIsPos(order, up, n, k.elems, k.limit, 0, b);
    }
  }

  /** The lengths handed out in the second pass. */
  lemma HandedLens(k: TreeKind, order: seq<nat>, len0: seq<nat>, bl: seq<nat>, dl: seq<nat>, neu: seq<nat>, fc: seq<nat>,
                   leaves: set<nat>, maxCode: nat)
    requires Handing(order, k.elems, k.limit, len0, bl, 0, 0, |order|, dl, neu) && k.Valid() && k.elems <= |fc|
    requires |bl| == 16 && maxCode < k.elems
    requires Leafy(order, k.elems, leaves, maxCode) && Blank(order, k.elems, dl) && Rising(order, fc)
    ensures dl[..k.elems] == neu && forall x | 0 <= x < k.elems :: dl[x] <= k.limit && (dl[x] == 0 <==> x !in leaves)
    ensures forall b | 1 <= b <= k.limit :: bl[b] == Count(neu, b)
    ensures Monotone(dl[..k.elems], fc, leaves) && LongestFirst(order, dl[..k.elems])
  {
    hide Count, CodesUpTo, LeavesFrom;
    forall x | 0 <= x < k.elems ensures dl[x] == neu[x] <= k.limit && (dl[x] == 0 <==> x !in leaves) {
      if x in order {
        var q :| 0 <= q < |order| && order[q] == x;
      }
    }
    forall x, y | x in leaves && y in leaves && fc[x] < fc[y] ensures dl[x] >= dl[y] {
      var i :| 0 <= i < |order| && order[i] == x;
      var j :| 0 <= j < |order| && order[j] == y;
    }
    assert forall b | 1 <= b <= k.limit :: Count(neu, b) == bl[b];
  }

  lemma StaticPattern(k: TreeKind, len: seq<nat>, len': seq<nat>, freq: seq<nat>)
    requires k.Valid() && |len| == |len'| == k.elems <= |freq|
      && forall x | 0 <= x < k.elems :: len[x] == 0 <==> len'[x] == 0
    ensures StaticCost(k, len, freq) == StaticCost(k, len', freq)
  {
    if k.slen != [] {
      assert Terms(len, freq, k.Statics(), k.Extras()) == Terms(len', freq, k.Statics(), k.Extras());
    }
  }

  lemma MixedEnd(k: TreeKind, len0: seq<nat>, neu: seq<nat>, freq: seq<nat>)
    requires k.Valid() && |neu| == |len0| == k.elems <= |freq|
      && forall x | 0 <= x < k.elems :: len0[x] == 0 <==> neu[x] == 0
    ensures MixedCost(k, len0, neu, freq) == BitCost(neu, freq, neu, k.Extras())
  {
    hide BitCost;
    assert Mixed(len0, neu) == neu;
  }

  /** The second half of gen_bitlen, entered when some code was longer than the limit. */
  method Relieve(b: TreeBuilder, fc: array<nat>, dl: array<nat>, k: TreeKind, maxCode: nat, overflow: nat,
                 ghost order: seq<nat>, ghost up: seq<nat>, ghost n: nat, ghost leaves: set<nat>)
    requires Ready(b, fc, dl, k) && order == Order(b.heap[..], b.heapMax) && maxCode < k.elems
    requires Passed(k, order, up, n, 0, dl[..], b.blCount[..]) && Tree(order, up, n, k.elems)
    requires overflow == DeepFrom(up, n, k.limit, 0) > 0 && n <= k.elems
    requires Leafy(order, k.elems, leaves, maxCode) && Blank(order, k.elems, dl[..]) && Rising(order, fc[..])
    modifies b`optLen, b.blCount, dl
    ensures CompleteCode(dl[..k.elems], b.blCount[..], k.limit, leaves) && Monotone(dl[..k.elems], fc[..], leaves)
    ensures LongestFirst(order, dl[..k.elems]) && b.blCount[..] == Repaired(old(b.blCount[..]), k.limit, overflow / 2)
    ensures b.optLen == old(b.optLen) + BitCost(dl[..k.elems], fc[..], dl[..k.elems], k.Extras())
                      - BitCost(old(dl[..k.elems]), fc[..], old(dl[..k.elems]), k.Extras())
    ensures forall x | 0 <= x < k.elems :: dl[x] == 0 <==> old(dl[x]) == 0
  {
    hide Passed, Tree, BitCost, Handing, Shape, Counted, Owing, KraftUpTo, CodesUpTo, Pow2, MixedCost, PosLens, Count, LeavesFrom,
      Leafy, Blank, Rising, Distinct, Matches, CompleteCode, Monotone, LongestFirst, Repaired;
    ghost var bl0, len0 := b.blCount[..], dl[..k.elems];
    ghost var d := dl[..];
    TreeSize(order, up, n, k.elems);
    TreeDistinct(order, up, n, k.elems);
    PassedLens(k, order, up, n, dl[..], bl0, leaves, maxCode);
    PassedCounted(k, order, up, n, dl[..], bl0);
    FirstPassOwes(bl0, up, n, k.limit);
    DeepFromPairs(up, n, k.limit, 0);
    LeavesAreCoded(order, up, n, k.elems, k.limit, 0);
    CodesFromCounts(bl0, PosLens(up, n, k.limit, 0), k.limit, k.limit);
    ghost var turns := RepairCounts(b.blCount, k.limit, overflow);
    ghost var neu := HandOut(b, fc, dl, k, maxCode, order, len0);
    BlankKept(order, k.elems, d, dl[..]);
    HandedLens(k, order, len0, b.blCount[..], dl[..], neu, fc[..], leaves, maxCode);
    MixedEnd(k, len0, neu, fc[..]);
    LongCounts(bl0, len0, k.limit);
    RepairedCode(dl[..k.elems], b.blCount[..], bl0, k.limit, leaves);
  }

  /** The same, with all that is known of the new lengths. */
  method Shorten(b: TreeBuilder, fc: array<nat>, dl: array<nat>, k: TreeKind, maxCode: nat, overflow: nat,
                 ghost order: seq<nat>, ghost up: seq<nat>, ghost n: nat, ghost leaves: set<nat>)
    requires Ready(b, fc, dl, k) && order == Order(b.heap[..], b.heapMax) && maxCode < k.elems
    requires Passed(k, order, up, n, 0, dl[..], b.blCount[..]) && Tree(order, up, n, k.elems)
    requires n >= 1 && (forall x | k.elems <= x < k.elems + n - 1 :: x in order) && up == Ups(order, k.elems, n)
    requires overflow == DeepFrom(up, n, k.limit, 0) > 0 && n <= k.elems
    requires Leafy(order, k.elems, leaves, maxCode) && Blank(order, k.elems, dl[..]) && Rising(order, fc[..])
    modifies b`optLen, b.blCount, dl
    ensures CompleteCode(dl[..k.elems], b.blCount[..], k.limit, leaves) && Monotone(dl[..k.elems], fc[..], leaves)
    ensures LongestFirst(order, dl[..k.elems])
    ensures FromTree(dl[..k.elems], b.blCount[..], order, k.elems, n, k.limit) && TooDeep(order, k.elems, n, k.limit) == overflow
    ensures b.optLen == old(b.optLen) + BitCost(dl[..k.elems], fc[..], dl[..k.elems], k.Extras())
                      - BitCost(old(dl[..k.elems]), fc[..], old(dl[..k.elems]), k.Extras())
    ensures forall x | 0 <= x < k.elems :: dl[x] == 0 <==> old(dl[x]) == 0
  {
    hide Passed, Tree, BitCost, CompleteCode, Monotone, LongestFirst, Repaired, FromTree, TooDeep, SymLens, Leafy, Blank, Rising, Pow2,
      DeepFrom, Count;
    ghost var len0, bl0 := dl[..k.elems], b.blCount[..];
    PassedLens(k, order, up, n, dl[..], bl0, leaves, maxCode);
    PassedCounted(k, order, up, n, dl[..], bl0);
    CountsAre(len0, bl0);
    Relieve(b, fc, dl, k, maxCode, overflow, order, up, n, leaves);
    FromRepair(dl[..k.elems], b.blCount[..], order, k.elems, n, k.limit, overflow);
  }

  lemma BlankKept(order: seq<nat>, elems: nat, d: seq<nat>, dl: seq<nat>)
    requires Blank(order, elems, d) && |d| == |dl| && forall x | 0 <= x < elems && x !in order :: dl[x] == d[x]
    ensures Blank(order, elems, dl)
  {
  }

  lemma TreeDistinct(order: seq<nat>, up: seq<nat>, n: nat, elems: nat)
    requires Tree(order, up, n, elems)
    ensures n >= 2 && Distinct(order)
  {
  }

  lemma LongCounts(bl: seq<nat>, len: seq<nat>, limit: nat)
    requires |bl| == 16 && (forall b | 1 <= b < 16 :: bl[b] == Count(len, b)) && forall x | 0 <= x < |len| :: len[x] <= limit
    ensures forall b | limit < b < 16 && b >= 1 :: bl[b] == 0
  {
    hide Count;
    forall b | limit < b < 16 && b >= 1 ensures bl[b] == 0 {
      CountNone(len, b);
    }
  }

  lemma RepairedCode(len: seq<nat>, bl: seq<nat>, bl0: seq<nat>, limit: nat, leaves: set<nat>)
    requires |bl| == |bl0| == 16 && 1 <= limit <= 15 && Owing(bl, limit, 0) && bl[0] == bl0[0] == 0
    requires forall i | limit < i < 16 :: bl[i] == bl0[i] == 0
    requires forall b | 1 <= b <= limit :: bl[b] == Count(len, b)
    requires forall x | 0 <= x < |len| :: len[x] <= limit && (len[x] == 0 <==> x !in leaves)
    ensures CompleteCode(len, bl, limit, leaves)
  {
    hide Count, KraftUpTo, CodesUpTo, Pow2;
    forall b | 1 <= b < 16 ensures bl[b] == Count(len, b) {
      if b > limit {
        CountNone(len, b);
      }
    }
  }

  /** gen_bitlen. The result says how many nodes were deeper than the limit. */
  method GenBitlen(b: TreeBuilder, fc: array<nat>, dl: array<nat>, k: TreeKind, maxCode: nat, ghost leaves: set<nat>)
    returns (overflow: nat)
    requires b.Valid() && b.Fits(fc, dl, k.elems) && k.Valid() && b.heapMax < b.heap.Length
    requires Complete(Order(b.heap[..], b.heapMax), fc[..], dl[..], k.elems, leaves, |leaves|)
    requires maxCode < k.elems && |leaves| <= k.elems && forall x | x in leaves :: x <= maxCode
    requires forall x | 0 <= x < k.elems && x !in leaves :: dl[x] == 0
    modifies b`optLen, b`staticLen, b.blCount, dl
    ensures CompleteCode(dl[..k.elems], b.blCount[..], k.limit, leaves)
    ensures b.optLen == old(b.optLen) + BitCost(dl[..k.elems], fc[..], dl[..k.elems], k.Extras())
    ensures b.staticLen == old(b.staticLen) + StaticCost(k, dl[..k.elems], fc[..])
    ensures overflow > 0 ==> Monotone(dl[..k.elems], fc[..], leaves) && LongestFirst(Order(b.heap[..], b.heapMax), dl[..k.elems])
    ensures overflow == 0 ==> Optimum(dl[..k.elems], fc[..], leaves)
    ensures FromTree(dl[..k.elems], b.blCount[..], Order(b.heap[..], b.heapMax), k.elems, |leaves|, k.limit)
    ensures overflow == TooDeep(Order(b.heap[..], b.heapMax), k.elems, |leaves|, k.limit)
  {
    hide Complete, Passed, Tree, BitCost, StaticCost, Shape, CompleteCode, Monotone, LongestFirst, Optimum, LowerBound,
      FreqBag, Spent, Sum, SymLens, FromTree, TooDeep, Repaired,
      OptAt, StaticAt, Pow2, Count, Leafy, Blank, Rising, Matches;
    ghost var order := Order(b.heap[..], b.heapMax);
    ghost var n := |leaves|;
    CompleteSize(order, fc[..], dl[..], k.elems, leaves, n);
    CompleteIsTree(order, fc[..], dl[..], k.elems, leaves, n);
    CompleteLeaves(order, fc[..], dl[..], k.elems, leaves, n, maxCode);
    ghost var up := Ups(order, k.elems, n);
    ghost var d := dl[..];
    overflow := FirstPass(b, fc, dl, k, maxCode, order, up, n);
    BlankKept(order, k.elems, d, dl[..]);
    PassedLens(k, order, up, n, dl[..], b.blCount[..], leaves, maxCode);
    TreeSize(order, up, n, k.elems);
    AtStart(k, order, up, n, fc[..], dl[..k.elems]);
    if overflow == 0 {
      CompleteOptimum(order, fc[..], d, k, leaves, n, up, dl[..k.elems]);
      PassedCode(k, order, up, n, dl[..], b.blCount[..], leaves);
      FromDepths(dl[..k.elems], b.blCount[..], order, k.elems, n, k.limit);
      return;
    }
    ghost var len0 := dl[..k.elems];
    Shorten(b, fc, dl, k, maxCode, overflow, order, up, n, leaves);
    StaticPattern(k, len0, dl[..k.elems], fc[..]);
  }

  lemma CountsAre(len: seq<nat>, bl: seq<nat>)
    requires |bl| == 16 && bl[0] == 0 && forall b | 1 <= b < 16 :: bl[b] == Count(len, b)
    ensures bl == CountsOf(len)
  {
    hide Count;
  }

  lemma FromDepths(len: seq<nat>, bl: seq<nat>, order: seq<nat>, elems: nat, n: nat, limit: nat)
    requires n >= 1 && (forall x | elems <= x < elems + n - 1 :: x in order) && 1 <= limit <= 15
    requires Tree(order, Ups(order, elems, n), n, elems) && DeepFrom(Ups(order, elems, n), n, limit, 0) == 0
    requires len == SymLens(order, Ups(order, elems, n), n, elems, limit, 0)
    ensures FromTree(len, bl, order, elems, n, limit) && TooDeep(order, elems, n, limit) == 0
  {
    hide SymLens, Tree, DeepFrom, Repaired, LongestFirst;
  }

  lemma FromRepair(len: seq<nat>, bl: seq<nat>, order: seq<nat>, elems: nat, n: nat, limit: nat, overflow: nat)
    requires n >= 1 && (forall x | elems <= x < elems + n - 1 :: x in order) && 1 <= limit <= 15
    requires Tree(order, Ups(order, elems, n), n, elems) && overflow == DeepFrom(Ups(order, elems, n), n, limit, 0) > 0
    requires bl == Repaired(CountsOf(SymLens(order, Ups(order, elems, n), n, elems, limit, 0)), limit, overflow / 2)
    requires LongestFirst(order, len)
    ensures FromTree(len, bl, order, elems, n, limit) && TooDeep(order, elems, n, limit) == overflow
  {
    hide SymLens, Tree, DeepFrom, Repaired, LongestFirst;
  }

  lemma CompleteLeaves(order: seq<nat>, fc: seq<nat>, dl: seq<nat>, elems: nat, leaves: set<nat>, n: nat, maxCode: nat)
    requires Complete(order, fc, dl, elems, leaves, n) && maxCode < elems <= |dl|
    requires (forall x | x in leaves :: x <= maxCode) && forall x | 0 <= x < elems && x !in leaves :: dl[x] == 0
    ensures Leafy(order, elems, leaves, maxCode) && Blank(order, elems, dl) && Rising(order, fc)
  {
    hide LowerBound, FreqBag, Spent, Linked;
  }

  lemma CompleteOptimum(order: seq<nat>, fc: seq<nat>, dl: seq<nat>, k: TreeKind, leaves: set<nat>, n: nat, up: seq<nat>, len: seq<nat>)
    requires Complete(order, fc, dl, k.elems, leaves, n) && |order| == 2 * n - 1 && n >= 1
    requires (forall x | k.elems <= x < k.elems + n - 1 :: x in order) && up == Ups(order, k.elems, n) && Tree(order, up, n, k.elems)
    requires forall p | 0 <= p < |order| :: order[p] < |fc|
    requires k.elems <= |fc| && Shape(up, n) && DeepFrom(up, n, k.limit, 0) == 0 && |order| == |up| + 1
    requires len == SymLens(order, up, n, k.elems, k.limit, 0)
    ensures Optimum(len, fc, leaves)
  {
    hide Complete, Tree, Shape, LowerBound, FreqBag, Spent, Sum, SymLens, Products;
    UncutCost(order, fc, dl, k, leaves, n, up);
    CompleteBound(order, fc, dl, k.elems, leaves, n);
  }

  lemma CompleteSize(order: seq<nat>, fc: seq<nat>, dl: seq<nat>, elems: nat, leaves: set<nat>, n: nat)
    requires Complete(order, fc, dl, elems, leaves, n)
    ensures n >= 2 && |order| == 2 * n - 1 && (forall x | elems <= x < elems + n - 1 :: x in order)
    ensures forall i | 0 <= i < |order| :: order[i] < |fc|
  {
  }

  lemma CompleteBound(order: seq<nat>, fc: seq<nat>, dl: seq<nat>, elems: nat, leaves: set<nat>, n: nat)
    requires Complete(order, fc, dl, elems, leaves, n) && |order| == 2 * n - 1 && n >= 1
    ensures (forall i | 0 <= i < |order[..2 * n - 2]| :: order[i] < |fc|) && forall x | x in leaves :: x < |fc|
    ensures LowerBound(FreqBag(leaves, fc), Spent(order[..2 * n - 2], fc))
  {
  }

  lemma AtStart(k: TreeKind, order: seq<nat>, up: seq<nat>, n: nat, freq: seq<nat>, len: seq<nat>)
    requires k.Valid() && k.elems <= |freq| && Shape(up, n) && |order| == |up| + 1
    requires len == SymLens(order, up, n, k.elems, k.limit, 0)
    ensures OptAt(k, order, up, n, 0, freq) == BitCost(len, freq, len, k.Extras())
    ensures StaticAt(k, order, up, n, 0, freq) == StaticCost(k, len, freq)
  {
  }

  lemma PassedCode(k: TreeKind, order: seq<nat>, up: seq<nat>, n: nat, dl: seq<nat>, bl: seq<nat>, leaves: set<nat>)
    requires Passed(k, order, up, n, 0, dl, bl) && k.Valid() && k.elems <= |dl| && Tree(order, up, n, k.elems)
    requires DeepFrom(up, n, k.limit, 0) == 0 && n <= k.elems
    requires dl[..k.elems] == SymLens(order, up, n, k.elems, k.limit, 0)
    requires forall x | 0 <= x < k.elems :: dl[x] <= k.limit && (dl[x] == 0 <==> x !in leaves)
    ensures CompleteCode(dl[..k.elems], bl, k.limit, leaves)
  {
    hide Passed, Tree, Shape, Counted, KraftUpTo, CodesUpTo, Pow2, PosLens, SymLens, Count;
    TreeSize(order, up, n, k.elems);
    TreeDistinct(order, up, n, k.elems);
    PassedCounted(k, order, up, n, dl, bl);
    FirstPassOwes(bl, up, n, k.limit);
    DeepFromPairs(up, n, k.limit, 0);
  }
}
