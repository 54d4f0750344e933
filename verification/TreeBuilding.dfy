/** build_tree up to the finished tree (src/ext/zlib/trees.c): collecting the symbols, forcing two of them, building the
    heap and merging the two least frequent nodes until one is left. */
module TreeBuilding {
  import opened Heap
  import opened Forest
  import opened Optimal

  /** The part of the deflate state that the three trees share. */
  class TreeBuilder {
    const heap: array<nat>
    const depth: array<nat>
    const blCount: array<nat>
    var heapLen: nat
    var heapMax: nat
    var optLen: int
    var staticLen: int

    constructor (heapSize: nat)
      ensures Valid() && fresh(heap) && fresh(depth) && fresh(blCount) && heap.Length == heapSize
      ensures optLen == 0 && staticLen == 0
    {
      heap := new nat[heapSize];
      depth := new nat[heapSize];
      blCount := new nat[16];
      heapLen, heapMax := 0, heapSize;
      optLen, staticLen := 0, 0;
    }

    ghost predicate Valid() {
      && heap != depth && heap != blCount && depth != blCount
      && depth.Length == heap.Length && blCount.Length == 16
    }

    /** The arrays of a tree are its own: fc holds Freq, later Code, and dl holds Dad, later Len. */
    ghost predicate Fits(fc: array<nat>, dl: array<nat>, elems: nat) {
      && fc != dl && fc != heap && fc != depth && fc != blCount && dl != heap && dl != depth && dl != blCount
      && 3 <= elems && 2 * elems < fc.Length && dl.Length == fc.Length && 2 * elems < heap.Length
    }

    // -------------------------------------------------------------- the initial heap

    method Append(n: nat)
      requires Valid() && heapLen + 1 < heap.Length && n < depth.Length
      modifies this`heapLen, heap, depth
      ensures heapLen == old(heapLen) + 1 && heap[..] == old(heap[..])[heapLen := n]
    {
      heapLen := heapLen + 1;
      heap[heapLen] := n;
      depth[n] := 0;
    }

    method CollectSymbols(fc: array<nat>, dl: array<nat>, elems: nat) returns (maxCode: int)
      requires Valid() && Fits(fc, dl, elems)
      modifies this`heapLen, this`heapMax, heap, depth, dl
      ensures heapMax == heap.Length && heapLen <= elems
      ensures Lists(heap[..], heapLen, fc[..], elems, maxCode)
      ensures forall n | 0 <= n < elems && fc[n] == 0 :: dl[n] == 0
    {
      hide Lists;
      heapLen, heapMax := 0, heap.Length;
      maxCode := -1;
      ListsNone(heap[..], fc[..]);
      for n := 0 to elems
        invariant heapMax == heap.Length && heapLen <= n
        invariant Lists(heap[..], heapLen, fc[..], n, maxCode)
        invariant forall i | 0 <= i < n && fc[i] == 0 :: dl[i] == 0
      {
        ghost var h := heap[..];
        NextSymbol(h, heapLen, fc[..], n, maxCode);
        if fc[n] != 0 {
          Append(n);
          maxCode := n;
        } else {
          dl[n] := 0;
        }
      }
    }

    // -------------------------------------------------------------- forcing two symbols

    /** One turn of the loop that forces symbols. */
    method ForceOne(fc: array<nat>, dl: array<nat>, elems: nat, slen: seq<nat>, maxCode: int) returns (max: int, node: nat)
      requires Valid() && Fits(fc, dl, elems) && (slen == [] || |slen| >= elems)
      requires Lists(heap[..], heapLen, fc[..], elems, maxCode) && heapLen < 2
      modifies this`heapLen, this`optLen, this`staticLen, heap, depth, fc
      ensures Lists(heap[..], heapLen, fc[..], elems, max) && heapLen == old(heapLen) + 1
      ensures node <= 2 && old(fc[node]) == 0 && fc[..] == old(fc[..])[node := 1]
      ensures maxCode >= -1 && node == NextForced(maxCode) && max as int == if maxCode < 2 then maxCode + 1 else maxCode
      ensures optLen == old(optLen) - 1 && staticLen == old(staticLen) - LengthOf(slen, node)
    {
      ListsBounds(heap[..], heapLen, fc[..], elems, maxCode);
      AddSymbol(heap[..], heapLen, fc[..], elems, maxCode, if maxCode < 2 then maxCode + 1 else 0);
      hide Lists;
      if maxCode < 2 {
        max := maxCode + 1;
        node := max;
      } else {
        max, node := maxCode, 0;
      }
      Append(node);
      fc[node] := 1;
      optLen := optLen - 1;
      if slen != [] {
        staticLen := staticLen - slen[node];
      }
      assert fc[..] == old(fc[..])[node := 1];
    }

    /** slen holds the static code lengths; it is empty when the tree has no static counterpart. */
    method ForceTwo(fc: array<nat>, dl: array<nat>, elems: nat, slen: seq<nat>, maxCode0: int)
      returns (maxCode: nat, ghost forced: seq<nat>)
      requires Valid() && Fits(fc, dl, elems) && (slen == [] || |slen| >= elems)
      requires Lists(heap[..], heapLen, fc[..], elems, maxCode0) && heapLen <= elems
      modifies this`heapLen, this`optLen, this`staticLen, heap, depth, fc
      ensures Lists(heap[..], heapLen, fc[..], elems, maxCode) && 2 <= heapLen <= elems
      ensures Forcing(old(fc[..]), fc[..], forced) && heapLen == old(heapLen) + |forced|
      ensures forced != [] ==> heapLen == 2
      ensures maxCode0 >= -1 && forced == ToForce(maxCode0, old(heapLen))
      ensures optLen == old(optLen) - |forced| && staticLen == old(staticLen) - LengthsOf(slen, forced)
    {
      hide Lists, Forcing, LengthsOf;
      ghost var freq := fc[..];
      var max := maxCode0;
      forced := [];
      ListsBounds(heap[..], heapLen, fc[..], elems, max);
      ForcingNone(freq);
      LengthsNone(slen);
      while heapLen < 2
        invariant heapLen <= 2 || forced == []
        invariant max >= -1 && maxCode0 >= -1 && forced + ToForce(max, heapLen) == ToForce(maxCode0, old(heapLen))
        invariant Lists(heap[..], heapLen, fc[..], elems, max) && heapLen == old(heapLen) + |forced|
        invariant heapLen <= elems && Forcing(freq, fc[..], forced)
        invariant optLen == old(optLen) - |forced| && staticLen == old(staticLen) - LengthsOf(slen, forced)
        decreases 2 - heapLen
      {
        ghost var before := fc[..];
        var node;
        max, node := ForceOne(fc, dl, elems, slen, max);
        ForcingStep(freq, before, forced, node);
        LengthsStep(slen, forced, node);
        forced := forced + [node];
      }
      ListsBounds(heap[..], heapLen, fc[..], elems, max);
      maxCode := max;
    }

    // -------------------------------------------------------------- the queue as a set of nodes

    /** The queue holds the nodes of hs, each once, in heap order. */
    ghost predicate Queue(fc: array<nat>, hs: set<nat>)
      reads this, heap, depth, fc
    {
      && Nodes(heap[..], heapLen, fc[..], depth[..]) && Ordered(heap[..], heapLen, fc[..], depth[..], 1)
      && Holds(heap[..], heapLen, hs)
    }

    method Heapify(fc: array<nat>, dl: array<nat>, elems: nat, ghost hs: set<nat>)
      requires Valid() && Fits(fc, dl, elems) && heapLen >= 2
      requires Nodes(heap[..], heapLen, fc[..], depth[..]) && Holds(heap[..], heapLen, hs)
      modifies heap
      ensures Queue(fc, hs) && heap[heapLen + 1..] == old(heap[heapLen + 1..])
    {
      hide Ordered, Holds, Rearranged;
      OrderedLeaves(heap[..], heapLen, fc[..], depth[..]);
      var n := heapLen / 2;
      while n >= 1
        invariant 0 <= n <= heapLen / 2
        invariant Nodes(heap[..], heapLen, fc[..], depth[..]) && Holds(heap[..], heapLen, hs)
        invariant Ordered(heap[..], heapLen, fc[..], depth[..], n + 1)
        invariant heap[heapLen + 1..] == old(heap[heapLen + 1..])
        decreases n
      {
        ghost var h := heap[..];
        PqDownHeap(heap, heapLen, fc, depth, n);
        HoldsRearranged(heap[..], h, heapLen, hs);
        n := n - 1;
      }
    }

    /** The macro pqremove. */
    method PqRemove(fc: array<nat>, dl: array<nat>, elems: nat, ghost hs: set<nat>) returns (top: nat)
      requires Valid() && Fits(fc, dl, elems) && heapLen >= 2 && Queue(fc, hs)
      modifies this`heapLen, heap
      ensures heapLen == old(heapLen) - 1 && top in hs && Queue(fc, hs - {top})
      ensures top < fc.Length && forall x | x in hs :: x < fc.Length && fc[top] <= fc[x]
      ensures heap[old(heapLen) + 1..] == old(heap[heapLen + 1..])
    {
      hide Ordered, Holds, Rearranged;
      ghost var h, len := heap[..], heapLen;
      TopIsLeast(h, heapLen, fc[..], depth[..], hs);
      RemoveTop(h, heapLen, fc[..], depth[..], hs);
      top := heap[1];
      heap[1] := heap[heapLen];
      heapLen := heapLen - 1;
      ghost var h' := heap[..];
      assert h' == h[1 := h[heapLen + 1]];
      PqDownHeap(heap, heapLen, fc, depth, 1);
      HoldsRearranged(heap[..], h', heapLen, hs - {top});
      assert heap[len + 1..] == heap[heapLen + 1..][1..];
      assert h[len + 1..] == h'[heapLen + 1..][1..];
    }

    /** Puts a new node in the place of the first one. */
    method ReplaceTop(fc: array<nat>, dl: array<nat>, elems: nat, node: nat, ghost hs: set<nat>)
      requires Valid() && Fits(fc, dl, elems) && heapLen >= 1 && Queue(fc, hs)
      requires node < fc.Length && node < depth.Length && node !in hs
      modifies heap
      ensures old(heap[1]) in hs && Queue(fc, hs - {old(heap[1])} + {node})
      ensures heap[heapLen + 1..] == old(heap[heapLen + 1..])
    {
      hide Ordered, Holds, Rearranged;
      ghost var h := heap[..];
      TopIsLeast(h, heapLen, fc[..], depth[..], hs);
      ChangeTop(h, heapLen, fc[..], depth[..], hs, node);
      heap[1] := node;
      assert heap[..] == h[1 := node];
      PqDownHeap(heap, heapLen, fc, depth, 1);
      HoldsRearranged(heap[..], h[1 := node], heapLen, hs - {h[1]} + {node});
    }

    // -------------------------------------------------------------- merging

    /** The queue with the nodes already taken off it, t pairs of them. */
    ghost predicate Merged(fc: array<nat>, dl: array<nat>, elems: nat, leaves: set<nat>, hs: set<nat>, t: nat)
      reads this, heap, depth, fc, dl
    {
      && heapLen < heapMax <= heap.Length && heapMax + 2 * t == heap.Length && heapLen == |leaves| - t && heapLen == |hs|
      && t < elems && Queue(fc, hs)
      && Merging(Order(heap[..], heapMax), hs, fc[..], dl[..], elems, leaves, t)
    }

    /** Keeps the two nodes at the top of the array. */
    method TakeOff(n: nat, m: nat)
      requires Valid() && 2 <= heapMax <= heap.Length
      modifies this`heapMax, heap
      ensures heapMax == old(heapMax) - 2
      ensures heap[..] == old(heap[..])[heapMax + 1 := n][heapMax := m]
    {
      heapMax := heapMax - 1;
      heap[heapMax] := n;
      heapMax := heapMax - 1;
      heap[heapMax] := m;
    }

    /** The new father of n and m; frequencies are kept in 16 bits, depths in 8. */
    method Join(fc: array<nat>, dl: array<nat>, elems: nat, n: nat, m: nat, node: nat)
      requires Valid() && Fits(fc, dl, elems) && n < fc.Length && m < fc.Length && node < fc.Length
      requires n < depth.Length && m < depth.Length && node < depth.Length
      modifies fc, dl, depth
      ensures fc[..] == old(fc[..])[node := old(fc[n] + fc[m]) % 0x1_0000]
      ensures dl[..] == old(dl[..])[n := node][m := node]
      ensures depth[..] == old(depth[..])[node := depth[node]]
    {
      fc[node] := (fc[n] + fc[m]) % 0x1_0000;
      depth[node] := ((if depth[n] >= depth[m] then depth[n] else depth[m]) + 1) % 0x100;
      dl[n] := node;
      dl[m] := node;
    }

    /** Takes the two least frequent nodes and makes them sons of `node`; the second one is still first in the queue. */
    method Combine(fc: array<nat>, dl: array<nat>, elems: nat, node: nat, ghost hs: set<nat>) returns (n: nat, m: nat)
      requires Valid() && Fits(fc, dl, elems) && 2 <= heapLen <= heapMax - 2 && heapMax <= heap.Length && Queue(fc, hs)
      requires (forall x | x in hs :: x < node) && elems <= node < 2 * elems && Total(hs, fc[..]) < 0x1_0000
      modifies this`heapLen, this`heapMax, heap, depth, fc, dl
      ensures heapLen == old(heapLen) - 1 && heapMax == old(heapMax) - 2
      ensures n in hs && m in hs && n != m && Queue(fc, hs - {n}) && heap[1] == m
      ensures forall x | x in hs :: x < old(|fc[..]|) && old(fc[..])[n] <= old(fc[..])[x]
      ensures forall x | x in hs && x != n :: old(fc[..])[m] <= old(fc[..])[x]
      ensures fc[..] == old(fc[..])[node := old(fc[..])[n] + old(fc[..])[m]]
      ensures dl[..] == old(dl[..])[n := node][m := node]
      ensures Order(heap[..], heapMax) == Order(old(heap[..]), old(heapMax)) + [n, m]
    {
      hide Nodes, Ordered, Holds, Total;
      ghost var h, f := heap[..], fc[..];
      n := PqRemove(fc, dl, elems, hs);
      TopIsLeast(heap[..], heapLen, fc[..], depth[..], hs - {n});
      m := heap[1];
      ghost var h1, z := heap[..], depth[..];
      OrderFrame(h1, h, old(heapLen) + 1, heapMax);
      PairBelowTotal(hs, f, n, m);
      TakeOff(n, m);
      ghost var h2 := heap[..];
      OrderGrows(h1, h2, old(heapMax), n, m);
      Join(fc, dl, elems, n, m, node);
      QueueFrame(h1, h2, heapLen, f, fc[..], z, depth[..], hs - {n}, node);
    }

    lemma MergedParts(fc: array<nat>, dl: array<nat>, elems: nat, leaves: set<nat>, hs: set<nat>, t: nat)
      requires Merged(fc, dl, elems, leaves, hs, t)
      ensures heapLen < heapMax <= heap.Length && heapMax + 2 * t == heap.Length && heapLen == |leaves| - t
        && heapLen == |hs|
      ensures t < elems && Queue(fc, hs) && Merging(Order(heap[..], heapMax), hs, fc[..], dl[..], elems, leaves, t)
    {
      hide Queue, Merging, Order;
    }

    lemma MakeMerged(fc: array<nat>, dl: array<nat>, elems: nat, leaves: set<nat>, hs: set<nat>, t: nat)
      requires heapLen < heapMax <= heap.Length && heapMax + 2 * t == heap.Length && heapLen == |leaves| - t
        && heapLen == |hs|
      requires t < elems && Queue(fc, hs) && Merging(Order(heap[..], heapMax), hs, fc[..], dl[..], elems, leaves, t)
      ensures Merged(fc, dl, elems, leaves, hs, t)
    {
      hide Queue, Merging, Order;
    }

    /** The two least frequent nodes give way to their father, in the queue too. */
    method CombineTop(fc: array<nat>, dl: array<nat>, elems: nat, node: nat, ghost hs: set<nat>) returns (n: nat, m: nat)
      requires Valid() && Fits(fc, dl, elems) && 2 <= heapLen <= heapMax - 2 && heapMax <= heap.Length && Queue(fc, hs)
      requires Below(hs, node) && elems <= node < 2 * elems && Total(hs, fc[..]) < 0x1_0000
      modifies this`heapLen, this`heapMax, heap, depth, fc, dl
      ensures heapLen == old(heapLen) - 1 && heapMax == old(heapMax) - 2
      ensures Queue(fc, hs - {n} - {m} + {node}) && LeastTwo(old(fc[..]), hs, n, m) && n < fc.Length && m < fc.Length
      ensures n < dl.Length && m < dl.Length
      ensures fc[..] == old(fc[..])[node := old(fc[..])[n] + old(fc[..])[m]]
      ensures dl[..] == old(dl[..])[n := node][m := node]
      ensures Order(heap[..], heapMax) == Order(old(heap[..]), old(heapMax)) + [n, m]
    {
      hide Nodes, Ordered, Holds, Total, Order, Queue;
      n, m := Combine(fc, dl, elems, node, hs);
      ghost var h := heap[..];
      ReplaceTop(fc, dl, elems, node, hs - {n});
      OrderFrame(heap[..], h, heapLen + 1, heapMax);
    }

    /** One turn of the loop that combines the two least frequent nodes. */
    method MergeOnce(fc: array<nat>, dl: array<nat>, elems: nat, node: nat, ghost leaves: set<nat>, ghost hs: set<nat>)
      returns (ghost hs': set<nat>)
      requires Valid() && Fits(fc, dl, elems) && heapLen >= 2 && |leaves| <= elems
      requires elems <= node && Merged(fc, dl, elems, leaves, hs, node - elems)
      requires (forall x | x in leaves :: x < fc.Length) && Total(leaves, fc[..]) < 0x1_0000
      modifies this`heapLen, this`heapMax, heap, depth, fc, dl
      ensures heapLen == old(heapLen) - 1 && Merged(fc, dl, elems, leaves, hs', node + 1 - elems)
      ensures Total(leaves, fc[..]) < 0x1_0000 && fc[..elems] == old(fc[..elems])
      ensures forall x | 0 <= x < elems && x !in leaves :: dl[x] == old(dl[x])
    {
      hide Merging, Total, Order, Merged, Queue, Below, LeastTwo;
      MergedParts(fc, dl, elems, leaves, hs, node - elems);
      ghost var t := node - elems;
      ghost var f, d, order := fc[..], dl[..], Order(heap[..], heapMax);
      assert f[..elems] == fc[..elems];
      MergingBounds(order, hs, f, d, elems, leaves, t);
      var n, m := CombineTop(fc, dl, elems, node, hs);
      hs' := MergeValues(order, hs, f, d, elems, leaves, t, n, m, node);
      MakeMerged(fc, dl, elems, leaves, hs', node + 1 - elems);
      assert fc[..][..elems] == fc[..elems];
      LengthsKept(d, dl[..], elems, node, leaves, order, hs, f, t, n, m);
    }

    // -------------------------------------------------------------- the whole tree

    /** do { ... } while (heap_len >= 2), and the root behind the others. */
    method MergeAll(fc: array<nat>, dl: array<nat>, elems: nat, ghost leaves: set<nat>)
      requires Valid() && Fits(fc, dl, elems) && heapLen >= 2 && |leaves| == heapLen <= elems
      requires (forall x | x in leaves :: x < elems) && Total(leaves, fc[..]) < 0x1_0000
      requires heapMax == heap.Length && Queue(fc, leaves)
      modifies this`heapLen, this`heapMax, heap, depth, fc, dl
      ensures heapMax + 2 * |leaves| == heap.Length + 1
      ensures Complete(Order(heap[..], heapMax), fc[..], dl[..], elems, leaves, |leaves|)
      ensures fc[..elems] == old(fc[..elems])
      ensures forall x | 0 <= x < elems && x !in leaves :: dl[x] == old(dl[x])
    {
      hide Merging, Total, Nodes, Ordered, Holds, Complete;
      var node := elems;
      ghost var hs := leaves;
      StartMerging(fc[..], dl[..], elems, leaves);
      assert Order(heap[..], heapMax) == [];
      while true
        invariant elems <= node && heapLen >= 2
        invariant Merged(fc, dl, elems, leaves, hs, node - elems)
        invariant Total(leaves, fc[..]) < 0x1_0000
        invariant fc[..elems] == old(fc[..elems])
        invariant forall x | 0 <= x < elems && x !in leaves :: dl[x] == old(dl[x])
        decreases heapLen
      {
        hs := MergeOnce(fc, dl, elems, node, leaves, hs);
        node := node + 1;
        if heapLen < 2 {
          break;
        }
      }
      LastNode(heap[..], hs);
      Finish(Order(heap[..], heapMax), hs, fc[..], dl[..], elems, leaves, node - elems, heap[1]);
      PushOne(heap[..], heapMax, heap[1]);
      heapMax := heapMax - 1;
      heap[heapMax] := heap[1];
    }

    /** build_tree before the call of gen_bitlen. */
    method BuildForest(fc: array<nat>, dl: array<nat>, elems: nat, slen: seq<nat>)
      returns (maxCode: nat, ghost forced: seq<nat>, ghost freq: seq<nat>)
      requires Valid() && Fits(fc, dl, elems) && (slen == [] || |slen| >= elems)
      requires SumTo(fc[..], elems) < 0xfffd
      modifies this, heap, depth, fc, dl
      ensures |freq| == fc.Length && Forcing(old(fc[..]), freq, forced)
      ensures forced != [] ==> |Used(freq, elems)| == 2
      ensures forced == ToForce(Largest(old(fc[..]), elems), |Used(old(fc[..]), elems)|)
      ensures maxCode < elems && freq[maxCode] != 0 && forall x | maxCode < x < elems :: freq[x] == 0
      ensures |Used(freq, elems)| >= 2 && heapMax <= heap.Length
      ensures Complete(Order(heap[..], heapMax), fc[..], dl[..], elems, Used(freq, elems), |Used(freq, elems)|)
      ensures fc[..elems] == freq[..elems]
      ensures forall x | 0 <= x < elems && freq[x] == 0 :: dl[x] == 0
      ensures optLen == old(optLen) - |forced| && staticLen == old(staticLen) - LengthsOf(slen, forced)
    {
      hide Lists, Complete, Forcing, LengthsOf, Total, SumTo, Nodes, Ordered, Holds;
      ghost var before := fc[..];
      var max := CollectSymbols(fc, dl, elems);
      ListsHolds(heap[..], heapLen, before, elems, max);
      ListsLargest(heap[..], heapLen, before, elems, max);
      maxCode, forced := ForceTwo(fc, dl, elems, slen, max);
      freq := fc[..];
      ListsNodes(heap[..], heapLen, freq, depth[..], elems, maxCode);
      ListsHolds(heap[..], heapLen, freq, elems, maxCode);
      ForcingKeeps(before, freq, forced);
      ghost var leaves := Used(freq, elems);
      Heapify(fc, dl, elems, leaves);
      ForcingSum(before, freq, forced, elems);
      TotalIsSum(freq, elems);
      MergeAll(fc, dl, elems, leaves);
    }
  }

  lemma ListsNodes(h: seq<nat>, len: nat, freq: seq<nat>, depth: seq<nat>, elems: nat, maxCode: nat)
    requires Lists(h, len, freq, elems, maxCode) && elems <= |depth|
    ensures Nodes(h, len, freq, depth) && maxCode < elems && freq[maxCode] != 0
      && forall x | maxCode < x < elems :: freq[x] == 0
  {
    forall x | 0 <= x < elems && freq[x] != 0 ensures x <= maxCode {
      assert x in h[1..len + 1];
    }
  }

  lemma ForcingKeeps(freq: seq<nat>, freq': seq<nat>, forced: seq<nat>)
    requires Forcing(freq, freq', forced)
    ensures |freq'| == |freq| && forall x | 0 <= x < |freq| && freq'[x] == 0 :: freq[x] == 0
  {
  }

  lemma LastNode(h: seq<nat>, hs: set<nat>)
    requires Holds(h, 1, hs)
    ensures hs == {h[1]}
  {
    assert h[1..2] == [h[1]];
    assert multiset(hs) == multiset{h[1]};
    assert forall x :: x in hs <==> x in multiset(hs);
  }

  lemma PushOne(h: seq<nat>, max: nat, x: nat)
    requires 1 <= max <= |h|
    ensures Order(h[max - 1 := x], max - 1) == Order(h, max) + [x]
  {
  }

  ghost function Used(freq: seq<nat>, elems: nat): (s: set<nat>)
    requires elems <= |freq|
    ensures forall x :: x in s <==> 0 <= x < elems && freq[x] != 0
  {
    set x: nat | 0 <= x < elems && freq[x] != 0
  }

  /** The largest symbol in use, or -1. */
  function Largest(freq: seq<nat>, n: nat): (m: int)
    requires n <= |freq|
    ensures -1 <= m < n
  {
    if n == 0 then -1 else if freq[n - 1] != 0 then n - 1 else Largest(freq, n - 1)
  }

  lemma {:induction false} LargestIs(freq: seq<nat>, n: nat, m: int)
    requires n <= |freq| && -1 <= m < n && (m >= 0 ==> freq[m] != 0) && forall x | m < x < n :: freq[x] == 0
    ensures Largest(freq, n) == m
  {
    if n > 0 && m < n - 1 {
      LargestIs(freq, n - 1, m);
    }
  }

  lemma ListsLargest(h: seq<nat>, len: nat, freq: seq<nat>, elems: nat, maxCode: int)
    requires Lists(h, len, freq, elems, maxCode)
    ensures elems <= |freq| && maxCode == Largest(freq, elems)
  {
    assert forall x | 0 <= x < elems && freq[x] != 0 :: x in h[1..len + 1] && x <= maxCode;
    LargestIs(freq, elems, maxCode);
  }

  /** The symbol that is forced when m is the largest one in use. */
  function NextForced(m: int): nat
    requires m >= -1
  {
    if m < 2 then m + 1 else 0
  }

  /** The symbols that get a frequency so that there are two. */
  function ToForce(m: int, count: nat): seq<nat>
    requires m >= -1
    decreases 2 - count
  {
    if count >= 2 then [] else [NextForced(m)] + ToForce(if m < 2 then m + 1 else m, count + 1)
  }

  lemma ListsHolds(h: seq<nat>, len: nat, freq: seq<nat>, elems: nat, maxCode: int)
    requires Lists(h, len, freq, elems, maxCode)
    ensures Holds(h, len, Used(freq, elems)) && |Used(freq, elems)| == len
  {
    var s := h[1..len + 1];
    DistinctIsSet(s, Used(freq, elems));
    assert multiset(s) == multiset(Used(freq, elems));
    assert |multiset(s)| == len;
  }

  lemma {:induction false} DistinctIsSet(s: seq<nat>, x: set<nat>)
    requires (forall i, k | 0 <= i < k < |s| :: s[i] != s[k]) && forall y :: y in x <==> y in s
    ensures multiset(s) == multiset(x)
  {
    if s == [] {
      assert x == {};
    } else {
      var n := |s| - 1;
      assert s == s[..n] + [s[n]];
      DistinctIsSet(s[..n], x - {s[n]});
      assert multiset(x) == multiset(x - {s[n]}) + multiset{s[n]};
    }
  }

  lemma {:induction false} TotalIsSum(freq: seq<nat>, n: nat)
    requires n <= |freq|
    ensures Total(Used(freq, n), freq) == SumTo(freq, n)
  {
    if n > 0 {
      TotalIsSum(freq, n - 1);
      if freq[n - 1] == 0 {
        assert Used(freq, n) == Used(freq, n - 1);
      } else {
        assert Used(freq, n) == Used(freq, n - 1) + {n - 1};
        BagAdd(Used(freq, n - 1), freq, n - 1);
      }
    } else {
      assert Used(freq, 0) == {};
    }
  }

  /** The total frequency of the symbols below n. */
  function SumTo(freq: seq<nat>, n: nat): nat
    requires n <= |freq|
  {
    if n == 0 then 0 else SumTo(freq, n - 1) + freq[n - 1]
  }

  lemma {:induction false} ForcingSum(freq: seq<nat>, freq': seq<nat>, forced: seq<nat>, n: nat)
    requires Forcing(freq, freq', forced) && n <= |freq|
    ensures SumTo(freq', n) <= SumTo(freq, n) + if n < 3 then n else 3
  {
    if n > 0 {
      ForcingSum(freq, freq', forced, n - 1);
    }
  }

  /** heap[1..len] holds the nodes of hs, each once. */
  ghost predicate Holds(h: seq<nat>, len: nat, hs: set<nat>) {
    len < |h| && multiset(h[1..len + 1]) == multiset(hs)
  }

  /** The nodes taken off the queue, in the order in which they were. */
  ghost function Order(h: seq<nat>, max: nat): (order: seq<nat>)
    requires max <= |h|
    ensures |order| == |h| - max && forall i | 0 <= i < |order| :: order[i] == h[|h| - 1 - i]
  {
    seq(|h| - max, i requires 0 <= i < |h| - max => h[|h| - 1 - i])
  }

  lemma OrderFrame(h: seq<nat>, h': seq<nat>, from: nat, max: nat)
    requires |h| == |h'| && from <= max <= |h| && h[from..] == h'[from..]
    ensures Order(h, max) == Order(h', max)
  {
    forall i | max <= i < |h| ensures h[i] == h'[i] {
      assert h[from..][i - from] == h'[from..][i - from];
    }
  }

  lemma OrderGrows(h: seq<nat>, h': seq<nat>, max: nat, n: nat, m: nat)
    requires 2 <= max <= |h| && h' == h[max - 1 := n][max - 2 := m]
    ensures Order(h', max - 2) == Order(h, max) + [n, m]
  {
  }

  ghost predicate Below(hs: set<nat>, node: nat) {
    forall x | x in hs :: x < node
  }

  /** n is the least frequent of the nodes hs, m the next. */
  ghost predicate LeastTwo(f: seq<nat>, hs: set<nat>, n: nat, m: nat) {
    && n in hs && m in hs && n != m && n < |f| && m < |f|
    && (forall x | x in hs :: x < |f| && f[n] <= f[x]) && forall x | x in hs && x != n :: f[m] <= f[x]
  }

  lemma MergingBounds(order: seq<nat>, hs: set<nat>, fc: seq<nat>, dl: seq<nat>, elems: nat, leaves: set<nat>, t: nat)
    requires Merging(order, hs, fc, dl, elems, leaves, t)
    ensures Below(hs, elems + t) && elems + t <= |fc| && Below(hs, |fc|) && Below(leaves, |fc|)
      && Total(hs, fc) == Total(leaves, fc)
  {
  }

  lemma PairBelowTotal(hs: set<nat>, fc: seq<nat>, n: nat, m: nat)
    requires n in hs && m in hs && n != m && forall x | x in hs :: x < |fc|
    ensures fc[n] + fc[m] <= Total(hs, fc)
  {
    TotalRemove(hs, fc, n);
    TotalRemove(hs - {n}, fc, m);
  }

  lemma LeavesKept(leaves: set<nat>, fc: seq<nat>, fc': seq<nat>, elems: nat)
    requires |fc| == |fc'| && elems <= |fc|
      && (forall x | 0 <= x < elems :: fc[x] == fc'[x]) && forall x | x in leaves :: x < elems
    ensures Total(leaves, fc) == Total(leaves, fc') && fc[..elems] == fc'[..elems]
  {
    BagFrame(leaves, fc, fc');
  }

  /** MergeStep, for the queue as a set. */
  lemma MergeValues(order: seq<nat>, hs: set<nat>, f: seq<nat>, d: seq<nat>, elems: nat, leaves: set<nat>, t: nat, n: nat, m: nat,
                    node: nat) returns (hs': set<nat>)
    requires Merging(order, hs, f, d, elems, leaves, t) && node == elems + t && node < |f| && Below(hs, node)
    requires LeastTwo(f, hs, n, m) && n < |d| && m < |d|
    ensures hs' == hs - {n} - {m} + {node} && |hs'| == |hs| - 1
    ensures Merging(order + [n, m], hs', f[node := f[n] + f[m]], d[n := node][m := node], elems, leaves, t + 1)
  {
    hide Merging;
    OneFewer(hs, n, m, node);
    MergeStep(order, hs, f, d, elems, leaves, t, n, m);
    hs' := hs - {n, m} + {node};
  }

  lemma OneFewer(hs: set<nat>, n: nat, m: nat, node: nat)
    requires n in hs && m in hs && n != m && node !in hs
    ensures hs - {n} - {m} + {node} == hs - {n, m} + {node} && |hs - {n, m} + {node}| == |hs| - 1
  {
    assert hs - {n} - {m} == hs - {n, m};
  }

  /** A merge changes neither the frequencies of symbols nor the lengths of those that are not used. */
  lemma LengthsKept(d: seq<nat>, d': seq<nat>, elems: nat, node: nat, leaves: set<nat>, order: seq<nat>, hs: set<nat>, f: seq<nat>,
                    t: nat, n: nat, m: nat)
    requires Merging(order, hs, f, d, elems, leaves, t) && LeastTwo(f, hs, n, m) && node == elems + t && node < |f|
    requires n < |d| && m < |d| && elems <= |d| && d' == d[n := node][m := node]
    ensures forall x | 0 <= x < elems && x !in leaves :: d'[x] == d[x]
    ensures Total(leaves, f[node := f[n] + f[m]]) == Total(leaves, f) && f[node := f[n] + f[m]][..elems] == f[..elems]
  {
    hide Linked, Summed, Increasing, Bounded;
    LeavesKept(leaves, f, f[node := f[n] + f[m]], elems);
  }

  /** The queue does not depend on the rest of the array, nor on a node that it does not hold. */
  lemma QueueFrame(h: seq<nat>, h': seq<nat>, len: nat, fc: seq<nat>, fc': seq<nat>, depth: seq<nat>, depth': seq<nat>,
                   hs: set<nat>, node: nat)
    requires Nodes(h, len, fc, depth) && Ordered(h, len, fc, depth, 1) && Holds(h, len, hs)
    requires |h'| == |h| && (forall i | 0 <= i <= len :: h'[i] == h[i])
    requires |fc'| == |fc| && |depth'| == |depth| && node !in hs && node < |fc| && node < |depth|
    requires fc' == fc[node := fc'[node]] && depth' == depth[node := depth'[node]]
    ensures Nodes(h', len, fc', depth') && Ordered(h', len, fc', depth', 1) && Holds(h', len, hs)
  {
    forall i | 1 <= i <= len ensures h[i] != node {
      HoldsMember(h, len, hs, i);
    }
    assert h'[1..len + 1] == h[1..len + 1];
    forall j | 2 <= j <= len ensures Smaller(fc', depth', h'[j / 2], h'[j]) {
      assert Smaller(fc, depth, h[j / 2], h[j]);
    }
  }

  lemma OrderedLeaves(h: seq<nat>, len: nat, freq: seq<nat>, depth: seq<nat>)
    requires Nodes(h, len, freq, depth) && len >= 2
    ensures Ordered(h, len, freq, depth, len / 2 + 1)
  {
  }

  lemma HoldsRearranged(h: seq<nat>, h0: seq<nat>, len: nat, hs: set<nat>)
    requires Rearranged(h, h0, len) && Holds(h0, len, hs)
    ensures Holds(h, len, hs) && h[len + 1..] == h0[len + 1..]
  {
  }

  lemma HoldsMember(h: seq<nat>, len: nat, hs: set<nat>, i: nat)
    requires Holds(h, len, hs) && 1 <= i <= len
    ensures h[i] in hs
  {
    assert h[1..len + 1][i - 1] in multiset(h[1..len + 1]);
  }

  lemma HoldsIndex(h: seq<nat>, len: nat, hs: set<nat>, x: nat) returns (i: nat)
    requires Holds(h, len, hs) && x in hs
    ensures 1 <= i <= len && h[i] == x
  {
    assert x in multiset(h[1..len + 1]);
    assert x in h[1..len + 1];
    var k :| 0 <= k < len && h[1..len + 1][k] == x;
    i := k + 1;
  }

  lemma TopIsLeast(h: seq<nat>, len: nat, freq: seq<nat>, depth: seq<nat>, hs: set<nat>)
    requires Nodes(h, len, freq, depth) && Ordered(h, len, freq, depth, 1) && Holds(h, len, hs) && len >= 1
    ensures h[1] in hs && forall x | x in hs :: x < |freq| && freq[h[1]] <= freq[x]
  {
    HoldsMember(h, len, hs, 1);
    forall x | x in hs ensures x < |freq| && freq[h[1]] <= freq[x] {
      var i := HoldsIndex(h, len, hs, x);
      FirstIsLeast(h, len, freq, depth, i);
    }
  }

  lemma RemoveTop(h: seq<nat>, len: nat, freq: seq<nat>, depth: seq<nat>, hs: set<nat>)
    requires Nodes(h, len, freq, depth) && Ordered(h, len, freq, depth, 1) && Holds(h, len, hs) && len >= 2
    ensures var h' := h[1 := h[len]];
      && Nodes(h', len - 1, freq, depth) && Ordered(h', len - 1, freq, depth, 2) && Holds(h', len - 1, hs - {h[1]})
  {
    var h' := h[1 := h[len]];
    var s := h[1..len + 1];
    assert s == [h[1]] + h[2..len] + [h[len]];
    assert h'[1..len] == [h[len]] + h[2..len];
    assert multiset(h'[1..len]) == multiset(s) - multiset{h[1]};
    assert h[1] in hs by { HoldsMember(h, len, hs, 1); }
    assert multiset(hs) - multiset{h[1]} == multiset(hs - {h[1]});
  }

  lemma ChangeTop(h: seq<nat>, len: nat, freq: seq<nat>, depth: seq<nat>, hs: set<nat>, node: nat)
    requires Nodes(h, len, freq, depth) && Ordered(h, len, freq, depth, 1) && Holds(h, len, hs) && len >= 1
    requires node < |freq| && node < |depth| && node !in hs && h[1] in hs
    ensures var h' := h[1 := node];
      && Nodes(h', len, freq, depth) && Ordered(h', len, freq, depth, 2) && Holds(h', len, hs - {h[1]} + {node})
  {
    var s := h[1..len + 1];
    assert s == [h[1]] + h[2..len + 1];
    assert h[1 := node][1..len + 1] == [node] + h[2..len + 1];
    assert multiset(hs - {h[1]} + {node}) == multiset(hs) - multiset{h[1]} + multiset{node};
  }

  function LengthOf(slen: seq<nat>, x: nat): nat {
    if x < |slen| then slen[x] else 0
  }

  function LengthsOf(slen: seq<nat>, xs: seq<nat>): nat {
    if xs == [] then 0 else LengthsOf(slen, xs[..|xs| - 1]) + LengthOf(slen, xs[|xs| - 1])
  }

  lemma LengthsNone(slen: seq<nat>)
    ensures LengthsOf(slen, []) == 0
  {
  }

  lemma LengthsStep(slen: seq<nat>, xs: seq<nat>, x: nat)
    ensures LengthsOf(slen, xs + [x]) == LengthsOf(slen, xs) + LengthOf(slen, x)
  {
    assert (xs + [x])[..|xs|] == xs;
  }

  /** heap[1..len] lists the symbols of non-zero frequency, each once, and maxCode is the largest of them. */
  ghost predicate Lists(h: seq<nat>, len: nat, freq: seq<nat>, elems: nat, maxCode: int) {
    && elems <= |freq| && len < |h|
    && (forall i | 1 <= i <= len :: h[i] < elems && freq[h[i]] != 0 && h[i] <= maxCode)
    && (forall i, k | 1 <= i < k <= len :: h[i] != h[k])
    && (forall x | 0 <= x < elems && freq[x] != 0 :: x in h[1..len + 1])
    && (maxCode == -1 ==> len == 0)
    && (maxCode != -1 ==> 0 <= maxCode < elems && freq[maxCode] != 0)
  }

  lemma ListsNone(h: seq<nat>, freq: seq<nat>)
    requires h != []
    ensures Lists(h, 0, freq, 0, -1)
  {
  }

  lemma NextSymbol(h: seq<nat>, len: nat, freq: seq<nat>, n: nat, maxCode: int)
    requires Lists(h, len, freq, n, maxCode) && n < |freq| && len + 1 < |h|
    ensures freq[n] != 0 ==> Lists(h[len + 1 := n], len + 1, freq, n + 1, n)
    ensures freq[n] == 0 ==> Lists(h, len, freq, n + 1, maxCode)
  {
    var h' := h[len + 1 := n];
    assert h'[1..len + 2] == h[1..len + 1] + [n];
  }

  /** With fewer than two symbols listed, the one that the loop picks is not among them. */
  lemma AddSymbol(h: seq<nat>, len: nat, freq: seq<nat>, elems: nat, maxCode: int, node: nat)
    requires Lists(h, len, freq, elems, maxCode) && len < 2 && len + 1 < |h| && 3 <= elems
    requires node == if maxCode < 2 then maxCode + 1 else 0
    ensures freq[node] == 0
    ensures Lists(h[len + 1 := node], len + 1, freq[node := 1], elems, if maxCode < 2 then maxCode + 1 else maxCode)
  {
    var h', freq' := h[len + 1 := node], freq[node := 1];
    forall x | 0 <= x < elems && freq'[x] != 0 ensures x in h'[1..len + 2] {
      if x == node {
        assert h'[1..len + 2][len] == x;
      } else {
        assert x in h[1..len + 1];
        assert h'[1..len + 2] == h[1..len + 1] + [node];
      }
    }
  }

  /** freq' is freq with frequency 1 for some symbols that had none; they are at most 2 and so have no extra bits. */
  ghost predicate Forcing(freq: seq<nat>, freq': seq<nat>, forced: seq<nat>) {
    && |freq'| == |freq| && |forced| <= 2
    && (forall i | 0 <= i < |forced| :: forced[i] <= 2 && forced[i] < |freq| && freq[forced[i]] == 0)
    && (forall i, k | 0 <= i < k < |forced| :: forced[i] != forced[k])
    && (forall x | 0 <= x < |freq| :: freq'[x] == if x in forced then 1 else freq[x])
  }

  lemma ForcingNone(freq: seq<nat>)
    ensures Forcing(freq, freq, [])
  {
  }

  lemma ListsBounds(h: seq<nat>, len: nat, freq: seq<nat>, elems: nat, maxCode: int)
    requires Lists(h, len, freq, elems, maxCode)
    ensures elems <= |freq| && len < |h| && -1 <= maxCode < elems && (len > 0 ==> maxCode >= 0)
  {
  }

  lemma ForcingStep(freq: seq<nat>, freq': seq<nat>, forced: seq<nat>, node: nat)
    requires Forcing(freq, freq', forced) && |forced| < 2 && node <= 2 && node < |freq| && freq'[node] == 0
    ensures Forcing(freq, freq'[node := 1], forced + [node])
    ensures (forced + [node])[..|forced|] == forced
  {
  }
}
