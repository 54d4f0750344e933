/** The priority queue of src/ext/zlib/trees.c: nodes in heap[1..len], the sons of heap[k] at 2k and 2k + 1. */
module Heap {

  /** The macro smaller(): by frequency, the depth of the subtree breaking ties. */
  predicate Smaller(freq: seq<nat>, depth: seq<nat>, n: nat, m: nat)
    requires n < |freq| && n < |depth| && m < |freq| && m < |depth|
  {
    freq[n] < freq[m] || (freq[n] == freq[m] && depth[n] <= depth[m])
  }

  ghost predicate Nodes(h: seq<nat>, len: nat, freq: seq<nat>, depth: seq<nat>) {
    len < |h| && forall j | 1 <= j <= len :: h[j] < |freq| && h[j] < |depth|
  }

  /** Every father from position lo on is no larger than its sons. */
  ghost predicate Ordered(h: seq<nat>, len: nat, freq: seq<nat>, depth: seq<nat>, lo: nat)
    requires Nodes(h, len, freq, depth) && lo >= 1
  {
    forall j | 2 * lo <= j <= len :: Smaller(freq, depth, h[j / 2], h[j])
  }

  /** The same but for the sons of position k, which only have to be no smaller than its father. */
  ghost predicate OrderedBut(h: seq<nat>, len: nat, freq: seq<nat>, depth: seq<nat>, lo: nat, k: nat)
    requires Nodes(h, len, freq, depth) && lo >= 1
  {
    && (forall j | 2 * lo <= j <= len && j / 2 != k :: Smaller(freq, depth, h[j / 2], h[j]))
    && (forall j | 2 * lo <= j <= len && j / 2 == k && k >= 2 * lo :: Smaller(freq, depth, h[k / 2], h[j]))
  }

  /** Moving the smallest son up leaves the only disorder one level further down. */
  lemma DownOneLevel(h: seq<nat>, len: nat, freq: seq<nat>, depth: seq<nat>, lo: nat, k: nat, j: nat)
    requires Nodes(h, len, freq, depth) && 1 <= lo <= k && IsLeastSon(h, len, freq, depth, k, j)
    requires OrderedBut(h, len, freq, depth, lo, k)
    requires !Smaller(freq, depth, h[k], h[j])
    ensures var h' := h[k := h[j]][j := h[k]];
      Nodes(h', len, freq, depth) && OrderedBut(h', len, freq, depth, lo, j)
  {
    var h' := h[k := h[j]][j := h[k]];
    forall i | 2 * lo <= i <= len && i / 2 != j ensures Smaller(freq, depth, h'[i / 2], h'[i]) {
      if i == k {
        assert Smaller(freq, depth, h[k / 2], h[j]);
      } else if i / 2 != k {
        assert Smaller(freq, depth, h[i / 2], h[i]);
      }
    }
    forall i | 2 * lo <= i <= len && i / 2 == j && j >= 2 * lo ensures Smaller(freq, depth, h'[j / 2], h'[i]) {
      assert Smaller(freq, depth, h[i / 2], h[i]);
    }
  }

  /** The smaller son of position k, as the first step of the loop of pqdownheap() selects it. */
  ghost predicate IsLeastSon(h: seq<nat>, len: nat, freq: seq<nat>, depth: seq<nat>, k: nat, j: nat)
    requires Nodes(h, len, freq, depth)
  {
    && 2 <= j <= len && j / 2 == k
    && forall i | 2 <= i <= len && i / 2 == k :: Smaller(freq, depth, h[j], h[i])
  }

  lemma LeastSon(h: seq<nat>, len: nat, freq: seq<nat>, depth: seq<nat>, k: nat)
    requires Nodes(h, len, freq, depth) && k >= 1 && 2 * k <= len
    ensures var j := 2 * k;
      IsLeastSon(h, len, freq, depth, k, if j < len && Smaller(freq, depth, h[j + 1], h[j]) then j + 1 else j)
  {
    assert forall i | 2 <= i <= len && i / 2 == k :: i == 2 * k || i == 2 * k + 1;
  }

  lemma StopHere(h: seq<nat>, len: nat, freq: seq<nat>, depth: seq<nat>, lo: nat, k: nat)
    requires Nodes(h, len, freq, depth) && 1 <= lo <= k <= len && OrderedBut(h, len, freq, depth, lo, k)
    requires 2 * k > len || exists j: nat :: IsLeastSon(h, len, freq, depth, k, j) && Smaller(freq, depth, h[k], h[j])
    ensures Ordered(h, len, freq, depth, lo)
  {
  }

  lemma StartHere(h: seq<nat>, len: nat, freq: seq<nat>, depth: seq<nat>, k: nat)
    requires Nodes(h, len, freq, depth) && 1 <= k && Ordered(h, len, freq, depth, k + 1)
    ensures OrderedBut(h, len, freq, depth, k, k)
  {
  }

  /** pqdownheap(): on entry the sub-heaps below position k are in order, on exit the one at k is too. */
  method PqDownHeap(heap: array<nat>, len: nat, freq: array<nat>, depth: array<nat>, k0: nat)
    requires heap != freq && heap != depth
    requires Nodes(heap[..], len, freq[..], depth[..]) && 1 <= k0 <= len
    requires Ordered(heap[..], len, freq[..], depth[..], k0 + 1)
    modifies heap
    ensures Nodes(heap[..], len, freq[..], depth[..])
    ensures Ordered(heap[..], len, freq[..], depth[..], k0)
    ensures Rearranged(heap[..], old(heap[..]), len)
  {
    hide Ordered, OrderedBut, Smaller, IsLeastSon;
    ghost var h0 := heap[..];
    ghost var h := h0;
    assert heap[1..len + 1] == h0[1..len + 1] && heap[len + 1..] == h0[len + 1..];
    assert Rearranged(h0, h0, len);
    hide Rearranged;
    ghost var f, d := freq[..], depth[..];
    var v := heap[k0];
    var k := k0;
    var j := 2 * k;
    StartHere(h, len, f, d, k0);
    while j <= len
      invariant k0 <= k <= len && j == 2 * k
      invariant |h| == heap.Length && h == heap[..][k := v]
      invariant Nodes(h, len, f, d) && OrderedBut(h, len, f, d, k0, k)
      invariant Rearranged(h, h0, len)
    {
      LeastSon(h, len, f, d, k);
      assert h[j] == heap[j] && (j < len ==> h[j + 1] == heap[j + 1]);
      if j < len && Smaller(freq[..], depth[..], heap[j + 1], heap[j]) {
        j := j + 1;
      }
      assert IsLeastSon(h, len, f, d, k, j);
      if Smaller(freq[..], depth[..], v, heap[j]) {
        break;
      }
      DownOneLevel(h, len, f, d, k0, k, j);
      SwapKeeps(h, h0, len, k, j);
      h := h[k := h[j]][j := v];
      heap[k] := heap[j];
      k := j;
      j := 2 * k;
    }
    StopHere(h, len, f, d, k0, k);
    heap[k] := v;
    assert heap[..] == h;
  }

  /** The nodes of the queue in another order, and the rest of the array as it was. */
  ghost predicate Rearranged(h: seq<nat>, h0: seq<nat>, len: nat) {
    && |h| == |h0| && len < |h|
    && multiset(h[1..len + 1]) == multiset(h0[1..len + 1]) && h[len + 1..] == h0[len + 1..]
  }

  lemma SwapKeeps(h: seq<nat>, h0: seq<nat>, len: nat, k: nat, j: nat)
    requires Rearranged(h, h0, len) && 1 <= k < j <= len
    ensures Rearranged(h[k := h[j]][j := h[k]], h0, len)
  {
    var s := h[1..len + 1];
    assert h[k := h[j]][j := h[k]][1..len + 1] == s[k - 1 := s[j - 1]][j - 1 := s[k - 1]];
  }

  /** The first node is a least frequent one. */
  lemma {:induction false} FirstIsLeast(h: seq<nat>, len: nat, freq: seq<nat>, depth: seq<nat>, i: nat)
    requires Nodes(h, len, freq, depth) && Ordered(h, len, freq, depth, 1) && 1 <= i <= len
    ensures freq[h[1]] <= freq[h[i]]
    decreases i
  {
    if i > 1 {
      FirstIsLeast(h, len, freq, depth, i / 2);
      assert Smaller(freq, depth, h[i / 2], h[i]);
    }
  }
}
