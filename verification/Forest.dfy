/** The loop of build_tree (src/ext/zlib/trees.c) on values: which nodes are still in the heap, which have been taken off
    and in what order, and what each merge keeps. `order` is heap[heap_max..] read backwards. */
module Forest {
  import opened Bits
  import opened Optimal
  import opened PairTree

  // ---------------------------------------------------------------- frequencies of a set of nodes

  ghost function FreqBag(nodes: set<nat>, fc: seq<nat>): multiset<nat>
    requires forall x | x in nodes :: x < |fc|
    decreases nodes
  {
    if nodes == {} then multiset{}
    else
      var x :| x in nodes;
      FreqBag(nodes - {x}, fc) + multiset{fc[x]}
  }

  ghost function Total(nodes: set<nat>, fc: seq<nat>): nat
    requires forall x | x in nodes :: x < |fc|
    decreases nodes
  {
    if nodes == {} then 0
    else
      var x :| x in nodes;
      Total(nodes - {x}, fc) + fc[x]
  }

  lemma {:induction false} BagRemove(nodes: set<nat>, fc: seq<nat>, y: nat)
    requires y in nodes && forall x | x in nodes :: x < |fc|
    ensures FreqBag(nodes, fc) == FreqBag(nodes - {y}, fc) + multiset{fc[y]}
    ensures Total(nodes, fc) == Total(nodes - {y}, fc) + fc[y]
    decreases nodes
  {
    hide Total;
    var x :| x in nodes && FreqBag(nodes, fc) == FreqBag(nodes - {x}, fc) + multiset{fc[x]};
    if x != y {
      BagRemove(nodes - {x}, fc, y);
      BagRemove(nodes - {y}, fc, x);
      assert nodes - {x} - {y} == nodes - {y} - {x};
    }
    TotalRemove(nodes, fc, y);
  }

  lemma {:induction false} TotalRemove(nodes: set<nat>, fc: seq<nat>, y: nat)
    requires y in nodes && forall x | x in nodes :: x < |fc|
    ensures Total(nodes, fc) == Total(nodes - {y}, fc) + fc[y]
    decreases nodes
  {
    var x :| x in nodes && Total(nodes, fc) == Total(nodes - {x}, fc) + fc[x];
    if x != y {
      TotalRemove(nodes - {x}, fc, y);
      TotalRemove(nodes - {y}, fc, x);
      assert nodes - {x} - {y} == nodes - {y} - {x};
    }
  }

  lemma {:induction false} BagAdd(nodes: set<nat>, fc: seq<nat>, y: nat)
    requires y !in nodes && y < |fc| && forall x | x in nodes :: x < |fc|
    ensures FreqBag(nodes + {y}, fc) == FreqBag(nodes, fc) + multiset{fc[y]}
    ensures Total(nodes + {y}, fc) == Total(nodes, fc) + fc[y]
  {
    BagRemove(nodes + {y}, fc, y);
    assert nodes + {y} - {y} == nodes;
  }

  lemma {:induction false} BagFrame(nodes: set<nat>, fc: seq<nat>, fc': seq<nat>)
    requires forall x | x in nodes :: x < |fc| && x < |fc'| && fc[x] == fc'[x]
    ensures FreqBag(nodes, fc) == FreqBag(nodes, fc') && Total(nodes, fc) == Total(nodes, fc')
    decreases nodes
  {
    if y :| y in nodes {
      BagRemove(nodes, fc, y);
      BagRemove(nodes, fc', y);
      BagFrame(nodes - {y}, fc, fc');
    }
  }

  lemma {:induction false} BagMember(nodes: set<nat>, fc: seq<nat>, w: nat)
    requires forall x | x in nodes :: x < |fc|
    ensures w in FreqBag(nodes, fc) <==> exists x :: x in nodes && fc[x] == w
    decreases nodes
  {
    if y :| y in nodes {
      BagRemove(nodes, fc, y);
      BagMember(nodes - {y}, fc, w);
    }
  }

  // ---------------------------------------------------------------- the state of the loop

  /** Where the nodes are after t merges. */
  ghost predicate Listed(order: seq<nat>, hs: set<nat>, elems: nat, leaves: set<nat>, t: nat) {
    && |order| == 2 * t
    && (forall x | x in leaves :: x < elems)
    && (forall i, k | 0 <= i < k < |order| :: order[i] != order[k])
    && (forall i | 0 <= i < |order| :: order[i] !in hs)
    && (forall x | x in hs :: x in leaves || elems <= x < elems + t)
    && (forall i | 0 <= i < |order| :: order[i] in leaves || elems <= order[i] < elems + t)
    && (forall x | x in leaves || elems <= x < elems + t :: x in hs || x in order)
    && (forall i | 0 <= i < |order| && order[i] >= elems :: 2 * (order[i] - elems) + 2 <= i)
  }

  /** The father of two merged nodes. */
  ghost predicate Linked(order: seq<nat>, dl: seq<nat>, elems: nat) {
    forall i | 0 <= i < |order| :: order[i] < |dl| && dl[order[i]] == elems + i / 2
  }

  ghost predicate Summed(order: seq<nat>, fc: seq<nat>, elems: nat, t: nat) {
    && elems + t <= |fc| && |order| >= 2 * t
    && (forall i | 0 <= i < |order| :: order[i] < |fc|)
    && (forall j | 0 <= j < t :: fc[elems + j] == fc[order[2 * j]] + fc[order[2 * j + 1]])
  }

  /** Nodes leave the heap by increasing frequency. */
  ghost predicate Increasing(order: seq<nat>, hs: set<nat>, fc: seq<nat>) {
    && (forall i | 0 <= i < |order| :: order[i] < |fc|) && (forall x | x in hs :: x < |fc|)
    && (forall i, k | 0 <= i < k < |order| :: fc[order[i]] <= fc[order[k]])
    && (forall i, x | 0 <= i < |order| && x in hs :: fc[order[i]] <= fc[x])
  }

  ghost function Spent(order: seq<nat>, fc: seq<nat>): nat
    requires forall i | 0 <= i < |order| :: order[i] < |fc|
  {
    if order == [] then 0 else Spent(order[..|order| - 1], fc) + fc[order[|order| - 1]]
  }

  /** What the merges so far have cost is unavoidable. */
  ghost predicate Bounded(order: seq<nat>, hs: set<nat>, fc: seq<nat>, leaves: set<nat>)
    requires forall i | 0 <= i < |order| :: order[i] < |fc|
    requires forall x | x in hs || x in leaves :: x < |fc|
  {
    forall c: nat | LowerBound(FreqBag(hs, fc), c) :: LowerBound(FreqBag(leaves, fc), c + Spent(order, fc))
  }

  /** Everything that a merge keeps. */
  ghost predicate Merging(order: seq<nat>, hs: set<nat>, fc: seq<nat>, dl: seq<nat>, elems: nat, leaves: set<nat>, t: nat) {
    && Listed(order, hs, elems, leaves, t) && Linked(order, dl, elems) && Summed(order, fc, elems, t)
    && Increasing(order, hs, fc) && Bounded(order, hs, fc, leaves) && Total(hs, fc) == Total(leaves, fc)
  }

  // ---------------------------------------------------------------- one merge

  lemma StartMerging(fc: seq<nat>, dl: seq<nat>, elems: nat, leaves: set<nat>)
    requires elems <= |fc| && forall x | x in leaves :: x < elems
    ensures Merging([], leaves, fc, dl, elems, leaves, 0)
  {
  }

  lemma ListedStep(order: seq<nat>, hs: set<nat>, elems: nat, leaves: set<nat>, t: nat, n: nat, m: nat)
    requires Listed(order, hs, elems, leaves, t) && n in hs && m in hs && n != m
    ensures Listed(order + [n, m], hs - {n, m} + {elems + t}, elems, leaves, t + 1)
  {
    var order', hs' := order + [n, m], hs - {n, m} + {elems + t};
    forall x | x in leaves || elems <= x < elems + t + 1 ensures x in hs' || x in order' {
      if x == n {
        assert order'[2 * t] == x;
      } else if x == m {
        assert order'[2 * t + 1] == x;
      } else if x in order {
        var i :| 0 <= i < |order| && order[i] == x;
        assert order'[i] == x;
      }
    }
  }

  lemma LinkedStep(order: seq<nat>, hs: set<nat>, dl: seq<nat>, elems: nat, leaves: set<nat>, t: nat, n: nat, m: nat)
    requires Listed(order, hs, elems, leaves, t) && Linked(order, dl, elems) && n in hs && m in hs && n != m
    requires n < |dl| && m < |dl|
    ensures Linked(order + [n, m], dl[n := elems + t][m := elems + t], elems)
  {
  }

  lemma SummedStep(order: seq<nat>, hs: set<nat>, fc: seq<nat>, elems: nat, leaves: set<nat>, t: nat, n: nat, m: nat)
    requires Listed(order, hs, elems, leaves, t) && Summed(order, fc, elems, t) && n in hs && m in hs && n != m
    requires elems + t < |fc|
    ensures Summed(order + [n, m], fc[elems + t := fc[n] + fc[m]], elems, t + 1)
  {
  }

  lemma IncreasingStep(order: seq<nat>, hs: set<nat>, fc: seq<nat>, elems: nat, leaves: set<nat>, t: nat, n: nat, m: nat)
    requires Listed(order, hs, elems, leaves, t) && Increasing(order, hs, fc) && n in hs && m in hs && n != m
    requires elems + t < |fc|
    requires forall x | x in hs :: fc[n] <= fc[x]
    requires forall x | x in hs && x != n :: fc[m] <= fc[x]
    ensures Increasing(order + [n, m], hs - {n, m} + {elems + t}, fc[elems + t := fc[n] + fc[m]])
  {
    var order', hs', fc' := order + [n, m], hs - {n, m} + {elems + t}, fc[elems + t := fc[n] + fc[m]];
    assert forall i | 0 <= i < |order'| :: fc'[order'[i]] == fc[order'[i]];
  }

  lemma {:induction false} SpentFrame(order: seq<nat>, fc: seq<nat>, fc': seq<nat>)
    requires forall i | 0 <= i < |order| :: order[i] < |fc| && order[i] < |fc'| && fc[order[i]] == fc'[order[i]]
    ensures Spent(order, fc) == Spent(order, fc')
  {
    if order != [] {
      SpentFrame(order[..|order| - 1], fc, fc');
    }
  }

  lemma SpentTwo(order: seq<nat>, n: nat, m: nat, fc: seq<nat>)
    requires n < |fc| && m < |fc| && forall i | 0 <= i < |order| :: order[i] < |fc|
    ensures Spent(order + [n, m], fc) == Spent(order, fc) + fc[n] + fc[m]
  {
    assert (order + [n, m])[..|order| + 1] == order + [n];
    assert (order + [n])[..|order|] == order;
  }

  /** The bag of frequencies after two nodes have been replaced by their father. */
  lemma BagMerge(hs: set<nat>, fc: seq<nat>, n: nat, m: nat, node: nat)
    requires n in hs && m in hs && n != m && node !in hs && node < |fc| && forall x | x in hs :: x < |fc|
    ensures var fc' := fc[node := fc[n] + fc[m]];
      && FreqBag(hs - {n, m} + {node}, fc') == FreqBag(hs, fc) - multiset{fc[n]} - multiset{fc[m]} + multiset{fc[n] + fc[m]}
      && Total(hs - {n, m} + {node}, fc') == Total(hs, fc)
  {
    hide FreqBag, Total;
    var fc' := fc[node := fc[n] + fc[m]];
    BagRemove(hs, fc, n);
    BagRemove(hs - {n}, fc, m);
    assert hs - {n} - {m} == hs - {n, m};
    BagFrame(hs - {n, m}, fc, fc');
    BagAdd(hs - {n, m}, fc', node);
  }

  lemma LeastPair(hs: set<nat>, fc: seq<nat>, n: nat, m: nat)
    requires n in hs && m in hs && n != m && forall x | x in hs :: x < |fc|
    requires forall x | x in hs :: fc[n] <= fc[x]
    requires forall x | x in hs && x != n :: fc[m] <= fc[x]
    ensures TwoLeast(FreqBag(hs, fc), fc[n], fc[m])
  {
    hide FreqBag;
    BagRemove(hs, fc, n);
    BagRemove(hs - {n}, fc, m);
    forall w | w in FreqBag(hs, fc) ensures fc[n] <= w {
      BagMember(hs, fc, w);
    }
    assert FreqBag(hs, fc) - multiset{fc[n]} == FreqBag(hs - {n}, fc);
    forall w | w in FreqBag(hs - {n}, fc) ensures fc[m] <= w {
      BagMember(hs - {n}, fc, w);
    }
  }

  lemma BoundedStep(order: seq<nat>, hs: set<nat>, fc: seq<nat>, elems: nat, leaves: set<nat>, t: nat, n: nat, m: nat)
    requires Listed(order, hs, elems, leaves, t) && Increasing(order, hs, fc) && elems + t < |fc|
    requires Bounded(order, hs, fc, leaves) && n in hs && m in hs && n != m
    requires forall x | x in hs :: fc[n] <= fc[x]
    requires forall x | x in hs && x != n :: fc[m] <= fc[x]
    ensures Bounded(order + [n, m], hs - {n, m} + {elems + t}, fc[elems + t := fc[n] + fc[m]], leaves)
  {
    hide FreqBag, Total, LowerBound, Spent, Increasing;
    var order', hs', fc' := order + [n, m], hs - {n, m} + {elems + t}, fc[elems + t := fc[n] + fc[m]];
    assert forall x | x in hs :: x < |fc| by { IncreasingBounds(order, hs, fc); }
    assert forall i | 0 <= i < |order| :: order[i] < |fc| by { IncreasingBounds(order, hs, fc); }
    forall c: nat | LowerBound(FreqBag(hs', fc'), c)
      ensures LowerBound(FreqBag(leaves, fc'), c + Spent(order', fc'))
    {
      BagMerge(hs, fc, n, m, elems + t);
      LeastPair(hs, fc, n, m);
      LowerBoundStep(FreqBag(hs, fc), fc[n], fc[m], c);
      assert LowerBound(FreqBag(leaves, fc), c + fc[n] + fc[m] + Spent(order, fc));
      BagFrame(leaves, fc, fc');
      SpentTwo(order, n, m, fc);
      SpentFrame(order', fc, fc');
    }
  }

  lemma IncreasingBounds(order: seq<nat>, hs: set<nat>, fc: seq<nat>)
    requires Increasing(order, hs, fc)
    ensures (forall i | 0 <= i < |order| :: order[i] < |fc|) && (forall x | x in hs :: x < |fc|)
  {
  }

  lemma MergeStep(order: seq<nat>, hs: set<nat>, fc: seq<nat>, dl: seq<nat>, elems: nat, leaves: set<nat>, t: nat, n: nat, m: nat)
    requires Merging(order, hs, fc, dl, elems, leaves, t) && n in hs && m in hs && n != m
    requires n < |dl| && m < |dl| && elems + t < |fc|
    requires forall x | x in hs :: fc[n] <= fc[x]
    requires forall x | x in hs && x != n :: fc[m] <= fc[x]
    ensures Merging(order + [n, m], hs - {n, m} + {elems + t}, fc[elems + t := fc[n] + fc[m]],
                    dl[n := elems + t][m := elems + t], elems, leaves, t + 1)
  {
    ListedStep(order, hs, elems, leaves, t, n, m);
    LinkedStep(order, hs, dl, elems, leaves, t, n, m);
    SummedStep(order, hs, fc, elems, leaves, t, n, m);
    IncreasingStep(order, hs, fc, elems, leaves, t, n, m);
    BoundedStep(order, hs, fc, elems, leaves, t, n, m);
    BagMerge(hs, fc, n, m, elems + t);
    BagFrame(leaves, fc, fc[elems + t := fc[n] + fc[m]]);
    hide *;
  }

  // ---------------------------------------------------------------- the finished tree

  /** What is left in heap[heap_max..] when one node remains: every node once, the root last. */
  ghost predicate Complete(order: seq<nat>, fc: seq<nat>, dl: seq<nat>, elems: nat, leaves: set<nat>, n: nat) {
    && n >= 2 && |leaves| == n && |order| == 2 * n - 1
    && (forall x | x in leaves :: x < elems && x in order)
    && (forall i, k | 0 <= i < k < |order| :: order[i] != order[k])
    && (forall i | 0 <= i < |order| :: order[i] in leaves || elems <= order[i] < elems + n - 1)
    && (forall x | elems <= x < elems + n - 1 :: x in order)
    && (forall i | 0 <= i < |order| && order[i] >= elems :: 2 * (order[i] - elems) + 2 <= i)
    && Linked(order[..2 * n - 2], dl, elems) && Summed(order, fc, elems, n - 1)
    && (forall i, k | 0 <= i < k < |order| :: fc[order[i]] <= fc[order[k]])
    && LowerBound(FreqBag(leaves, fc), Spent(order[..2 * n - 2], fc))
  }

  lemma Finish(order: seq<nat>, hs: set<nat>, fc: seq<nat>, dl: seq<nat>, elems: nat, leaves: set<nat>, t: nat, root: nat)
    requires Merging(order, hs, fc, dl, elems, leaves, t) && hs == {root} && t + 1 == |leaves| && t >= 1
    ensures Complete(order + [root], fc, dl, elems, leaves, t + 1)
  {
    hide LowerBound, FreqBag, Total, Spent;
    var all := order + [root];
    assert all[..2 * t] == order;
    forall x | x in leaves || elems <= x < elems + t ensures x in all {
      if x in hs {
        assert all[2 * t] == x;
      } else {
        var i :| 0 <= i < |order| && order[i] == x;
        assert all[i] == x;
      }
    }
    NothingBelowZero(FreqBag(hs, fc));
    assert LowerBound(FreqBag(leaves, fc), 0 + Spent(order, fc));
    RootIsLast(order, hs, elems, leaves, t, root);
  }

  lemma NothingBelowZero(W: multiset<nat>)
    ensures LowerBound(W, 0)
  {
  }

  /** The last node is the last father: all the others have been taken off. */
  lemma RootIsLast(order: seq<nat>, hs: set<nat>, elems: nat, leaves: set<nat>, t: nat, root: nat)
    requires Listed(order, hs, elems, leaves, t) && hs == {root} && t >= 1
    ensures root == elems + t - 1
  {
    forall i | 0 <= i < |order| ensures order[i] != elems + t - 1 {
    }
    assert elems + t - 1 in hs;
  }

  /** The position of a node. */
  ghost function Position(order: seq<nat>, x: nat): (i: nat)
    requires x in order
    ensures i < |order| && order[i] == x
  {
    var i :| 0 <= i < |order| && order[i] == x;
    i
  }

  /** The position of the father of each position. */
  ghost function Ups(order: seq<nat>, elems: nat, n: nat): (up: seq<nat>)
    requires n >= 1 && forall x | elems <= x < elems + n - 1 :: x in order
    ensures |up| == 2 * n - 2
    ensures forall i | 0 <= i < |up| :: up[i] < |order| && order[up[i]] == elems + i / 2
  {
    seq(2 * n - 2, i requires 0 <= i < 2 * n - 2 => Position(order, elems + i / 2))
  }

  ghost function OrderFreqs(order: seq<nat>, fc: seq<nat>): (f: seq<nat>)
    requires forall i | 0 <= i < |order| :: order[i] < |fc|
    ensures |f| == |order| && forall i | 0 <= i < |f| :: f[i] == fc[order[i]]
  {
    seq(|order|, i requires 0 <= i < |order| => fc[order[i]])
  }

  lemma CompleteIsShape(order: seq<nat>, fc: seq<nat>, dl: seq<nat>, elems: nat, leaves: set<nat>, n: nat)
    requires Complete(order, fc, dl, elems, leaves, n)
    ensures Shape(Ups(order, elems, n), n)
  {
    hide LowerBound, FreqBag, Spent, Linked, Summed;
    var up := Ups(order, elems, n);
    forall p | 0 <= p < |up| ensures p < up[p] <= |up| {
      assert order[up[p]] == elems + p / 2;
    }
    forall j, k | 0 <= j < k < n - 1 ensures up[2 * j] != up[2 * k] {
      assert order[up[2 * j]] == elems + j && order[up[2 * k]] == elems + k;
    }
    forall j | 0 <= j < n - 1 ensures up[2 * j] == up[2 * j + 1] {
      assert order[up[2 * j]] == elems + j && order[up[2 * j + 1]] == elems + j;
    }
  }

  lemma ShapePairs(up: seq<nat>, n: nat)
    requires Shape(up, n)
    ensures |up| == 2 * n - 2 && forall p | 0 <= p < |up| :: p < up[p] <= |up|
  {
  }

  lemma CompleteIsAdditive(order: seq<nat>, fc: seq<nat>, dl: seq<nat>, elems: nat, leaves: set<nat>, n: nat)
    requires Complete(order, fc, dl, elems, leaves, n)
    ensures Additive(Ups(order, elems, n), n, OrderFreqs(order, fc))
  {
    hide LowerBound, FreqBag, Spent, Linked, Shape;
    CompleteIsShape(order, fc, dl, elems, leaves, n);
    ShapePairs(Ups(order, elems, n), n);
    var up := Ups(order, elems, n);
    forall j | 0 <= j < n - 1 ensures fc[order[up[2 * j]]] == fc[order[2 * j]] + fc[order[2 * j + 1]] {
      assert order[up[2 * j]] == elems + j;
    }
    assert |OrderFreqs(order, fc)| == |up| + 1;
  }

  lemma InnerNodes(order: seq<nat>, fc: seq<nat>, dl: seq<nat>, elems: nat, leaves: set<nat>, n: nat)
    requires Complete(order, fc, dl, elems, leaves, n)
    ensures forall p | 0 <= p < |order| :: p in Ups(order, elems, n) <==> order[p] >= elems
  {
    hide LowerBound, FreqBag, Spent, Linked, Summed;
    var up := Ups(order, elems, n);
    forall p | 0 <= p < |order| && order[p] >= elems ensures p in up {
      var j := order[p] - elems;
      assert order[up[2 * j]] == elems + j;
      assert up[2 * j] == p;
    }
  }

  lemma {:induction false} SpentIsMerged(order: seq<nat>, fc: seq<nat>, k: nat)
    requires (forall i | 0 <= i < |order| :: order[i] < |fc|) && 2 * k <= |order|
    ensures Spent(order[..2 * k], fc) == Merged(OrderFreqs(order, fc), k)
  {
    if k > 0 {
      SpentIsMerged(order, fc, k - 1);
      SpentTwo(order[..2 * k - 2], order[2 * k - 2], order[2 * k - 1], fc);
      assert order[..2 * k] == order[..2 * k - 2] + [order[2 * k - 2], order[2 * k - 1]];
    }
  }
}
