/** Why combining the two least frequent nodes again and again gives code lengths of least total cost: a lower bound for
    the weights left in the heap of build_tree (src/ext/zlib/trees.c) is carried back to the weights it started from. The
    competitors are all lengths that satisfy the Kraft inequality, hence all prefix codes. */
module Optimal {
  import opened Bits

  datatype Item = Item(w: nat, l: nat)

  ghost function Weights(items: seq<Item>): multiset<nat> {
    if items == [] then multiset{} else Weights(items[..|items| - 1]) + multiset{items[|items| - 1].w}
  }

  ghost predicate Within(items: seq<Item>, limit: nat) {
    forall i | 0 <= i < |items| :: items[i].l <= limit
  }

  /** The Kraft sum times 2^limit. */
  ghost function Kraft(items: seq<Item>, limit: nat): nat
    requires Within(items, limit)
  {
    if items == [] then 0
    else Kraft(items[..|items| - 1], limit) + Pow2(limit - items[|items| - 1].l)
  }

  ghost function Cost(items: seq<Item>): nat {
    if items == [] then 0 else Cost(items[..|items| - 1]) + items[|items| - 1].w * items[|items| - 1].l
  }

  ghost function Lengths(items: seq<Item>): nat {
    if items == [] then 0 else Lengths(items[..|items| - 1]) + items[|items| - 1].l
  }

  ghost predicate Feasible(items: seq<Item>, limit: nat) {
    Within(items, limit) && Kraft(items, limit) <= Pow2(limit)
  }

  /** No lengths within the Kraft inequality make the weights W cost less than c. */
  ghost predicate LowerBound(W: multiset<nat>, c: nat) {
    forall items, limit | Feasible(items, limit) && Weights(items) == W :: Cost(items) >= c
  }

  ghost predicate TwoLeast(W: multiset<nat>, a: nat, b: nat) {
    && a in W && (forall x | x in W :: a <= x)
    && b in W - multiset{a} && (forall x | x in W - multiset{a} :: b <= x)
  }

  // ---------------------------------------------------------------- taking one item out

  ghost function Without(items: seq<Item>, i: nat): seq<Item>
    requires i < |items|
  {
    items[..i] + items[i + 1..]
  }

  lemma WithoutLast(items: seq<Item>, i: nat)
    requires i < |items|
    ensures var last, r := |items| - 1, Without(items, i);
      && |r| == last && (forall k | 0 <= k < last :: r[k] == if k < i then items[k] else items[k + 1])
      && (i == last ==> r == items[..last])
      && (i < last ==> r != [] && r[..last - 1] == Without(items[..last], i) && r[last - 1] == items[last] && items[..last][i] == items[i])
  {
  }

  lemma SumsOfLast(items: seq<Item>, limit: nat)
    requires items != [] && Within(items, limit)
    ensures var head, x := items[..|items| - 1], items[|items| - 1];
      && Within(head, limit) && Weights(items) == Weights(head) + multiset{x.w}
      && Kraft(items, limit) == Kraft(head, limit) + Pow2(limit - x.l)
      && Cost(items) == Cost(head) + x.w * x.l && Lengths(items) == Lengths(head) + x.l
  {
    hide Pow2;
  }

  lemma {:induction false} TakeOut(items: seq<Item>, i: nat, limit: nat)
    requires i < |items| && Within(items, limit)
    ensures Within(Without(items, i), limit)
    ensures Weights(items) == Weights(Without(items, i)) + multiset{items[i].w}
    ensures Kraft(items, limit) == Kraft(Without(items, i), limit) + Pow2(limit - items[i].l)
    ensures Cost(items) == Cost(Without(items, i)) + items[i].w * items[i].l
    ensures Lengths(items) == Lengths(Without(items, i)) + items[i].l
    decreases |items|
  {
    hide Pow2, Without, Weights, Kraft, Cost, Lengths;
    WithoutLast(items, i);
    SumsOfLast(items, limit);
    if i < |items| - 1 {
      TakeOut(items[..|items| - 1], i, limit);
      SumsOfLast(Without(items, i), limit);
    }
  }

  /** Appending is the converse. */
  lemma PutIn(items: seq<Item>, x: Item, limit: nat)
    requires Within(items, limit) && x.l <= limit
    ensures var s := items + [x];
      && Within(s, limit) && Weights(s) == Weights(items) + multiset{x.w}
      && Kraft(s, limit) == Kraft(items, limit) + Pow2(limit - x.l)
      && Cost(s) == Cost(items) + x.w * x.l && Lengths(s) == Lengths(items) + x.l
  {
    assert (items + [x])[..|items|] == items;
  }

  lemma {:induction false} FindWeight(items: seq<Item>, w: nat) returns (i: nat)
    requires w in Weights(items)
    ensures i < |items| && items[i].w == w
  {
    if items[|items| - 1].w == w {
      i := |items| - 1;
    } else {
      i := FindWeight(items[..|items| - 1], w);
    }
  }

  lemma {:induction false} HasWeight(items: seq<Item>, i: nat)
    requires i < |items|
    ensures items[i].w in Weights(items)
  {
    if i < |items| - 1 {
      HasWeight(items[..|items| - 1], i);
    }
  }

  lemma {:induction false} LongestItem(items: seq<Item>) returns (p: nat)
    requires items != []
    ensures p < |items| && forall i | 0 <= i < |items| :: items[i].l <= items[p].l
  {
    var last := |items| - 1;
    if last == 0 {
      p := 0;
    } else {
      var q := LongestItem(items[..last]);
      p := if items[q].l < items[last].l then last else q;
    }
  }

  lemma {:induction false} KraftScale(items: seq<Item>, m: nat, limit: nat)
    requires Within(items, m) && m <= limit
    ensures Kraft(items, limit) == Pow2(limit - m) * Kraft(items, m)
  {
    if items != [] {
      var head, l := items[..|items| - 1], items[|items| - 1].l;
      KraftScale(head, m, limit);
      Pow2Add(limit - m, m - l);
      Distribute(Pow2(limit - m), Kraft(head, m), Pow2(m - l));
    }
  }

  lemma Distribute(a: int, b: int, c: int)
    ensures a * (b + c) == a * b + a * c
  {
  }

  // ---------------------------------------------------------------- exchange, shorten, merge

  /** Gives the least weight to an item of greatest length, which is no dearer, and sets that item aside. */
  lemma BringLeast(items: seq<Item>, limit: nat, p: nat, a: nat) returns (rest: seq<Item>)
    requires Within(items, limit) && p < |items| && a in Weights(items)
    requires forall i | 0 <= i < |items| :: items[i].l <= items[p].l
    requires forall x | x in Weights(items) :: a <= x
    ensures |rest| == |items| - 1 && Within(rest, limit)
    ensures forall i | 0 <= i < |rest| :: rest[i].l == Without(items, p)[i].l
    ensures Weights(items) == Weights(rest) + multiset{a}
    ensures Kraft(items, limit) == Kraft(rest, limit) + Pow2(limit - items[p].l)
    ensures Cost(items) >= Cost(rest) + a * items[p].l
  {
    hide Weights, Kraft, Cost, Lengths, Pow2;
    var i := FindWeight(items, a);
    TakeOut(items, p, limit);
    var without := Without(items, p);
    if i == p {
      rest := without;
    } else {
      var j := if i < p then i else i - 1;
      assert without[j] == items[i];
      var x := Item(items[p].w, items[i].l);
      rest := without[j := x];
      TakeOut(without, j, limit);
      TakeOut(rest, j, limit);
      assert Without(rest, j) == Without(without, j);
      HasWeight(items, p);
      Exchange(items[p].w, a, items[p].l, items[i].l);
    }
  }

  lemma Exchange(big: nat, small: nat, long: nat, short: nat)
    requires small <= big && short <= long
    ensures big * long + small * short >= big * short + small * long
  {
    assert (big - small) * (long - short) >= 0;
  }

  /** A single item of greatest length can be one bit shorter. */
  lemma Shorten(items: seq<Item>, limit: nat, p: nat) returns (shorter: seq<Item>)
    requires Feasible(items, limit) && p < |items| && items[p].l > 0
    requires forall i | 0 <= i < |items| && i != p :: items[i].l < items[p].l
    ensures Feasible(shorter, limit) && Weights(shorter) == Weights(items) && |shorter| == |items|
    ensures Cost(shorter) <= Cost(items) && Lengths(shorter) < Lengths(items)
  {
    hide Kraft, Weights, Cost, Lengths;
    var m, w := items[p].l, items[p].w;
    var rest := Without(items, p);
    TakeOut(items, p, limit);
    shorter := rest + [Item(w, m - 1)];
    PutIn(rest, Item(w, m - 1), limit);
    Distribute(w, m - 1, 1);
    assert Pow2(limit - m + 1) == 2 * Pow2(limit - m);
    forall i | 0 <= i < |rest| ensures rest[i].l <= m - 1 {
      assert rest[i] == if i < p then items[i] else items[i + 1];
    }
    KraftScale(rest, m - 1, limit);
    RoomForOne(limit, m, Kraft(rest, m - 1));
  }

  lemma RoomForOne(limit: nat, m: nat, k: nat)
    requires 0 < m <= limit && Pow2(limit - m + 1) * k + Pow2(limit - m) <= Pow2(limit)
    ensures Pow2(limit - m + 1) * k + Pow2(limit - m + 1) <= Pow2(limit)
  {
    var u, h, v := Pow2(limit - m + 1), Pow2(limit - m), Pow2(m - 1);
    Pow2Add(limit - m + 1, m - 1);
    MulLe(u, v, k);
    MulLe(u, k + 1, v);
    Distribute(u, k, 1);
    assert u * k + u <= u * v || u * v <= u * k;
  }

  lemma MulLe(a: nat, b: nat, c: nat)
    ensures b <= c ==> a * b <= a * c
  {
    if b <= c {
      Distribute(a, b, c - b);
    }
  }

  lemma TwoEmpty(items: seq<Item>, limit: nat)
    requires Within(items, limit) && |items| >= 2 && items[0].l == 0 && items[1].l == 0
    ensures Kraft(items, limit) >= 2 * Pow2(limit)
  {
    hide Kraft, Weights, Cost, Lengths, Pow2;
    TakeOut(items, 0, limit);
    assert Without(items, 0)[0] == items[1];
    TakeOut(Without(items, 0), 0, limit);
  }

  lemma SomeBits(items: seq<Item>, limit: nat, p: nat)
    requires Feasible(items, limit) && |items| >= 2 && p < |items|
    requires forall i | 0 <= i < |items| :: items[i].l <= items[p].l
    ensures items[p].l > 0
  {
    if items[p].l == 0 {
      TwoEmpty(items, limit);
      assert false;
    }
  }

  /** Some lengths for the weights with the two least ones merged cost less by at least their sum. */
  lemma {:induction false} MergeTwo(items: seq<Item>, limit: nat, a: nat, b: nat) returns (merged: seq<Item>)
    requires Feasible(items, limit) && |items| >= 2 && TwoLeast(Weights(items), a, b)
    ensures Feasible(merged, limit)
    ensures Weights(merged) == Weights(items) - multiset{a} - multiset{b} + multiset{a + b}
    ensures Cost(items) >= Cost(merged) + a + b
    decreases Lengths(items)
  {
    var p := LongestItem(items);
    SomeBits(items, limit, p);
    if q :| 0 <= q < |items| && q != p && items[q].l == items[p].l {
      merged := MergeLongest(items, limit, a, b, p, q);
    } else {
      var shorter := Shorten(items, limit, p);
      merged := MergeTwo(shorter, limit, a, b);
    }
  }

  lemma BringTwo(items: seq<Item>, limit: nat, a: nat, b: nat, p: nat, q: nat) returns (two: seq<Item>)
    requires Within(items, limit) && TwoLeast(Weights(items), a, b)
    requires p < |items| && q < |items| && p != q && items[q].l == items[p].l
    requires forall i | 0 <= i < |items| :: items[i].l <= items[p].l
    ensures Within(two, limit) && Weights(items) == Weights(two) + multiset{b} + multiset{a}
    ensures Kraft(items, limit) == Kraft(two, limit) + 2 * Pow2(limit - items[p].l)
    ensures Cost(items) >= Cost(two) + a * items[p].l + b * items[p].l
  {
    hide Kraft, Weights, Cost, Pow2;
    var one := BringLeast(items, limit, p, a);
    var q' := if q < p then q else q - 1;
    assert Without(items, p)[q'] == items[q];
    assert Weights(one) == Weights(items) - multiset{a};
    forall i | 0 <= i < |one| ensures one[i].l <= one[q'].l {
      assert Without(items, p)[i] == if i < p then items[i] else items[i + 1];
    }
    two := BringLeast(one, limit, q', b);
  }

  lemma MergeLongest(items: seq<Item>, limit: nat, a: nat, b: nat, p: nat, q: nat) returns (merged: seq<Item>)
    requires Feasible(items, limit) && TwoLeast(Weights(items), a, b)
    requires p < |items| && q < |items| && p != q && items[q].l == items[p].l > 0
    requires forall i | 0 <= i < |items| :: items[i].l <= items[p].l
    ensures Feasible(merged, limit)
    ensures Weights(merged) == Weights(items) - multiset{a} - multiset{b} + multiset{a + b}
    ensures Cost(items) >= Cost(merged) + a + b
  {
    hide Kraft, Weights, Cost, Lengths, TwoLeast, Pow2;
    var m := items[p].l;
    var two := BringTwo(items, limit, a, b, p, q);
    merged := two + [Item(a + b, m - 1)];
    PutIn(two, Item(a + b, m - 1), limit);
    Doubled(limit - m);
    MergedCost(a, b, m);
    Swapped(Weights(items), Weights(two), a, b);
  }

  lemma Swapped(W: multiset<nat>, V: multiset<nat>, a: nat, b: nat)
    requires W == V + multiset{b} + multiset{a}
    ensures V + multiset{a + b} == W - multiset{a} - multiset{b} + multiset{a + b}
  {
    assert W - multiset{a} - multiset{b} == V;
  }

  lemma Doubled(n: nat)
    ensures Pow2(n + 1) == 2 * Pow2(n)
  {
  }

  lemma MergedCost(a: nat, b: nat, m: nat)
    requires m > 0
    ensures a * m + b * m == (a + b) * (m - 1) + a + b
  {
  }

  lemma {:induction false} WeightsSize(items: seq<Item>)
    ensures |Weights(items)| == |items|
  {
    if items != [] {
      WeightsSize(items[..|items| - 1]);
    }
  }

  /** One merge carries a lower bound back. */
  lemma LowerBoundStep(W: multiset<nat>, a: nat, b: nat, c: nat)
    requires TwoLeast(W, a, b)
    requires LowerBound(W - multiset{a} - multiset{b} + multiset{a + b}, c)
    ensures LowerBound(W, c + a + b)
  {
    forall items, limit | Feasible(items, limit) && Weights(items) == W
      ensures Cost(items) >= c + a + b
    {
      WeightsSize(items);
      assert W == (W - multiset{a}) + multiset{a};
      var merged := MergeTwo(items, limit, a, b);
    }
  }

  // ---------------------------------------------------------------- prefix codes

  ghost predicate PrefixFree(codes: seq<seq<bool>>) {
    forall i, j | 0 <= i < |codes| && 0 <= j < |codes| && i != j :: !(codes[i] <= codes[j])
  }

  /** The integer a bit string denotes, first bit most significant. */
  ghost function Value(bits: seq<bool>): nat {
    if bits == [] then 0 else 2 * Value(bits[..|bits| - 1]) + if bits[|bits| - 1] then 1 else 0
  }

  lemma {:induction false} ValueBound(bits: seq<bool>)
    ensures Value(bits) < Pow2(|bits|)
  {
    if bits != [] {
      ValueBound(bits[..|bits| - 1]);
    }
  }

  ghost function Range(lo: nat, n: nat): (s: set<nat>)
    ensures forall x: nat :: x in s <==> lo <= x < lo + n
    ensures |s| == n
  {
    if n == 0 then {} else Range(lo, n - 1) + {lo + n - 1}
  }

  /** The block of `limit`-bit integers that begin with the code. */
  ghost function Block(code: seq<bool>, limit: nat): set<nat>
    requires |code| <= limit
  {
    Range(Value(code) * Pow2(limit - |code|), Pow2(limit - |code|))
  }

  lemma {:induction false} SameValue(a: seq<bool>, b: seq<bool>)
    requires |a| == |b| && Value(a) == Value(b)
    ensures a == b
  {
    if a != [] {
      var k := |a| - 1;
      assert a[k] == b[k];
      SameValue(a[..k], b[..k]);
      assert a == a[..k] + [a[k]] && b == b[..k] + [b[k]];
    }
  }

  /** Dropping the last bits of a code divides its value. */
  lemma {:induction false} ValuePrefix(b: seq<bool>, k: nat)
    requires k <= |b|
    ensures Value(b[..k]) * Pow2(|b| - k) <= Value(b) < Value(b[..k]) * Pow2(|b| - k) + Pow2(|b| - k)
    decreases |b| - k
  {
    if k == |b| {
      assert b[..k] == b;
    } else {
      var c := b[..|b| - 1];
      assert c[..k] == b[..k];
      ValuePrefix(c, k);
      var v, s := Value(b[..k]), Pow2(|c| - k);
      Double(v, s);
    }
  }

  lemma Double(v: nat, s: nat)
    ensures v * (2 * s) == 2 * (v * s)
  {
  }

  lemma BlocksMeet(a: seq<bool>, b: seq<bool>, limit: nat, x: nat)
    requires |a| <= |b| <= limit && x in Block(a, limit) && x in Block(b, limit)
    ensures a <= b
  {
    hide Pow2, Value;
    var u, v := Pow2(limit - |b|), Pow2(|b| - |a|);
    Pow2Add(|b| - |a|, limit - |b|);
    var p := Value(b[..|a|]);
    ValuePrefix(b, |a|);
    // x lies in the block of b's first |a| bits too
    Nested(p, v, Value(b), u, x);
    Disjoint(p, Value(a), v * u, x);
    SameValue(a, b[..|a|]);
  }

  lemma Nested(p: nat, v: nat, q: nat, u: nat, x: nat)
    requires p * v <= q < p * v + v && q * u <= x < q * u + u
    ensures p * (v * u) <= x < p * (v * u) + v * u
  {
    MulAssoc(u, v, p);
    MulLe(u, p * v, q);
    MulLe(u, q + 1, p * v + v);
    Distribute(u, q, 1);
    Distribute(u, p * v, v);
  }

  lemma Disjoint(p: nat, q: nat, s: nat, x: nat)
    requires p * s <= x < p * s + s && q * s <= x < q * s + s
    ensures p == q
  {
    if p < q {
      MulLe(s, p + 1, q);
      Distribute(s, p, 1);
    } else if q < p {
      MulLe(s, q + 1, p);
      Distribute(s, q, 1);
    }
  }

  lemma MulAssoc(u: nat, v: nat, p: nat)
    ensures p * (v * u) == u * (p * v)
  {
  }

  ghost function CodeItems(weights: seq<nat>, codes: seq<seq<bool>>): (r: seq<Item>)
    requires |weights| == |codes|
    ensures |r| == |codes| && forall i | 0 <= i < |r| :: r[i] == Item(weights[i], |codes[i]|)
  {
    seq(|codes|, i requires 0 <= i < |codes| => Item(weights[i], |codes[i]|))
  }

  ghost function Blocks(codes: seq<seq<bool>>, limit: nat): set<nat>
    requires forall i | 0 <= i < |codes| :: |codes[i]| <= limit
  {
    if codes == [] then {} else Blocks(codes[..|codes| - 1], limit) + Block(codes[|codes| - 1], limit)
  }

  lemma {:induction false} InSomeBlock(codes: seq<seq<bool>>, limit: nat, x: nat) returns (i: nat)
    requires forall i | 0 <= i < |codes| :: |codes[i]| <= limit
    requires x in Blocks(codes, limit)
    ensures i < |codes| && x in Block(codes[i], limit)
  {
    if x in Block(codes[|codes| - 1], limit) {
      i := |codes| - 1;
    } else {
      i := InSomeBlock(codes[..|codes| - 1], limit, x);
    }
  }

  lemma BlockBound(code: seq<bool>, limit: nat, x: nat)
    requires |code| <= limit && x in Block(code, limit)
    ensures x < Pow2(limit)
  {
    hide Pow2, Value;
    var u, v := Pow2(limit - |code|), Value(code);
    ValueBound(code);
    Pow2Add(|code|, limit - |code|);
    BelowProduct(u, v, Pow2(|code|), x);
  }

  lemma BelowProduct(u: nat, v: nat, w: nat, x: nat)
    requires v < w && x < v * u + u
    ensures x < w * u
  {
    MulLe(u, v + 1, w);
    Distribute(u, v, 1);
  }

  lemma BlocksApart(codes: seq<seq<bool>>, limit: nat, n: nat)
    requires PrefixFree(codes) && n < |codes| && forall i | 0 <= i < |codes| :: |codes[i]| <= limit
    ensures Blocks(codes[..n], limit) !! Block(codes[n], limit)
  {
    hide Block, Blocks;
    forall x | x in Blocks(codes[..n], limit) && x in Block(codes[n], limit) ensures false {
      var i := InSomeBlock(codes[..n], limit, x);
      if |codes[i]| <= |codes[n]| {
        BlocksMeet(codes[i], codes[n], limit, x);
      } else {
        BlocksMeet(codes[n], codes[i], limit, x);
      }
    }
  }

  lemma BlockSize(code: seq<bool>, limit: nat)
    requires |code| <= limit
    ensures |Block(code, limit)| == Pow2(limit - |code|)
  {
  }

  lemma {:induction false} BlocksSize(weights: seq<nat>, codes: seq<seq<bool>>, limit: nat)
    requires |weights| == |codes| && PrefixFree(codes) && forall i | 0 <= i < |codes| :: |codes[i]| <= limit
    ensures |Blocks(codes, limit)| == Kraft(CodeItems(weights, codes), limit)
    decreases |codes|
  {
    hide Block, Pow2, Value;
    if codes != [] {
      var n := |codes| - 1;
      var head, last := codes[..n], codes[n];
      var items := CodeItems(weights, codes);
      BlockSize(last, limit);
      BlocksSize(weights[..n], head, limit);
      assert items[..n] == CodeItems(weights[..n], head);
      BlocksApart(codes, limit, n);
    }
  }

  /** The Kraft inequality: the lengths of a prefix code are feasible. */
  lemma PrefixCodesAreFeasible(weights: seq<nat>, codes: seq<seq<bool>>, limit: nat)
    requires |weights| == |codes| && PrefixFree(codes) && forall i | 0 <= i < |codes| :: |codes[i]| <= limit
    ensures Feasible(CodeItems(weights, codes), limit)
  {
    BlocksSize(weights, codes, limit);
    var all := Range(0, Pow2(limit));
    forall x | x in Blocks(codes, limit) ensures x in all {
      var i := InSomeBlock(codes, limit, x);
      BlockBound(codes[i], limit, x);
    }
    SubsetSize(Blocks(codes, limit), all);
  }

  lemma {:induction false} SubsetSize(a: set<nat>, b: set<nat>)
    requires a <= b
    ensures |a| <= |b|
    decreases a
  {
    if x :| x in a {
      SubsetSize(a - {x}, b - {x});
    }
  }
}
