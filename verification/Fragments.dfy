/** Merging of contiguous text fragments in the highlighter (src/contribs-lib/CLucene/highlighter). */
module Fragments {
  /** What a fragment says: the stretch of marked-up text it covers and its score. */
  datatype Span = Span(start: int, end: int, score: real)

  /** A place in the caller's array. */
  datatype Slot = Empty | Held(span: Span)

  class TextFragment {
    var textStartPos: int
    var textEndPos: int
    var score: real

    ghost function Shown(): Span
      reads this
    {
      Span(textStartPos, textEndPos, score)
    }

    predicate Follows(fragment: TextFragment)
      reads this, fragment
    {
      textStartPos == fragment.textEndPos
    }

    method Merge(frag2: TextFragment)
      modifies this
      ensures Shown() == Joined(old(Shown()), old(frag2.Shown()))
    {
      textEndPos := frag2.textEndPos;
      score := if score > frag2.score then score else frag2.score;
    }
  }

  ghost function Joined(a: Span, b: Span): Span {
    Span(a.start, b.end, if a.score > b.score then a.score else b.score)
  }

  // ---------------------------------------------------------------- what a survivor stands for

  /** Places of fragments that follow one another. */
  ghost predicate Chained(slots: seq<Slot>, chain: seq<nat>) {
    && chain != []
    && (forall k | 0 <= k < |chain| :: chain[k] < |slots| && slots[chain[k]].Held?)
    && (forall k | 0 < k < |chain| :: slots[chain[k - 1]].span.end == slots[chain[k]].span.start)
  }

  /** The span from the first of the chain to its last, with the best score in it. */
  ghost predicate Concatenates(slots: seq<Slot>, chain: seq<nat>, span: Span)
    requires Chained(slots, chain)
  {
    && span.start == slots[chain[0]].span.start
    && span.end == slots[chain[|chain| - 1]].span.end
    && (forall k | 0 <= k < |chain| :: slots[chain[k]].span.score <= span.score)
    && (exists k | 0 <= k < |chain| :: slots[chain[k]].span.score == span.score)
  }

  /** What is at place i concatenates the chain of i, and i held one of the best-scoring fragments of that chain. */
  ghost predicate Stands(before: seq<Slot>, chain: seq<nat>, i: nat, slot: Slot) {
    if chain == [] then slot == Empty
    else
      && slot.Held? && Chained(before, chain) && Concatenates(before, chain, slot.span)
      && i in chain && before[i].span.score == slot.span.score
  }

  ghost predicate Made(before: seq<Slot>, chains: seq<seq<nat>>, after: seq<Slot>) {
    && |before| == |chains| == |after|
    && forall i | 0 <= i < |after| :: Stands(before, chains[i], i, after[i])
  }

  ghost predicate NoRepeats(chain: seq<nat>) {
    forall j, k | 0 <= j < k < |chain| :: chain[j] != chain[k]
  }

  /** Every fragment is in the chain of its owner, once, and in no other. */
  ghost predicate Owned(before: seq<Slot>, chains: seq<seq<nat>>, owner: seq<nat>) {
    && |before| == |chains| == |owner|
    && (forall i | 0 <= i < |chains| :: NoRepeats(chains[i]))
    && (forall i, o | 0 <= i < |chains| && 0 <= o < |before| :: o in chains[i] <==> before[o].Held? && owner[o] == i)
    && (forall o | 0 <= o < |before| && before[o].Held? :: owner[o] < |chains|)
  }

  /** No survivor follows another. */
  ghost predicate Settled(slots: seq<Slot>) {
    forall i, x | 0 <= i < |slots| && 0 <= x < |slots| && i != x :: Apart(slots[i], slots[x])
  }

  ghost predicate Apart(a: Slot, b: Slot) {
    a.Held? && b.Held? ==> a.span.start != b.span.end && b.span.start != a.span.end
  }

  // ---------------------------------------------------------------- one merge

  lemma ChainsJoin(slots: seq<Slot>, a: seq<nat>, b: seq<nat>, sa: Span, sb: Span)
    requires Chained(slots, a) && Chained(slots, b) && Concatenates(slots, a, sa) && Concatenates(slots, b, sb)
    requires sb.start == sa.end
    ensures Chained(slots, a + b) && Concatenates(slots, a + b, Joined(sa, sb))
  {
    var c := a + b;
    forall k | 0 < k < |c| ensures slots[c[k - 1]].span.end == slots[c[k]].span.start {
      if k > |a| {
        assert slots[b[k - |a| - 1]].span.end == slots[b[k - |a|]].span.start;
      }
    }
    var i :| 0 <= i < |a| && slots[a[i]].span.score == sa.score;
    var j :| 0 <= j < |b| && slots[b[j]].span.score == sb.score;
    assert c[i] == a[i] && c[|a| + j] == b[j];
  }

  ghost function Rehomed(owner: seq<nat>, from: nat, to: nat): (r: seq<nat>)
    ensures |r| == |owner| && forall o | 0 <= o < |r| :: r[o] == if owner[o] == from then to else owner[o]
  {
    seq(|owner|, o requires 0 <= o < |owner| => if owner[o] == from then to else owner[o])
  }

  /** The chains of places f and s become one, at the place of the better score; the second one's where they tie. */
  ghost function Merged(chains: seq<seq<nat>>, f: nat, s: nat, best: nat): seq<seq<nat>>
    requires f < |chains| && s < |chains| && best < |chains|
  {
    chains[f := []][s := []][best := chains[f] + chains[s]]
  }

  lemma MadeMerged(before: seq<Slot>, chains: seq<seq<nat>>, after: seq<Slot>, f: nat, s: nat, best: nat)
    requires Made(before, chains, after) && f < |after| && s < |after| && f != s && after[f].Held? && after[s].Held?
    requires after[s].span.start == after[f].span.end
    requires best == if after[f].span.score > after[s].span.score then f else s
    ensures Made(before, Merged(chains, f, s, best), after[f := Empty][s := Empty][best := Held(Joined(after[f].span, after[s].span))])
  {
    hide Stands;
    var slot := Held(Joined(after[f].span, after[s].span));
    assert Stands(before, chains[f], f, after[f]) && Stands(before, chains[s], s, after[s]);
    StandsJoined(before, chains[f], chains[s], f, s, best, after[f], after[s]);
    StandsEmpty(before, if best == f then s else f);
    forall i | 0 <= i < |after|
      ensures Stands(before, Merged(chains, f, s, best)[i], i, after[f := Empty][s := Empty][best := slot][i])
    {
      assert i != f && i != s ==> Stands(before, chains[i], i, after[i]);
    }
  }

  lemma StandsEmpty(before: seq<Slot>, i: nat)
    ensures Stands(before, [], i, Empty)
  {
  }

  lemma StandsJoined(before: seq<Slot>, a: seq<nat>, b: seq<nat>, f: nat, s: nat, best: nat, x: Slot, y: Slot)
    requires Stands(before, a, f, x) && Stands(before, b, s, y) && x.Held? && y.Held? && y.span.start == x.span.end
    requires best == if x.span.score > y.span.score then f else s
    ensures Stands(before, a + b, best, Held(Joined(x.span, y.span)))
  {
    ChainsJoin(before, a, b, x.span, y.span);
  }

  lemma OwnedMerged(before: seq<Slot>, chains: seq<seq<nat>>, owner: seq<nat>, f: nat, s: nat, best: nat)
    requires Owned(before, chains, owner) && f < |chains| && s < |chains| && f != s && (best == f || best == s)
    requires forall k | 0 <= k < |chains[f]| :: chains[f][k] < |before|
    requires forall k | 0 <= k < |chains[s]| :: chains[s][k] < |before|
    ensures Owned(before, Merged(chains, f, s, best), Rehomed(owner, f + s - best, best))
  {
    forall o | o in chains[f] ensures o !in chains[s] {
      var k :| 0 <= k < |chains[f]| && chains[f][k] == o;
      assert owner[o] == f;
    }
    JoinNoRepeats(chains[f], chains[s]);
  }

  lemma JoinNoRepeats(a: seq<nat>, b: seq<nat>)
    requires NoRepeats(a) && NoRepeats(b) && forall o | o in a :: o !in b
    ensures NoRepeats(a + b) && forall o :: o in a + b <==> o in a || o in b
  {
    var c := a + b;
    forall j, k | 0 <= j < k < |c| ensures c[j] != c[k] {
      if j < |a| <= k {
        assert c[j] == a[j] && c[k] == b[k - |a|] && a[j] in a && b[k - |a|] in b;
      } else if k < |a| {
        assert a[j] != a[k];
      } else {
        assert b[j - |a|] != b[k - |a|];
      }
    }
  }

  // ---------------------------------------------------------------- the array of fragments

  ghost function SlotOf(f: TextFragment?): Slot
    reads f
  {
    if f == null then Empty else Held(f.Shown())
  }

  ghost function Slots(frag: array<TextFragment?>, n: nat): (slots: seq<Slot>)
    requires n <= frag.Length
    reads frag, frag[..n]
    ensures |slots| == n && forall i | 0 <= i < n :: slots[i] == SlotOf(frag[i])
  {
    seq(n, i requires 0 <= i < n reads frag, frag[..n] => assert frag[i] in frag[..n]; SlotOf(frag[i]))
  }

  /** No fragment is in the array twice. */
  ghost predicate NoSharing(frag: seq<TextFragment?>) {
    forall i, j | 0 <= i < j < |frag| && frag[i] != null :: frag[i] != frag[j]
  }

  ghost function Fragments(frag: seq<TextFragment?>): set<TextFragment> {
    set f: TextFragment | f in frag
  }

  ghost function Left(frag: seq<TextFragment?>): nat {
    if frag == [] then 0 else Left(frag[..|frag| - 1]) + if frag[|frag| - 1] != null then 1 else 0
  }

  lemma {:induction false} LeftUpdate(frag: seq<TextFragment?>, i: nat, f: TextFragment?)
    requires i < |frag|
    ensures Left(frag[i := f]) == Left(frag) + (if f != null then 1 else 0) - if frag[i] != null then 1 else 0
  {
    if i == |frag| - 1 {
      assert frag[i := f][..i] == frag[..i];
    } else {
      assert frag[i := f][..|frag| - 1] == frag[..|frag| - 1][i := f];
      LeftUpdate(frag[..|frag| - 1], i, f);
    }
  }

  /** Joins the fragment at s to the one at f and keeps it at `best`. */
  method Unite(frag: array<TextFragment?>, n: nat, f: nat, s: nat, best: nat)
    requires n <= frag.Length && f < n && s < n && f != s && (best == f || best == s) && frag[f] != null && frag[s] != null
    requires NoSharing(frag[..n])
    modifies frag, frag[f]
    ensures frag[..] == old(frag[..][f := null][s := null][best := frag[f]])
    ensures Slots(frag, n) == old(var slots := Slots(frag, n);
                                  slots[f := Empty][s := Empty][best := Held(Joined(slots[f].span, slots[s].span))])
  {
    var frag1 := frag[f];
    frag1.Merge(frag[s]);
    frag[f + s - best] := null;
    frag[best] := frag1;
    forall i | 0 <= i < n && i != f && i != s ensures SlotOf(frag[i]) == old(SlotOf(frag[i])) {
      assert old(frag[..n][i]) != null ==> old(frag[..n][i]) != old(frag[..n][f]);
    }
  }

  /** One comparison of the inner loop, for two places that hold fragments. */
  method MergePair(frag: array<TextFragment?>, n: nat, i: nat, x: nat,
                   ghost before: seq<Slot>, ghost chains0: seq<seq<nat>>, ghost owner0: seq<nat>)
    returns (merged: bool, ghost chains: seq<seq<nat>>, ghost owner: seq<nat>)
    requires n <= frag.Length && i < n && x < n && i != x && frag[i] != null && frag[x] != null
    requires NoSharing(frag[..n])
    requires Made(before, chains0, Slots(frag, n)) && Owned(before, chains0, owner0)
    modifies frag, frag[i], frag[x]
    ensures Fewer(old(frag[..]), frag[..], n, merged)
    ensures Made(before, chains, Slots(frag, n)) && Owned(before, chains, owner)
    ensures !merged ==> Slots(frag, n) == old(Slots(frag, n)) && Apart(SlotOf(frag[i]), SlotOf(frag[x]))
  {
    hide Made, Owned, Left, Fewer, NoSharing;
    merged, chains, owner := false, chains0, owner0;
    FewerSame(frag[..], n);
    var f, s: nat;
    if frag[i].Follows(frag[x]) {
      f, s := x, i;
    } else if frag[x].Follows(frag[i]) {
      f, s := i, x;
    } else {
      return;
    }
    merged := true;
    ghost var slots := Slots(frag, n);
    var best := if frag[f].score > frag[s].score then f else s;
    MadeMerged(before, chains0, slots, f, s, best);
    MadeWithin(before, chains0, slots, f);
    MadeWithin(before, chains0, slots, s);
    OwnedMerged(before, chains0, owner0, f, s, best);
    FewerUnited(frag[..], n, f, s, best);
    Unite(frag, n, f, s, best);
    chains, owner := Merged(chains0, f, s, best), Rehomed(owner0, f + s - best, best);
  }

  /** From was to now no fragment has come, the rest of the array is as it was, and one fragment less is left after a merge. */
  ghost predicate Fewer(was: seq<TextFragment?>, now: seq<TextFragment?>, n: nat, merged: bool) {
    && |was| == |now| && n <= |was| && now[n..] == was[n..] && NoSharing(now[..n])
    && (forall i | 0 <= i < n && now[i] != null :: now[i] in was[..n])
    && (if merged then Left(now[..n]) < Left(was[..n]) else now == was)
  }

  lemma FewerSame(frag: seq<TextFragment?>, n: nat)
    requires n <= |frag| && NoSharing(frag[..n])
    ensures Fewer(frag, frag, n, false)
  {
    assert forall i | 0 <= i < n :: frag[..n][i] == frag[i];
  }

  lemma FewerUnited(frag: seq<TextFragment?>, n: nat, f: nat, s: nat, best: nat)
    requires n <= |frag| && f < n && s < n && f != s && (best == f || best == s) && frag[f] != null && frag[s] != null
    requires NoSharing(frag[..n])
    ensures Fewer(frag, frag[f := null][s := null][best := frag[f]], n, true)
  {
    hide Left;
    var now := frag[f := null][s := null][best := frag[f]];
    var was := frag[..n];
    LeftUpdate(was, f, null);
    LeftUpdate(was[f := null], s, null);
    LeftUpdate(was[f := null][s := null], best, frag[f]);
    assert now[..n] == was[f := null][s := null][best := frag[f]];
    assert forall i | 0 <= i < n :: was[i] == frag[i];
    UnitedShares(was, f, s, best);
  }

  lemma UnitedShares(was: seq<TextFragment?>, f: nat, s: nat, best: nat)
    requires NoSharing(was) && f < |was| && s < |was| && f != s && (best == f || best == s) && was[f] != null
    ensures NoSharing(was[f := null][s := null][best := was[f]])
  {
  }

  lemma MadeWithin(before: seq<Slot>, chains: seq<seq<nat>>, after: seq<Slot>, i: nat)
    requires Made(before, chains, after) && i < |after|
    ensures |chains| == |after| && forall k | 0 <= k < |chains[i]| :: chains[i][k] < |before|
  {
    assert Stands(before, chains[i], i, after[i]);
  }

  lemma {:induction false} FewerTwice(a: seq<TextFragment?>, b: seq<TextFragment?>, c: seq<TextFragment?>, n: nat, m1: bool, m2: bool)
    requires Fewer(a, b, n, m1) && Fewer(b, c, n, m2)
    ensures Fewer(a, c, n, m1 || m2)
  {
    hide Left;
    forall i | 0 <= i < n && c[i] != null ensures c[i] in a[..n] {
      var j :| 0 <= j < n && b[..n][j] == c[i];
      assert b[j] in a[..n];
    }
  }

  lemma FewerWithin(was: seq<TextFragment?>, now: seq<TextFragment?>, n: nat, merged: bool)
    requires Fewer(was, now, n, merged)
    ensures |was| == |now| && n <= |was| && Fragments(now[..n]) <= Fragments(was[..n]) && NoSharing(now[..n])
    ensures !merged ==> now == was
    ensures merged ==> Left(now[..n]) < Left(was[..n])
  {
    hide Left, NoSharing;
    forall f | f in Fragments(now[..n]) ensures f in Fragments(was[..n]) {
      var i :| 0 <= i < n && now[..n][i] == f;
      assert now[i] in was[..n];
    }
  }

  /** The inner loop: the fragment at i against all others, until it is gone. */
  method Scan(frag: array<TextFragment?>, n: nat, i: nat,
              ghost before: seq<Slot>, ghost chains0: seq<seq<nat>>, ghost owner0: seq<nat>)
    returns (merged: bool, ghost chains: seq<seq<nat>>, ghost owner: seq<nat>)
    requires n <= frag.Length && i < n && frag[i] != null && NoSharing(frag[..n])
    requires Made(before, chains0, Slots(frag, n)) && Owned(before, chains0, owner0)
    modifies frag, Fragments(frag[..n])
    ensures Fewer(old(frag[..]), frag[..], n, merged)
    ensures Made(before, chains, Slots(frag, n)) && Owned(before, chains, owner)
    ensures !merged ==> Slots(frag, n) == old(Slots(frag, n)) && forall x | 0 <= x < n && x != i :: Apart(SlotOf(frag[i]), SlotOf(frag[x]))
  {
    hide Made, Owned, Left, Fewer, NoSharing, Apart, SlotOf;
    merged, chains, owner := false, chains0, owner0;
    ghost var was := frag[..];
    FewerSame(was, n);
    for x := 0 to n
      invariant Fewer(was, frag[..], n, merged) && NoSharing(frag[..n]) && Fragments(frag[..n]) <= Fragments(was[..n])
      invariant Made(before, chains, Slots(frag, n)) && Owned(before, chains, owner)
      invariant !merged ==> frag[..] == was && Slots(frag, n) == old(Slots(frag, n))
      invariant !merged ==> forall y | 0 <= y < x && y != i :: Apart(SlotOf(frag[i]), SlotOf(frag[y]))
    {
      if x == i {
        continue;
      }
      if frag[x] == null {
        ApartNull(SlotOf(frag[i]), frag[x]);
        continue;
      }
      if frag[i] == null {
        break;
      }
      ghost var now := frag[..];
      assert frag[i] in Fragments(frag[..n]) && frag[x] in Fragments(frag[..n]) by {
        assert frag[..n][i] == frag[i] && frag[..n][x] == frag[x];
      }
      var m: bool;
      m, chains, owner := MergePair(frag, n, i, x, before, chains, owner);
      FewerTwice(was, now, frag[..], n, merged, m);
      merged := merged || m;
      FewerWithin(was, frag[..], n, merged);
    }
  }

  lemma ApartNull(a: Slot, f: TextFragment?)
    requires f == null
    ensures Apart(a, SlotOf(f))
  {
  }

  /** One round over all fragments. */
  method Round(frag: array<TextFragment?>, n: nat, ghost before: seq<Slot>, ghost chains0: seq<seq<nat>>, ghost owner0: seq<nat>)
    returns (merged: bool, ghost chains: seq<seq<nat>>, ghost owner: seq<nat>)
    requires n <= frag.Length && NoSharing(frag[..n])
    requires Made(before, chains0, Slots(frag, n)) && Owned(before, chains0, owner0)
    modifies frag, Fragments(frag[..n])
    ensures Fewer(old(frag[..]), frag[..], n, merged)
    ensures Made(before, chains, Slots(frag, n)) && Owned(before, chains, owner)
    ensures !merged ==> Settled(Slots(frag, n))
  {
    hide Made, Owned, Left, Fewer, NoSharing, Apart, SlotOf;
    merged, chains, owner := false, chains0, owner0;
    ghost var was := frag[..];
    FewerSame(was, n);
    for i := 0 to n
      invariant Fewer(was, frag[..], n, merged) && NoSharing(frag[..n]) && Fragments(frag[..n]) <= Fragments(was[..n])
      invariant Made(before, chains, Slots(frag, n)) && Owned(before, chains, owner)
      invariant !merged ==> frag[..] == was && Slots(frag, n) == old(Slots(frag, n))
      invariant !merged ==> forall j, x | 0 <= j < i && 0 <= x < n && x != j :: Apart(SlotOf(frag[j]), SlotOf(frag[x]))
    {
      if frag[i] == null {
        NullApart(frag[i]);
        continue;
      }
      ghost var now := frag[..];
      var m: bool;
      m, chains, owner := Scan(frag, n, i, before, chains, owner);
      FewerTwice(was, now, frag[..], n, merged, m);
      merged := merged || m;
      FewerWithin(was, frag[..], n, merged);
    }
  }

  lemma NullApart(f: TextFragment?)
    requires f == null
    ensures forall b :: Apart(SlotOf(f), b)
  {
  }

  /** _mergeContiguousFragments. `chains[i]` lists, in order, the places of the fragments that the survivor at i is made of, and
      `owner` the place where each fragment has gone. */
  method MergeContiguousFragments(frag: array<TextFragment?>, fragsLen: nat)
    returns (ghost chains: seq<seq<nat>>, ghost owner: seq<nat>)
    requires fragsLen < frag.Length && NoSharing(frag[..fragsLen])
    modifies frag, Fragments(frag[..fragsLen])
    ensures frag[fragsLen..] == old(frag[fragsLen..])
    ensures Made(old(Slots(frag, fragsLen)), chains, Slots(frag, fragsLen))
      && Owned(old(Slots(frag, fragsLen)), chains, owner)
    ensures old(frag[0]) != null ==> Settled(Slots(frag, fragsLen))
    ensures old(frag[0]) == null ==> frag[..] == old(frag[..]) && Slots(frag, fragsLen) == old(Slots(frag, fragsLen))
  {
    hide Made, Owned, Left, Fewer, NoSharing, Settled;
    ghost var was, before := frag[..], Slots(frag, fragsLen);
    chains, owner := seq(fragsLen, i requires 0 <= i < fragsLen => if before[i].Held? then [i] else []), seq(fragsLen, i => i);
    AllAlone(before, chains, owner);
    if frag[0] != null {
      var mergingStillBeingDone := true;
      while mergingStillBeingDone
        invariant frag[fragsLen..] == was[fragsLen..] && NoSharing(frag[..fragsLen])
        invariant Fragments(frag[..fragsLen]) <= Fragments(was[..fragsLen])
        invariant Made(before, chains, Slots(frag, fragsLen)) && Owned(before, chains, owner)
        invariant !mergingStillBeingDone ==> Settled(Slots(frag, fragsLen))
        decreases mergingStillBeingDone, Left(frag[..fragsLen])
      {
        ghost var now := frag[..];
        mergingStillBeingDone, chains, owner := Round(frag, fragsLen, before, chains, owner);
        FewerWithin(now, frag[..], fragsLen, mergingStillBeingDone);
        FewerTail(now, frag[..], fragsLen, mergingStillBeingDone);
      }
    }
  }

  lemma FewerTail(was: seq<TextFragment?>, now: seq<TextFragment?>, n: nat, merged: bool)
    requires Fewer(was, now, n, merged)
    ensures now[n..] == was[n..]
  {
  }

  lemma AllAlone(before: seq<Slot>, chains: seq<seq<nat>>, owner: seq<nat>)
    requires |chains| == |owner| == |before|
    requires forall i | 0 <= i < |before| :: owner[i] == i && chains[i] == if before[i].Held? then [i] else []
    ensures Made(before, chains, before) && Owned(before, chains, owner)
  {
  }

  // ---------------------------------------------------------------- what the highlighter's own fragments become

  /** Non-empty stretches of text that do not share a beginning or an end. */
  ghost predicate WellCut(slots: seq<Slot>) {
    && (forall o | 0 <= o < |slots| && slots[o].Held? :: slots[o].span.start < slots[o].span.end)
    && (forall o, p | 0 <= o < p < |slots| && slots[o].Held? && slots[p].Held? ::
          slots[o].span.start != slots[p].span.start && slots[o].span.end != slots[p].span.end)
  }

  lemma {:induction false} ChainGrows(slots: seq<Slot>, chain: seq<nat>, k: nat)
    requires Chained(slots, chain) && WellCut(slots) && k < |chain|
    ensures slots[chain[0]].span.start < slots[chain[k]].span.end
  {
    if k > 0 {
      ChainGrows(slots, chain, k - 1);
    }
  }

  lemma Touching(slots: seq<Slot>, chain: seq<nat>, a: nat, p: nat)
    requires Chained(slots, chain) && WellCut(slots) && a < |chain| && p < |slots| && slots[p].Held?
    requires slots[chain[a]].span.end == slots[p].span.start
    ensures a + 1 < |chain| ==> chain[a + 1] == p
  {
  }

  lemma Touched(slots: seq<Slot>, chain: seq<nat>, b: nat, o: nat)
    requires Chained(slots, chain) && WellCut(slots) && b < |chain| && o < |slots| && slots[o].Held?
    requires slots[o].span.end == slots[chain[b]].span.start
    ensures b > 0 ==> chain[b - 1] == o
  {
  }

  /** Two fragments are neighbours in the text exactly when they are neighbours in a survivor: the survivors are the longest
      unbroken stretches, whatever the order of the array. */
  lemma NeighboursMeet(before: seq<Slot>, chains: seq<seq<nat>>, owner: seq<nat>, after: seq<Slot>, o: nat, p: nat)
    requires Made(before, chains, after) && Owned(before, chains, owner) && Settled(after) && WellCut(before)
    requires o < |before| && p < |before| && before[o].Held? && before[p].Held?
    ensures before[o].span.end == before[p].span.start <==>
            exists k :: 0 < k < |chains[owner[o]]| && chains[owner[o]][k - 1] == o && chains[owner[o]][k] == p
  {
    var i, j := owner[o], owner[p];
    assert o in chains[i] && p in chains[j];
    var a :| 0 <= a < |chains[i]| && chains[i][a] == o;
    var b :| 0 <= b < |chains[j]| && chains[j][b] == p;
    assert Stands(before, chains[i], i, after[i]) && Stands(before, chains[j], j, after[j]);
    if before[o].span.end == before[p].span.start {
      Touching(before, chains[i], a, p);
      Touched(before, chains[j], b, o);
      ChainGrows(before, chains[i], a);
    }
  }
}
