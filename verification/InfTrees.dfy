/** inflate_table (src/ext/zlib/inftrees.c). */
module InfTrees {
  import opened Bits
  import opened PairTree
  import opened LengthLimit
  import opened CodeLengths
  import opened Canonical
  import opened Reversal
  import opened CodeOrder
  import opened SubTables
  import opened DecodeTables

  const ENOUGH := 2048
  const MAXD := 592

  // ---------------------------------------------------------------- counting and sorting

  ghost predicate Lengths(lens: seq<nat>) {
    forall i | 0 <= i < |lens| :: lens[i] <= 15
  }

  /** How many codes there are of each length. */
  ghost function Counts(lens: seq<nat>): (bl: seq<nat>)
    ensures |bl| == 16 && bl[0] == 0 && Counted(bl, lens, 15)
  {
    seq(16, b requires 0 <= b < 16 => if b == 0 then 0 else Count(lens, b))
  }

  method CountCodes(lens: seq<nat>) returns (count: array<nat>)
    requires Lengths(lens)
    ensures fresh(count) && count.Length == 16 && count[..][0 := 0] == Counts(lens)
  {
    hide Count;
    count := new nat[16];
    for len := 0 to 16
      invariant forall b | 0 <= b < len :: count[b] == 0
    {
      count[len] := 0;
    }
    forall b | 0 <= b < 16 ensures Count(lens[..0], b) == 0 {
      CountNone(lens[..0], b);
    }
    for sym := 0 to |lens|
      invariant forall b | 0 <= b < 16 :: count[b] == Count(lens[..sym], b)
    {
      assert lens[..sym + 1] == lens[..sym] + [lens[sym]];
      forall b | 0 <= b < 16
        ensures Count(lens[..sym + 1], b) == Count(lens[..sym], b) + if lens[sym] == b then 1 else 0
      {
        CountAppend(lens[..sym], lens[sym], b);
      }
      count[lens[sym]] := count[lens[sym]] + 1;
    }
    assert lens[..|lens|] == lens;
  }

  /** The symbols with a code, by length and then by symbol. */
  ghost predicate InOrder(work: seq<nat>, lens: seq<nat>, bl: seq<nat>) {
    && |bl| == 16 && Total(bl) <= |work|
    && forall k | 0 <= k < Total(bl) :: Placed(work, lens, bl, k, LengthAt(bl, k))
  }

  /** The k-th entry is the right one of the symbols of length b. */
  ghost predicate Placed(work: seq<nat>, lens: seq<nat>, bl: seq<nat>, k: nat, b: nat) {
    && k < |work| && work[k] < |lens| && lens[work[k]] == b && 1 <= b < |bl|
    && CodesUpTo(bl, b - 1) + Rank(lens, work[k]) == k
  }

  /** The symbols below n are in place. */
  ghost predicate Sorting(work: seq<nat>, offs: seq<nat>, lens: seq<nat>, bl: seq<nat>, n: nat) {
    && |bl| == 16 && |offs| == 16 && n <= |lens|
    && forall b | 1 <= b <= 15 :: SortedLength(work, offs[b], lens, bl, n, b)
  }

  /** The symbols of length b below n are in place, and the next of them goes to `off`. */
  ghost predicate SortedLength(work: seq<nat>, off: nat, lens: seq<nat>, bl: seq<nat>, n: nat, b: nat) {
    && 1 <= b < |bl| && n <= |lens| && off == CodesUpTo(bl, b - 1) + Count(lens[..n], b)
    && forall k | CodesUpTo(bl, b - 1) <= k < off :: Placed(work, lens, bl, k, b)
  }

  method SortSymbols(lens: seq<nat>, count: array<nat>, work: array<nat>, ghost bl: seq<nat>)
    requires Lengths(lens) && count.Length == 16 && bl == Counts(lens) && count[..][0 := 0] == bl
    requires work.Length >= |lens| && count != work
    modifies work
    ensures InOrder(work[..], lens, bl)
  {
    hide Count, CodesUpTo, Placed, LengthAt, Total;
    var offs := new nat[16];
    offs[1] := 0;
    StartIs(bl);
    for len := 1 to 15
      invariant forall b | 1 <= b <= len :: offs[b] == CodesUpTo(bl, b - 1)
    {
      CodesStep(bl, len);
      assert count[len] == count[..][0 := 0][len];
      offs[len + 1] := offs[len] + count[len];
    }
    forall b | 1 <= b <= 15 ensures Count(lens[..0], b) == 0 {
      CountNone(lens[..0], b);
    }
    for sym := 0 to |lens|
      invariant Sorting(work[..], offs[..], lens, bl, sym)
    {
      RoomToSort(lens, bl);
      SortStep(work[..], offs[..], lens, bl, sym);
      if lens[sym] != 0 {
        ghost var w, o := work[..], offs[..];
        work[offs[lens[sym]]] := sym;
        offs[lens[sym]] := offs[lens[sym]] + 1;
        assert work[..] == w[o[lens[sym]] := sym];
        assert offs[..] == o[lens[sym] := o[lens[sym]] + 1];
      }
    }
    RoomToSort(lens, bl);
    SortingDone(work[..], offs[..], lens, bl);
  }

  lemma StartIs(bl: seq<nat>)
    requires |bl| == 16
    ensures CodesUpTo(bl, 0) == 0
  {
  }

  lemma {:induction false} CountMore(s: seq<nat>, n: nat, b: nat)
    requires n <= |s|
    ensures Count(s[..n], b) <= Count(s, b)
    decreases |s| - n
  {
    hide Count;
    if n < |s| {
      assert s[..n + 1] == s[..n] + [s[n]];
      CountAppend(s[..n], s[n], b);
      CountMore(s, n + 1, b);
    } else {
      assert s[..n] == s;
    }
  }

  lemma RoomToSort(lens: seq<nat>, bl: seq<nat>)
    requires Lengths(lens) && bl == Counts(lens)
    ensures Total(bl) <= |lens|
  {
    hide Count, CodesUpTo;
    CodesFromCounts(bl, lens, 15, 15);
    CountBound(Coded(lens, 15));
  }

  /** The next free place for a length lies between those of the lengths around it. */
  lemma FreePlace(lens: seq<nat>, bl: seq<nat>, n: nat, b: nat)
    requires |bl| == 16 && Counted(bl, lens, 15) && n <= |lens| && 1 <= b <= 15
    ensures CodesUpTo(bl, b - 1) + Count(lens[..n], b) <= CodesUpTo(bl, b) <= Total(bl)
    ensures n < |lens| && lens[n] == b ==> CodesUpTo(bl, b - 1) + Count(lens[..n], b) < CodesUpTo(bl, b)
  {
    hide Count, CodesUpTo;
    CountMore(lens, n, b);
    CodesStep(bl, b);
    CodesRise(bl, b, 15);
    if n < |lens| && lens[n] == b {
      RankBound(lens, n);
    }
  }

  lemma SortStep(work: seq<nat>, offs: seq<nat>, lens: seq<nat>, bl: seq<nat>, n: nat)
    requires Lengths(lens) && bl == Counts(lens) && n < |lens| && Sorting(work, offs, lens, bl, n) && |work| >= Total(bl)
    ensures lens[n] == 0 ==> Sorting(work, offs, lens, bl, n + 1)
    ensures lens[n] != 0 ==> var o := offs[lens[n]];
      o < Total(bl) && Sorting(work[o := n], offs[lens[n] := o + 1], lens, bl, n + 1)
  {
    hide Count, CodesUpTo, Total, SortedLength;
    var c := lens[n];
    if c != 0 {
      OffsetIs(work, offs[c], lens, bl, n, c);
      SortOne(work, offs[c], lens, bl, n);
    }
    forall b | 1 <= b <= 15 && b != c
      ensures SortedLength(work, offs[b], lens, bl, n + 1, b)
      ensures c != 0 && offs[c] < |work| ==> SortedLength(work[offs[c] := n], offs[b], lens, bl, n + 1, b)
    {
      SortOther(work, offs[b], lens, bl, n, b, if c == 0 then 0 else offs[c]);
    }
  }

  lemma OffsetIs(work: seq<nat>, off: nat, lens: seq<nat>, bl: seq<nat>, n: nat, b: nat)
    requires SortedLength(work, off, lens, bl, n, b)
    ensures off == CodesUpTo(bl, b - 1) + Count(lens[..n], b)
  {
  }

  lemma SortOne(work: seq<nat>, off: nat, lens: seq<nat>, bl: seq<nat>, n: nat)
    requires Lengths(lens) && bl == Counts(lens) && n < |lens| && lens[n] > 0
    requires SortedLength(work, off, lens, bl, n, lens[n]) && |work| >= Total(bl)
    ensures off < Total(bl) && SortedLength(work[off := n], off + 1, lens, bl, n + 1, lens[n])
  {
    hide Count, CodesUpTo, Total;
    assert lens[..n + 1] == lens[..n] + [lens[n]];
    CountAppend(lens[..n], lens[n], lens[n]);
    FreePlace(lens, bl, n, lens[n]);
    RankIs(lens, n);
    var w, b := work[off := n], lens[n];
    forall k | CodesUpTo(bl, b - 1) <= k < off ensures Placed(w, lens, bl, k, b) {
      assert Placed(work, lens, bl, k, lens[n]);
    }
  }

  lemma RankIs(lens: seq<nat>, n: nat)
    requires n < |lens|
    ensures Rank(lens, n) == Count(lens[..n], lens[n])
  {
  }

  lemma SortOther(work: seq<nat>, off: nat, lens: seq<nat>, bl: seq<nat>, n: nat, b: nat, o: nat)
    requires Lengths(lens) && bl == Counts(lens) && n < |lens| && lens[n] != b && 1 <= b <= 15
    requires SortedLength(work, off, lens, bl, n, b) && |work| >= Total(bl)
    requires lens[n] > 0 ==> o == CodesUpTo(bl, lens[n] - 1) + Count(lens[..n], lens[n])
    ensures SortedLength(work, off, lens, bl, n + 1, b)
    ensures lens[n] > 0 && o < |work| ==> SortedLength(work[o := n], off, lens, bl, n + 1, b)
  {
    hide Count, CodesUpTo, Total;
    var c := lens[n];
    assert lens[..n + 1] == lens[..n] + [c];
    CountAppend(lens[..n], c, b);
    if c != 0 {
      FreePlace(lens, bl, n, c);
      FreePlace(lens, bl, n, b);
      if b < c {
        CodesRise(bl, b, c - 1);
      } else {
        CodesRise(bl, c, b - 1);
      }
      if o < |work| {
        var w := work[o := n];
        forall k | CodesUpTo(bl, b - 1) <= k < off ensures Placed(w, lens, bl, k, b) {
          assert Placed(work, lens, bl, k, b);
        }
      }
    }
  }

  lemma SortingDone(work: seq<nat>, offs: seq<nat>, lens: seq<nat>, bl: seq<nat>)
    requires Lengths(lens) && bl == Counts(lens) && Sorting(work, offs, lens, bl, |lens|) && |work| >= Total(bl)
    ensures InOrder(work, lens, bl)
  {
    hide Count, CodesUpTo, Placed, Total;
    assert lens[..|lens|] == lens;
    forall k | 0 <= k < Total(bl) ensures Placed(work, lens, bl, k, LengthAt(bl, k)) {
      var b := LengthAt(bl, k);
      assert SortedLength(work, offs[b], lens, bl, |lens|, b);
      CodesStep(bl, b);
    }
  }

  // ---------------------------------------------------------------- entering one code

  lemma OneStepDown(q: nat, l: nat, h: nat, c: nat)
    requires 0 < q <= Pow2(c) && h < Pow2(l)
    ensures Shl(q, l) == Shl(q - 1, l) + Pow2(l)
    ensures h + Shl(q - 1, l) < Pow2(c + l)
    ensures Low(h + Shl(q - 1, l), l) == h && Shr(h + Shl(q - 1, l), l) == q - 1
    ensures forall i: nat | Low(i, l) == h && Shr(i, l) == q - 1 :: i == h + Shl(q - 1, l)
  {
    hide Shl, Shr, Low;
    ShlAdd(q - 1, 1, l);
    ShlIsMul(1, l);
    ShlBound(q - 1, c, l);
    LowShrUnique(h, q - 1, l);
    forall i: nat | Low(i, l) == h && Shr(i, l) == q - 1 ensures i == h + Shl(q - 1, l) {
      SplitLow(i, l);
    }
  }

  /** The entry has been put wherever the bits above the lowest l are at least q. */
  ghost predicate Replicating(t: seq<Entry>, u: seq<Entry>, at: nat, curr: nat, h: nat, l: nat, e: Entry, q: nat) {
    && |u| == |t| && at + Pow2(curr) <= |t|
    && (forall i | 0 <= i < |t| && !(at <= i < at + Pow2(curr)) :: u[i] == t[i])
    && (forall i | at <= i < at + Pow2(curr) :: u[i] == if Low(i - at, l) == h && Shr(i - at, l) >= q then e else t[i])
  }

  lemma ReplicatingEnds(t: seq<Entry>, u: seq<Entry>, at: nat, curr: nat, h: nat, l: nat, e: Entry)
    requires at + Pow2(curr) <= |t| && l <= curr
    ensures Replicating(t, t, at, curr, h, l, e, Pow2(curr - l))
    ensures Replicating(t, u, at, curr, h, l, e, 0) ==> Replicated(t, u, at, curr, h, l, e)
  {
    hide Shl, Shr, Low, Pow2;
    forall i: nat | i < Pow2(curr) ensures Shr(i, l) < Pow2(curr - l) {
      ShrBound(i, curr - l, l);
    }
  }

  /** The do loop that replicates an entry over all indices with low l bits h. */
  method Fill(table: array<Entry>, at: nat, curr: nat, h: nat, l: nat, e: Entry)
    requires l <= curr && h < Pow2(l) && at + Pow2(curr) <= table.Length
    modifies table
    ensures Replicated(old(table[..]), table[..], at, curr, h, l, e)
  {
    hide Shl, Shr, Low, Pow2, Replicated;
    var incr, fill := Pow2(l), Pow2(curr);
    ghost var q := Pow2(curr - l);
    ShlIsMul(q, l);
    Pow2Add(curr - l, l);
    ReplicatingEnds(table[..], table[..], at, curr, h, l, e);
    while true
      invariant 0 < q <= Pow2(curr - l) && fill == Shl(q, l) && incr == Pow2(l)
      invariant Replicating(old(table[..]), table[..], at, curr, h, l, e, q)
      decreases q
    {
      OneStepDown(q, l, h, curr - l);
      fill := fill - incr;
      q := q - 1;
      table[at + h + fill] := e;
      ShlIsMul(q, l);
      if fill == 0 {
        ZeroFactor(q, incr);
        break;
      }
    }
    ReplicatingEnds(old(table[..]), table[..], at, curr, h, l, e);
  }

  lemma ZeroFactor(q: nat, p: nat)
    requires q * p == 0 && p > 0
    ensures q == 0
  {
  }

  // ---------------------------------------------------------------- the width of the next sub-table

  /** What is left of the counts when the first k codes have been entered. */
  ghost predicate Remaining(count: seq<nat>, bl: seq<nat>, k: nat) {
    |count| == 16 && |bl| == 16 && forall b | 1 <= b <= 15 :: count[b] == RemainingOf(bl, k, b)
  }

  ghost function RemainingOf(bl: seq<nat>, k: nat, b: nat): nat
    requires 1 <= b < |bl|
  {
    if k <= CodesUpTo(bl, b - 1) then bl[b] else if k < CodesUpTo(bl, b) then CodesUpTo(bl, b) - k else 0
  }

  lemma RemainingIs(bl: seq<nat>, k: nat, b: nat)
    requires |bl| == 16 && k < Total(bl) && LengthAt(bl, k) <= b <= 15
    ensures b == LengthAt(bl, k) ==> CodeAt(bl, k) + RemainingOf(bl, k, b) == End(bl, b)
    ensures b > LengthAt(bl, k) ==> RemainingOf(bl, k, b) == bl[b]
  {
    hide CodesUpTo, First;
    CodesStep(bl, LengthAt(bl, k));
    if b > LengthAt(bl, k) {
      CodesRise(bl, LengthAt(bl, k), b - 1);
    }
  }

  lemma FirstDoubles(bl: seq<nat>, b: nat, r: nat, c: nat)
    requires b + 1 < |bl|
    ensures First(bl, b + 1) == 2 * End(bl, b) && Shl(r, c + 1) == 2 * Shl(r, c)
  {
  }

  method SubTableBits(count: array<nat>, len: nat, root: nat, max: nat, ghost bl: seq<nat>, ghost k: nat) returns (curr: nat)
    requires |bl| == 16 && k < Total(bl) && len == LengthAt(bl, k) && root < len <= max <= 15
    requires count.Length == 16 && Remaining(count[..], bl, k)
    requires CodeAt(bl, k) == Shl(Region(bl, k, root), len - root)
    ensures Wide(bl, root, curr, Region(bl, k, root), max) && Narrow(bl, root, curr, Region(bl, k, root), len)
  {
    hide LengthAt, CodeAt, CodesUpTo, First, Shl, Region, RemainingOf, Pow2;
    ghost var r := Region(bl, k, root);
    curr := len - root;
    ShlAdd(r, 1, curr);
    ShlIsMul(1, curr);
    var left: int := Pow2(curr);
    while curr + root < max
      invariant len <= curr + root <= max && left > 0
      invariant left == Shl(r + 1, curr) - if curr + root == len then CodeAt(bl, k) else First(bl, curr + root)
      invariant Narrow(bl, root, curr, r, len)
    {
      RemainingIs(bl, k, curr + root);
      assert count[curr + root] == count[..][curr + root] == RemainingOf(bl, k, curr + root);
      EndIs(bl, curr + root);
      left := left - count[curr + root];
      if left <= 0 {
        break;
      }
      FirstDoubles(bl, curr + root, r + 1, curr);
      curr := curr + 1;
      left := 2 * left;
    }
  }

  // ---------------------------------------------------------------- the loop over all codes

  /** The sub-table being filled was opened for code `first`; what has been allocated before it. */
  ghost predicate SubRoom(bl: seq<nat>, root: nat, next: nat, curr: nat, k: nat, first: nat) {
    && |bl| == 16 && first <= k < Total(bl) && root < LengthAt(bl, first) && root < LengthAt(bl, k)
    && Region(bl, first, root) == Region(bl, k, root)
    && CodeAt(bl, first) == Shl(Region(bl, first, root), LengthAt(bl, first) - root)
    && Narrow(bl, root, curr, Region(bl, first, root), LengthAt(bl, first))
    && next <= Pow2(root) + first + Pow2(LengthAt(bl, first) - root)
  }

  /** The k-th code is about to be entered. */
  ghost predicate Ready(t: seq<Entry>, start: nat, root: nat, max: nat, bl: seq<nat>, es: seq<Entry>, k: nat,
                        next: nat, curr: nat, drop: nat, low: int, first: nat)
  {
    && Entries(es, bl) && k < Total(bl) && Longest(bl, max) && start + next + Pow2(curr) <= |t| && start + Pow2(root) <= |t|
    && Filled(t, start, root, next, curr, low, bl, es, k)
    && if LengthAt(bl, k) <= root then drop == 0 && next == 0 && curr == root && low == -1
       else
         && drop == root && 0 < curr < 16 && Pow2(root) <= next && low == Low(KeyAt(bl, k), root)
         && t[start + Low(KeyAt(bl, k), root)] == Entry(curr, root, next)
         && Wide(bl, root, curr, Region(bl, k, root), max) && SubRoom(bl, root, next, curr, k, first)
  }

  /** The k-th code has just been entered. */
  ghost predicate Entered(t: seq<Entry>, start: nat, root: nat, max: nat, bl: seq<nat>, es: seq<Entry>, k: nat,
                          next: nat, curr: nat, drop: nat, low: int, first: nat)
  {
    && Entries(es, bl) && k < Total(bl) && Longest(bl, max) && start + next + Pow2(curr) <= |t| && start + Pow2(root) <= |t|
    && Filled(t, start, root, next, curr, low, bl, es, k + 1)
    && if LengthAt(bl, k) <= root then drop == 0 && next == 0 && curr == root && low == -1
       else
         && drop == root && 0 < curr < 16 && Pow2(root) <= next && low == Low(KeyAt(bl, k), root)
         && t[start + Low(KeyAt(bl, k), root)] == Entry(curr, root, next)
         && Wide(bl, root, curr, Region(bl, k, root), max) && SubRoom(bl, root, next, curr, k, first)
  }

  lemma Enter(t: seq<Entry>, u: seq<Entry>, start: nat, root: nat, max: nat, bl: seq<nat>, es: seq<Entry>, k: nat,
              next: nat, curr: nat, drop: nat, low: int, first: nat)
    requires Fit(bl) && Ready(t, start, root, max, bl, es, k, next, curr, drop, low, first)
    requires drop <= LengthAt(bl, k)
    requires Replicated(t, u, start + next, curr, Shr(KeyAt(bl, k), drop), LengthAt(bl, k) - drop,
                        es[k].(bits := LengthAt(bl, k) - drop))
    ensures Entered(u, start, root, max, bl, es, k, next, curr, drop, low, first)
  {
    hide Fit, LengthAt, KeyAt, Total, Low, Shr, Pow2, CodeAt, Region, Wide, SubRoom, Filled, First, Shl, Narrow, Longest;
    if LengthAt(bl, k) <= root {
      Still(KeyAt(bl, k));
      EnterRoot(t, u, start, root, bl, es, k);
    } else {
      FitsTable(bl, k, root, curr, Region(bl, k, root), max);
      EnterSub(t, u, start, root, next, curr, bl, es, k);
    }
  }

  lemma Width(bl: seq<nat>, k: nat, root: nat, max: nat, curr: nat, drop: nat, t: seq<Entry>, start: nat, es: seq<Entry>,
              next: nat, low: int, first: nat)
    requires Ready(t, start, root, max, bl, es, k, next, curr, drop, low, first)
    ensures drop <= LengthAt(bl, k) && LengthAt(bl, k) - drop <= curr
    ensures Shr(KeyAt(bl, k), drop) < Pow2(LengthAt(bl, k) - drop)
  {
    hide LengthAt, KeyAt, Total, Low, Shr, Pow2, CodeAt, Region, Wide, SubRoom, Filled, First, Shl, Narrow, Longest;
    if LengthAt(bl, k) > root {
      FitsTable(bl, k, root, curr, Region(bl, k, root), max);
    }
    ShrBound(KeyAt(bl, k), LengthAt(bl, k) - drop, drop);
  }

  /** The next code goes into the same table. */
  lemma Advance(t: seq<Entry>, start: nat, root: nat, max: nat, bl: seq<nat>, es: seq<Entry>, k: nat,
                next: nat, curr: nat, drop: nat, low: int, first: nat)
    requires Fit(bl) && Entered(t, start, root, max, bl, es, k, next, curr, drop, low, first) && k + 1 < Total(bl)
    requires LengthAt(bl, k + 1) <= root || Low(KeyAt(bl, k + 1), root) == low
    ensures Ready(t, start, root, max, bl, es, k + 1, next, curr, drop, low, first)
  {
    hide Fit, LengthAt, KeyAt, Total, Low, Shr, Pow2, CodeAt, Region, Wide, Filled, First, Shl, Narrow, Longest;
    SortedLengths(bl, k, k + 1);
    if LengthAt(bl, k + 1) > root {
      MatchesItself(bl, k);
      MatchesItself(bl, k + 1);
      SameEntry(bl, k, k + 1, root, KeyAt(bl, k), KeyAt(bl, k + 1));
    }
  }

  /** Room for the next sub-table: all that went before, and this one. */
  lemma OpenRoom(t: seq<Entry>, start: nat, root: nat, max: nat, bl: seq<nat>, es: seq<Entry>, k: nat,
                 next: nat, curr: nat, drop: nat, low: int, first: nat)
    requires Full(bl) && Entered(t, start, root, max, bl, es, k, next, curr, drop, low, first) && k + 1 < Total(bl)
    requires LengthAt(bl, k + 1) > root && Low(KeyAt(bl, k + 1), root) != low
    ensures CodeAt(bl, k + 1) == Shl(Region(bl, k + 1, root), LengthAt(bl, k + 1) - root)
    ensures Pow2(root) <= next + Pow2(curr) <= Pow2(root) + k + 1 + Pow2(LengthAt(bl, k + 1) - root) <= Pow2(root) + Total(bl)
  {
    hide Full, LengthAt, KeyAt, Total, Low, Shr, Pow2, CodeAt, Region, Wide, Filled, First, Shl, Narrow, Longest;
    if LengthAt(bl, k) > root {
      SubRoomGrows(bl, k, root, next, curr, low, first);
    }
    FirstOfRegion(bl, k + 1 - 1, root);
    RestSize(bl, k + 1, root);
  }

  lemma SubRoomGrows(bl: seq<nat>, k: nat, root: nat, next: nat, curr: nat, low: int, first: nat)
    requires Full(bl) && |bl| == 16 && k + 1 < Total(bl) && SubRoom(bl, root, next, curr, k, first)
    requires LengthAt(bl, k + 1) > root && Low(KeyAt(bl, k), root) == low != Low(KeyAt(bl, k + 1), root)
    ensures Region(bl, k, root) != Region(bl, k + 1, root)
    ensures next + Pow2(curr) <= Pow2(root) + k + 1 + Pow2(LengthAt(bl, k + 1) - root)
  {
    hide Full, LengthAt, KeyAt, Total, Low, Shr, Pow2, CodeAt, Region, First, Shl, Narrow;
    FullFits(bl);
    MatchesItself(bl, k);
    MatchesItself(bl, k + 1);
    RegionKey(bl, k, root, KeyAt(bl, k));
    RegionKey(bl, k + 1, root, KeyAt(bl, k + 1));
    RegionRises(bl, k, k + 1, root);
    SortedLengths(bl, first, k + 1);
    NarrowIs(bl, root, curr, Region(bl, first, root), LengthAt(bl, first));
    NextIsWider(bl, k + 1, root, curr, Region(bl, first, root), LengthAt(bl, first));
    RegionSize(bl, first, k + 1, root);
    Pow2Mono(curr, LengthAt(bl, k + 1) - root);
  }

  lemma NarrowIs(bl: seq<nat>, root: nat, curr: nat, r: nat, len: nat)
    requires Narrow(bl, root, curr, r, len)
    ensures 0 < curr && root + curr <= 15
  {
  }

  /** The next code opens a sub-table. */
  lemma Open(t: seq<Entry>, start: nat, root: nat, max: nat, bl: seq<nat>, es: seq<Entry>, k: nat,
             next: nat, curr: nat, drop: nat, low: int, first: nat, next': nat, curr': nat)
    requires Full(bl) && Fit(bl) && Entered(t, start, root, max, bl, es, k, next, curr, drop, low, first)
      && k + 1 < Total(bl)
    requires LengthAt(bl, k + 1) > root && Low(KeyAt(bl, k + 1), root) != low
    requires next' == next + Pow2(curr) && start + next' + Pow2(curr') <= |t|
    requires Wide(bl, root, curr', Region(bl, k + 1, root), max)
    requires Narrow(bl, root, curr', Region(bl, k + 1, root), LengthAt(bl, k + 1))
    ensures var low' := Low(KeyAt(bl, k + 1), root);
      && start + low' < |t|
      && Ready(t[start + low' := Entry(curr', root, next')], start, root, max, bl, es, k + 1, next', curr', root, low', k + 1)
  {
    hide Fit, Full, LengthAt, KeyAt, Total, Low, Shr, Pow2, CodeAt, Region, Wide, Filled, First, Shl, Narrow, Longest;
    OpenRoom(t, start, root, max, bl, es, k, next, curr, drop, low, first);
    NarrowIs(bl, root, curr', Region(bl, k + 1, root), LengthAt(bl, k + 1));
    OpenSub(t, start, root, next, curr, low, bl, es, k + 1, next', curr');
  }

  /** The decrement of a count when its code has been entered, and what a count of zero tells. */
  lemma CountDown(count: seq<nat>, bl: seq<nat>, k: nat, max: nat)
    requires Remaining(count, bl, k) && k < Total(bl) && Longest(bl, max) && bl[max] > 0 && max >= 1
    ensures var len := LengthAt(bl, k);
      && len <= max && count[len] > 0 && Remaining(count[len := count[len] - 1], bl, k + 1)
      && (count[len] == 1 && len == max ==> k + 1 == Total(bl))
      && (count[len] == 1 && len != max ==> k + 1 < Total(bl))
      && (count[len] > 1 ==> k + 1 < Total(bl) && LengthAt(bl, k + 1) == len)
  {
    hide CodesUpTo;
    var len := LengthAt(bl, k);
    CodesStep(bl, len);
    CodesEnd(bl, max);
    CodesStep(bl, max);
    CodesRise(bl, len, 15);
    if len < max {
      CodesRise(bl, len, max - 1);
    }
    if k + 1 < CodesUpTo(bl, len) {
      LengthIs(bl, k + 1, len);
    }
    forall b | 1 <= b <= 15 && b != len ensures RemainingOf(bl, k, b) == RemainingOf(bl, k + 1, b) {
      CodesStep(bl, b);
      if b < len {
        CodesRise(bl, b, len - 1);
      } else {
        CodesRise(bl, len, b - 1);
      }
    }
  }

  lemma CodesEnd(bl: seq<nat>, max: nat)
    requires Longest(bl, max)
    ensures CodesUpTo(bl, max) == Total(bl)
  {
    NoneAfter(bl, max, 15);
  }

  lemma {:induction false} NoneAfter(bl: seq<nat>, max: nat, b: nat)
    requires Longest(bl, max) && max <= b <= 15
    ensures CodesUpTo(bl, b) == CodesUpTo(bl, max)
  {
    if max < b {
      NoneAfter(bl, max, b - 1);
    }
  }

  /** The entries of the symbols in sorted order. */
  ghost predicate EntriesOf(es: seq<Entry>, kind: CodeType, work: seq<nat>, bl: seq<nat>) {
    && |bl| == 16 && |es| == Total(bl) <= |work|
    && forall k | 0 <= k < |es| :: work[k] < Symbols(kind) && es[k] == EntryFor(kind, work[k], LengthAt(bl, k))
  }

  lemma EntriesAre(es: seq<Entry>, kind: CodeType, work: seq<nat>, bl: seq<nat>)
    requires EntriesOf(es, kind, work, bl)
    ensures Entries(es, bl)
  {
  }

  lemma EntryBits(kind: CodeType, sym: nat, b: nat, c: nat)
    requires sym < Symbols(kind)
    ensures EntryFor(kind, sym, b) == EntryFor(kind, sym, c).(bits := b)
  {
    match kind
    case CODES =>
    case LENS =>
    case DISTS =>
  }

  lemma EntryIs(es: seq<Entry>, kind: CodeType, work: seq<nat>, lens: seq<nat>, bl: seq<nat>, k: nat)
    requires EntriesOf(es, kind, work, bl) && k < Total(bl)
    ensures work[k] < Symbols(kind) && forall bits :: EntryFor(kind, work[k], bits) == es[k].(bits := bits)
  {
    hide EntryFor, LengthAt;
    forall bits ensures EntryFor(kind, work[k], bits) == es[k].(bits := bits) {
      EntryBits(kind, work[k], bits, LengthAt(bl, k));
    }
  }

  lemma SymbolAt(work: seq<nat>, lens: seq<nat>, bl: seq<nat>, k: nat)
    requires InOrder(work, lens, bl) && k < Total(bl)
    ensures k < |work| && work[k] < |lens| && lens[work[k]] == LengthAt(bl, k)
  {
    assert Placed(work, lens, bl, k, LengthAt(bl, k));
  }

  /** One more than a code, reversed, is the key of the next code. */
  lemma NextKey(bl: seq<nat>, k: nat)
    requires |bl| == 16 && k + 1 < Total(bl)
    ensures KeyAt(bl, k + 1) == Reversed(CodeAt(bl, k) + 1, LengthAt(bl, k))
  {
    hide LengthAt, CodeAt, Total, Reversed, Shl;
    NextCode(bl, k);
    KeyIs(bl, k + 1);
    ReversedShl(CodeAt(bl, k) + 1, LengthAt(bl, k), LengthAt(bl, k + 1) - LengthAt(bl, k));
  }

  lemma ReadyFirst(t: seq<Entry>, start: nat, root: nat, max: nat, bl: seq<nat>, es: seq<Entry>)
    requires Entries(es, bl) && Total(bl) > 0 && bl[0] == 0 && Longest(bl, max) && start + Pow2(root) <= |t|
    requires LengthAt(bl, 0) <= root
    ensures Ready(t, start, root, max, bl, es, 0, 0, root, 0, -1, 0) && KeyAt(bl, 0) == 0
  {
    hide LengthAt, CodeAt, Total, Pow2;
    FirstCode(bl);
    KeyIs(bl, 0);
    ReversedZero(LengthAt(bl, 0));
  }

  lemma {:induction false} ReversedZero(n: nat)
    ensures Reversed(0, n) == 0
  {
    if n > 0 {
      ReversedZero(n - 1);
      ShlZero(n - 1);
    }
  }

  /** How much of the table may be used. */
  ghost function Space(bl: seq<nat>, root: nat, max: nat): nat
    requires |bl| == 16 && root <= 15
  {
    Pow2(root) + if root < max then Total(bl) + Pow2(15 - root) else 0
  }

  lemma SpaceEnough(bl: seq<nat>, root: nat, max: nat, curr: nat, next: nat, r: nat)
    requires |bl| == 16 && root < max && next <= Pow2(root) + Total(bl) && Wide(bl, root, curr, r, max)
    ensures next + Pow2(curr) <= Space(bl, root, max)
  {
    hide Total;
    Pow2Mono(curr, 15 - root);
  }

  /** One turn of the for loop up to the increment of huff: the entry of a code and its replicas. */
  method EnterSymbol(kind: CodeType, s: nat, table: array<Entry>, start: nat, ghost root: nat, ghost max: nat,
                     ghost bl: seq<nat>, ghost es: seq<Entry>, ghost k: nat, huff: nat, len: nat, next: nat, curr: nat,
                     drop: nat, ghost low: int, ghost first: nat)
    returns (huff': nat)
    requires Fit(bl) && Ready(table[..], start, root, max, bl, es, k, next, curr, drop, low, first)
    requires |bl| == 16 && k < Total(bl) == |es| && huff == KeyAt(bl, k) && len == LengthAt(bl, k)
    requires s < Symbols(kind) && forall bits :: EntryFor(kind, s, bits) == es[k].(bits := bits)
    modifies table
    ensures Entered(table[..], start, root, max, bl, es, k, next, curr, drop, low, first)
    ensures huff' == Reversed(CodeAt(bl, k) + 1, len) && forall i | 0 <= i < start :: table[i] == old(table[i])
  {
    hide Fit, LengthAt, KeyAt, CodeAt, Total, Shr, Pow2, Reversed, Ready, Entered, Replicated, Inc, EntryFor;
    Width(bl, k, root, max, curr, drop, table[..], start, es, next, low, first);
    ReadyFits(table[..], start, root, max, bl, es, k, next, curr, drop, low, first);
    ghost var t := table[..];
    var e := EntryFor(kind, s, len - drop);
    Fill(table, start + next, curr, Shr(huff, drop), len - drop, e);
    FillFrame(t, table[..], start, next, curr, Shr(huff, drop), len - drop, e);
    Enter(t, table[..], start, root, max, bl, es, k, next, curr, drop, low, first);
    KeyIs(bl, k);
    IncIsNext(CodeAt(bl, k), len);
    huff' := BackIncrement(huff, len);
  }

  /** The for loop: makes the entry of every code, opening sub-tables for codes longer than root. */
  method FillTables(kind: CodeType, lens: seq<nat>, work: array<nat>, count: array<nat>, table: array<Entry>, start: nat,
                    root: nat, min: nat, max: nat, ghost bl: seq<nat>, ghost es: seq<Entry>)
    returns (ret: nat, huff: nat, len: nat, drop: nat, low: int, used: nat,
             ghost next: nat, ghost curr: nat, ghost first: nat)
    requires |bl| == 16 && bl[0] == 0 && Fit(bl) && (Full(bl) || max == 1) && Longest(bl, max) && bl[max] > 0
    requires Total(bl) > 0 && 1 <= min == LengthAt(bl, 0) <= root <= max <= 15
    requires InOrder(work[..], lens, bl) && EntriesOf(es, kind, work[..], bl)
    requires count != work && count.Length == 16 && Remaining(count[..], bl, 0)
    requires start + Space(bl, root, max) <= table.Length
    modifies count, table
    ensures ret == 0 || (ret == 1 && kind.LENS? && Space(bl, root, max) >= ENOUGH - MAXD)
    ensures used <= Space(bl, root, max) && forall i | 0 <= i < start :: table[i] == old(table[i])
    ensures ret == 0 ==> Entered(table[..], start, root, max, bl, es, Total(bl) - 1, next, curr, drop, low, first)
    ensures ret == 0 ==> len == LengthAt(bl, Total(bl) - 1) && huff == Reversed(CodeAt(bl, Total(bl) - 1) + 1, len)
    ensures ret == 0 ==> used == next + Pow2(curr)
  {
    hide Fit, Full, LengthAt, KeyAt, CodeAt, Total, Low, Shr, Shl, Pow2, Region, Reversed, Longest, InOrder, EntriesOf, Ready,
         Entered, Wide, Narrow, Remaining, Replicated, Inc, First, CodesUpTo, Entries;
    huff, len, low, drop := 0, min, -1, 0;
    used := Pow2(root);
    var sym: nat, nxt: nat, cur := 0, 0, root;
    first, next, curr := 0, 0, root;
    EntriesAre(es, kind, work[..], bl);
    ReadyFirst(table[..], start, root, max, bl, es);
    if kind == LENS && used >= ENOUGH - MAXD {
      ret := 1;
      return;
    }
    while true
      invariant sym < Total(bl) && len == LengthAt(bl, sym) && huff == KeyAt(bl, sym)
      invariant Ready(table[..], start, root, max, bl, es, sym, nxt, cur, drop, low, first)
      invariant Remaining(count[..], bl, sym) && used == nxt + Pow2(cur) <= Space(bl, root, max)
      invariant forall i | 0 <= i < start :: table[i] == old(table[i])
      decreases Total(bl) - sym
    {
      SymbolAt(work[..], lens, bl, sym);
      EntryIs(es, kind, work[..], lens, bl, sym);
      ReadyFits(table[..], start, root, max, bl, es, sym, nxt, cur, drop, low, first);
      huff := EnterSymbol(kind, work[sym], table, start, root, max, bl, es, sym, huff, len, nxt, cur, drop, low, first);
      CountDown(count[..], bl, sym, max);
      ghost var c := count[..];
      count[len] := count[len] - 1;
      assert count[..] == c[len := c[len] - 1];
      sym := sym + 1;
      if count[len] == 0 {
        if len == max {
          break;
        }
        SymbolAt(work[..], lens, bl, sym);
        len := lens[work[sym]];
      }
      NextKey(bl, sym - 1);
      if len > root && Low(huff, root) != low {
        MustBeFull(bl, max, sym, root);
        OpenRoom(table[..], start, root, max, bl, es, sym - 1, nxt, cur, drop, low, first);
        ghost var n0, c0, d0 := nxt, cur, drop;
        if drop == 0 {
          drop := root;
        }
        nxt := nxt + Pow2(cur);
        cur := SubTableBits(count, len, root, max, bl, sym);
        SpaceEnough(bl, root, max, cur, nxt, Region(bl, sym, root));
        Open(table[..], start, root, max, bl, es, sym - 1, n0, c0, d0, low, first, nxt, cur);
        used := used + Pow2(cur);
        if kind == LENS && used >= ENOUGH - MAXD {
          ret := 1;
          return;
        }
        low := Low(huff, root);
        ghost var u := table[..];
        table[start + low] := Entry(cur, root, nxt);
        assert table[..] == u[start + low := Entry(cur, root, nxt)];
        first := sym;
      } else {
        Advance(table[..], start, root, max, bl, es, sym - 1, nxt, cur, drop, low, first);
      }
    }
    next, curr, ret := nxt, cur, 0;
  }

  lemma ReadyFits(t: seq<Entry>, start: nat, root: nat, max: nat, bl: seq<nat>, es: seq<Entry>, k: nat,
                  next: nat, curr: nat, drop: nat, low: int, first: nat)
    requires Ready(t, start, root, max, bl, es, k, next, curr, drop, low, first)
    ensures start + next + Pow2(curr) <= |t| && |es| == Total(bl) && (drop == 0 || drop == root)
  {
  }

  lemma FillFrame(t: seq<Entry>, u: seq<Entry>, start: nat, next: nat, curr: nat, h: nat, l: nat, e: Entry)
    requires Replicated(t, u, start + next, curr, h, l, e)
    ensures |u| == |t| && forall i | 0 <= i < start :: u[i] == t[i]
  {
  }

  lemma MustBeFull(bl: seq<nat>, max: nat, k: nat, root: nat)
    requires |bl| == 16 && k < Total(bl) && Longest(bl, max) && (Full(bl) || max == 1) && 1 <= root < LengthAt(bl, k)
    ensures Full(bl) && LengthAt(bl, k) <= max
  {
    hide Full, Total;
  }

  // ---------------------------------------------------------------- what the finished table promises

  /** The input x, first bit lowest, begins with the code of symbol s. */
  ghost predicate Begins(lens: seq<nat>, s: nat, x: nat) {
    && s < |lens| && 0 < lens[s] <= 15
    && Low(x, lens[s]) == Reversed(Code(lens, Counts(lens), s), lens[s])
  }

  /** Looking up x stays in the table, and finds the one symbol that x begins with, or none. */
  ghost predicate Answers(t: seq<Entry>, start: nat, root: nat, kind: CodeType, lens: seq<nat>, x: nat)
    requires |lens| <= Symbols(kind)
  {
    && InRange(t, start, root, x)
    && (forall s: nat | Begins(lens, s, x) :: Decode(t, start, root, x) == EntryFor(kind, s, lens[s]))
    && ((forall s: nat :: !Begins(lens, s, x)) ==> Decode(t, start, root, x) == INVALID)
  }

  ghost predicate TableFor(t: seq<Entry>, start: nat, root: nat, kind: CodeType, lens: seq<nat>)
    requires |lens| <= Symbols(kind)
  {
    && 1 <= root <= 15 && (forall x: nat :: Answers(t, start, root, kind, lens, x))
    && (KraftSum(lens) == Pow2(15) ==> forall x: nat :: Known(lens, x))
  }

  ghost predicate Known(lens: seq<nat>, x: nat) {
    exists s: nat :: Begins(lens, s, x)
  }

  /** Symbols and places in the sorted order, with the same codes. */
  lemma PlaceOf(work: seq<nat>, lens: seq<nat>, bl: seq<nat>, s: nat) returns (k: nat)
    requires Lengths(lens) && bl == Counts(lens) && InOrder(work, lens, bl) && s < |lens| && lens[s] > 0
    ensures k < Total(bl) && k < |work| && work[k] == s && LengthAt(bl, k) == lens[s] && CodeAt(bl, k) == Code(lens, bl, s)
    ensures forall x: nat :: Matches(bl, k, x) <==> Begins(lens, s, x)
  {
    hide Count, CodesUpTo, Total, First, Low, Reversed, Rank;
    var b := lens[s];
    k := CodesUpTo(bl, b - 1) + Rank(lens, s);
    RankIs(lens, s);
    FreePlace(lens, bl, s, b);
    LengthIs(bl, k, b);
    assert Placed(work, lens, bl, k, b);
    if work[k] < s {
      RankOrder(lens, work[k], s);
    } else if s < work[k] {
      RankOrder(lens, s, work[k]);
    }
    forall x: nat ensures Matches(bl, k, x) <==> Begins(lens, s, x) {
      MatchIs(bl, k, x);
      KeyIs(bl, k);
    }
  }

  lemma SymbolOf(work: seq<nat>, lens: seq<nat>, bl: seq<nat>, k: nat, x: nat)
    requires Lengths(lens) && bl == Counts(lens) && InOrder(work, lens, bl) && k < Total(bl) && Matches(bl, k, x)
    ensures k < |work| && Begins(lens, work[k], x)
  {
    hide Count, CodesUpTo, First, Low, Reversed, Rank, LengthAt, CodeAt, Total, KeyAt, Matches;
    SymbolAt(work, lens, bl, k);
    var j := PlaceOf(work, lens, bl, work[k]);
    SamePlace(work, lens, bl, j, k);
  }

  lemma SamePlace(work: seq<nat>, lens: seq<nat>, bl: seq<nat>, j: nat, k: nat)
    requires InOrder(work, lens, bl) && j < Total(bl) && k < Total(bl) && work[j] == work[k]
    ensures j == k
  {
    hide Count, CodesUpTo, LengthAt, Total, Rank;
    assert Placed(work, lens, bl, k, LengthAt(bl, k));
    assert Placed(work, lens, bl, j, LengthAt(bl, j));
  }

  lemma Found(t: seq<Entry>, start: nat, root: nat, next: nat, curr: nat, low: int, bl: seq<nat>, es: seq<Entry>, k: nat, x: nat)
    requires Entries(es, bl) && Filled(t, start, root, next, curr, low, bl, es, Total(bl))
    requires k < Total(bl) && Matches(bl, k, x)
    ensures InRange(t, start, root, x) && Decode(t, start, root, x) == es[k]
  {
    hide Low, Shr, Total, LengthAt, Matches, Pow2;
    assert Served(t, start, root, next, curr, low, es[k], x);
  }

  lemma Answered(t: seq<Entry>, start: nat, root: nat, next: nat, curr: nat, low: int, kind: CodeType, lens: seq<nat>,
                 work: seq<nat>, bl: seq<nat>, es: seq<Entry>, k: nat, x: nat)
    requires Fit(bl) && Lengths(lens) && bl == Counts(lens) && InOrder(work, lens, bl) && EntriesOf(es, kind, work, bl)
    requires |lens| <= Symbols(kind) && Filled(t, start, root, next, curr, low, bl, es, Total(bl))
    requires k < Total(bl) && Matches(bl, k, x)
    ensures Answers(t, start, root, kind, lens, x)
  {
    hide Fit, Low, Reversed, Total, LengthAt, CodeAt, KeyAt, Matches, Count, CodesUpTo, First, EntryFor, Begins, Decode, InRange,
         Counts, Filled;
    EntriesAre(es, kind, work, bl);
    Found(t, start, root, next, curr, low, bl, es, k, x);
    SymbolAt(work, lens, bl, k);
    SymbolOf(work, lens, bl, k, x);
    forall s: nat | Begins(lens, s, x) ensures s == work[k] {
      BeginsCode(lens, s, x);
      var j := PlaceOf(work, lens, bl, s);
      if j < k {
        OnlyOne(bl, j, k, x);
      } else if k < j {
        OnlyOne(bl, k, j, x);
      }
    }
  }

  lemma BeginsCode(lens: seq<nat>, s: nat, x: nat)
    requires Begins(lens, s, x)
    ensures s < |lens| && lens[s] > 0
  {
  }

  lemma FullTable(t: seq<Entry>, start: nat, root: nat, next: nat, curr: nat, low: int, kind: CodeType, lens: seq<nat>,
                  work: seq<nat>, bl: seq<nat>, es: seq<Entry>)
    requires Full(bl) && Lengths(lens) && bl == Counts(lens) && InOrder(work, lens, bl) && EntriesOf(es, kind, work, bl)
    requires |lens| <= Symbols(kind) && Filled(t, start, root, next, curr, low, bl, es, Total(bl)) && 1 <= root <= 15
    ensures TableFor(t, start, root, kind, lens)
  {
    hide Full, Total, Matches, Counts, InOrder, EntriesOf, Filled, Answers, Lengths;
    FullFits(bl);
    forall x: nat ensures Answers(t, start, root, kind, lens, x) && Known(lens, x) {
      var k := SomeOne(bl, x);
      SymbolOf(work, lens, bl, k, x);
      Answered(t, start, root, next, curr, low, kind, lens, work, bl, es, k, x);
    }
  }

  /** A single code of one bit: its one-bit complement is no code. */
  lemma LoneTable(t: seq<Entry>, start: nat, next: nat, curr: nat, low: int, kind: CodeType, lens: seq<nat>,
                  work: seq<nat>, bl: seq<nat>, es: seq<Entry>)
    requires Fit(bl) && Lengths(lens) && bl == Counts(lens) && InOrder(work, lens, bl) && EntriesOf(es, kind, work, bl)
    requires |lens| <= Symbols(kind) && Total(bl) == 1 && LengthAt(bl, 0) == 1 && start + 1 < |t| && !Full(bl)
    requires Filled(t, start, 1, next, curr, low, bl, es, 1) && t[start + 1] == INVALID
    ensures TableFor(t, start, 1, kind, lens)
  {
    hide Fit, Total, Counts, InOrder, EntriesOf, Filled, Answers, Lengths, LengthAt, KeyAt, Matches, Begins, KraftSum, KraftUpTo;
    FirstKey(bl);
    KraftSumIs(lens, bl);
    forall x: nat ensures Answers(t, start, 1, kind, lens, x) {
      MatchIs(bl, 0, x);
      LowOne(x);
      if x % 2 == 0 {
        Answered(t, start, 1, next, curr, low, kind, lens, work, bl, es, 0, x);
      } else {
        if s: nat :| Begins(lens, s, x) {
          BeginsCode(lens, s, x);
          var k := PlaceOf(work, lens, bl, s);
          assert false;
        }
        NothingFound(t, start, kind, lens, x);
      }
    }
  }

  lemma LowOne(x: nat)
    ensures Low(x, 1) == x % 2
  {
    assert Low(x / 2, 0) == 0;
  }

  lemma FirstKey(bl: seq<nat>)
    requires Fit(bl) && |bl| == 16 && Total(bl) > 0
    ensures KeyAt(bl, 0) == 0
  {
    hide LengthAt, CodeAt, Total, Reversed;
    FirstCode(bl);
    KeyIs(bl, 0);
    ReversedZero(LengthAt(bl, 0));
  }

  lemma NothingFound(t: seq<Entry>, start: nat, kind: CodeType, lens: seq<nat>, x: nat)
    requires start + Low(x, 1) < |t| && t[start + Low(x, 1)] == INVALID && |lens| <= Symbols(kind)
    requires forall s: nat :: !Begins(lens, s, x)
    ensures Answers(t, start, 1, kind, lens, x)
  {
    hide Low, Begins;
  }

  lemma EmptyTable(t: seq<Entry>, start: nat, kind: CodeType, lens: seq<nat>)
    requires |lens| <= Symbols(kind) && start + 1 < |t| && t[start] == t[start + 1] == INVALID
    requires forall s | 0 <= s < |lens| :: lens[s] == 0
    ensures TableFor(t, start, 1, kind, lens)
  {
    hide Answers;
    SumZero(Shares(lens, 15, 15));
    forall x: nat ensures Answers(t, start, 1, kind, lens, x) {
      LowOne(x);
      forall s: nat ensures !Begins(lens, s, x) {
      }
      NothingFound(t, start, kind, lens, x);
    }
  }

  // ---------------------------------------------------------------- which lengths are accepted

  /** The Kraft sum of the lengths, times 2^15. */
  ghost function KraftSum(lens: seq<nat>): int {
    Sum(Shares(lens, 15, 15))
  }

  /** Complete sets, no codes at all, and single codes of one bit that are not code length codes. */
  ghost predicate Acceptable(kind: CodeType, lens: seq<nat>) {
    || KraftSum(lens) == Pow2(15)
    || (forall s | 0 <= s < |lens| :: lens[s] == 0)
    || (KraftSum(lens) < Pow2(15) && kind != CODES && forall s | 0 <= s < |lens| :: lens[s] <= 1)
  }

  lemma KraftSumIs(lens: seq<nat>, bl: seq<nat>)
    requires bl == Counts(lens)
    ensures KraftUpTo(bl, 15, 15) == KraftSum(lens)
  {
    hide KraftUpTo, Count;
    KraftFromCounts(bl, lens, 15, 15);
  }

  lemma LongestIs(lens: seq<nat>, bl: seq<nat>, max: nat)
    requires Lengths(lens) && bl == Counts(lens) && Longest(bl, max)
    ensures forall s | 0 <= s < |lens| :: lens[s] <= max
    ensures max > 0 && bl[max] > 0 ==> exists s | 0 <= s < |lens| :: lens[s] == max
  {
    hide Count;
    forall s | 0 <= s < |lens| ensures lens[s] <= max {
      RankBound(lens, s);
    }
    if max > 0 && bl[max] > 0 && forall s | 0 <= s < |lens| :: lens[s] != max {
      CountNone(lens, max);
    }
  }

  /** Which sets pass the test on what is left of the code space. */
  lemma AcceptedSets(kind: CodeType, lens: seq<nat>, bl: seq<nat>, max: nat)
    requires Lengths(lens) && bl == Counts(lens) && Longest(bl, max) && max > 0 && bl[max] > 0
    ensures Acceptable(kind, lens) <==>
      KraftUpTo(bl, 15, 15) == Pow2(15) || (KraftUpTo(bl, 15, 15) < Pow2(15) && kind != CODES && max == 1)
  {
    hide KraftUpTo, Count, Counts, KraftSum, Pow2;
    KraftSumIs(lens, bl);
    LongestIs(lens, bl, max);
  }

  lemma OverSubscribed(bl: seq<nat>, b: nat)
    requires |bl| == 16 && bl[0] == 0 && 1 <= b <= 15 && End(bl, b) > Pow2(b)
    ensures KraftUpTo(bl, 15, 15) > Pow2(15)
  {
    hide KraftUpTo, First, Pow2;
    if KraftUpTo(bl, 15, 15) <= Pow2(15) {
      FirstFits(bl, 15, b);
    }
  }

  lemma EndIsKraft(bl: seq<nat>)
    requires |bl| == 16 && bl[0] == 0
    ensures End(bl, 15) == KraftUpTo(bl, 15, 15)
  {
    hide KraftUpTo, First;
    FirstIsKraft(bl, 15);
  }

  lemma EndStep(bl: seq<nat>, b: nat)
    requires b + 1 < |bl|
    ensures End(bl, b + 1) == 2 * End(bl, b) + bl[b + 1] && Pow2(b + 1) == 2 * Pow2(b)
  {
  }

  /** The test for over-subscribed sets: what is left of the code space, or none when it ran out. */
  method CheckLengths(count: array<nat>, ghost bl: seq<nat>) returns (left: int)
    requires |bl| == 16 && bl[0] == 0 && count.Length == 16 && count[..][0 := 0] == bl
    ensures left >= 0 ==> left == Pow2(15) - KraftUpTo(bl, 15, 15)
    ensures left < 0 ==> KraftUpTo(bl, 15, 15) > Pow2(15)
  {
    hide KraftUpTo, End, Pow2;
    left := 1;
    EndStart(bl);
    for len := 1 to 16
      invariant left == Pow2(len - 1) - End(bl, len - 1) >= 0
    {
      left := 2 * left;
      assert count[len] == count[..][0 := 0][len];
      EndStep(bl, len - 1);
      left := left - count[len];
      if left < 0 {
        OverSubscribed(bl, len);
        return;
      }
    }
    EndIsKraft(bl);
  }

  lemma EndStart(bl: seq<nat>)
    requires |bl| == 16 && bl[0] == 0
    ensures End(bl, 0) == 0 && Pow2(0) == 1
  {
  }

  // ---------------------------------------------------------------- room

  /** Table entries that suffice for a set of lengths and a requested root size. */
  ghost function Room(bits: nat, lens: seq<nat>): nat
    requires bits <= 15
  {
    (if Pow2(bits) < |lens| then |lens| else Pow2(bits)) + if LongCodes(lens, bits) then |lens| + Pow2(15 - bits) else 0
  }

  ghost predicate LongCodes(lens: seq<nat>, bits: nat) {
    exists s | 0 <= s < |lens| :: lens[s] > bits
  }

  /** The room the source provides is enough for every set of lengths: the check against ENOUGH never fires. */
  lemma EnoughIsEnough(lens: seq<nat>, dists: seq<nat>, codes: seq<nat>)
    requires |lens| <= 288 && |dists| <= 32 && |codes| <= 19
    ensures Room(9, lens) < ENOUGH - MAXD
    ensures Room(9, lens) + Room(6, dists) <= ENOUGH
    ensures Room(7, codes) <= ENOUGH
  {
    hide Pow2;
    Pow2Values();
  }

  lemma ShortestFits(bl: seq<nat>)
    requires Full(bl) && |bl| == 16 && Total(bl) > 0 && bl[0] == 0
    ensures Pow2(LengthAt(bl, 0)) <= Total(bl)
  {
    hide Full, LengthAt, Total, Shl, Pow2, CodeAt;
    FirstCode(bl);
    RegionIs(bl, 0, 0);
    ShrZero(LengthAt(bl, 0));
    ShlZero(LengthAt(bl, 0));
    RestSize(bl, 0, 0);
  }

  lemma {:induction false} ShrZero(k: nat)
    ensures Shr(0, k) == 0
  {
    if k > 0 {
      ShrZero(k - 1);
    }
  }

  lemma SpaceFits(bl: seq<nat>, bits: nat, root: nat, max: nat, lens: seq<nat>)
    requires |bl| == 16 && bl[0] == 0 && (Full(bl) || max == 1) && Longest(bl, max) && 0 < Total(bl) <= |lens|
    requires max > bits ==> LongCodes(lens, bits)
    requires bits <= 15 && 1 <= LengthAt(bl, 0) <= root <= max
    requires root == bits || (root < bits && root == max) || (root > bits && root == LengthAt(bl, 0))
    ensures Space(bl, root, max) <= Room(bits, lens)
  {
    hide Full, Total, Pow2, LengthAt, LongCodes;
    if root < bits {
      Pow2Mono(root, bits);
    } else if bits < root {
      Pow2Mono(15 - root, 15 - bits);
      if Full(bl) {
        ShortestFits(bl);
      } else {
        Pow2Mono(1, 15);
        Pow2Mono(0, bits);
        assert bits == 0;
      }
    }
  }

  // ---------------------------------------------------------------- the whole function

  lemma LastHuff(bl: seq<nat>, len: nat)
    requires Full(bl) && |bl| == 16 && Total(bl) > 0 && len == LengthAt(bl, Total(bl) - 1)
    ensures Reversed(CodeAt(bl, Total(bl) - 1) + 1, len) == 0
  {
    hide Full, LengthAt, Total, CodeAt, Pow2;
    LastCode(bl);
    ReversedShl(1, 0, len);
    ShlIsMul(1, len);
  }

  /** A set that is accepted though it is not complete has one code, of one bit. */
  lemma Lone(bl: seq<nat>, max: nat)
    requires |bl| == 16 && bl[0] == 0 && !Full(bl) && Fit(bl) && Longest(bl, 1) && Total(bl) > 0
    ensures Total(bl) == 1 && LengthAt(bl, 0) == 1 && CodeAt(bl, 0) == 0
  {
    hide KraftUpTo, Pow2;
    CodesEnd(bl, 1);
    OneBitCodes(bl);
    FirstCode(bl);
    LengthIs(bl, 0, 1);
  }

  lemma OneBitCodes(bl: seq<nat>)
    requires |bl| == 16 && bl[0] == 0 && !Full(bl) && Fit(bl) && Longest(bl, 1) && CodesUpTo(bl, 1) > 0
    ensures CodesUpTo(bl, 1) == 1
  {
    hide Pow2;
    assert CodesUpTo(bl, 0) == 0;
    OneBitKraft(bl, 15);
    Pow2Add(1, 14);
    Pow2Values();
  }

  lemma {:induction false} OneBitKraft(bl: seq<nat>, b: nat)
    requires |bl| == 16 && Longest(bl, 1) && 1 <= b <= 15
    ensures KraftUpTo(bl, 15, b) == bl[1] * Pow2(14)
  {
    hide Pow2;
    if b > 1 {
      OneBitKraft(bl, b - 1);
    } else {
      assert KraftUpTo(bl, 15, 0) == 0;
    }
  }

  /** The loop that puts invalid code markers where the codes of an incomplete set end; there is only one such place. */
  method FillRest(table: array<Entry>, start: nat, root: nat, huff0: nat, len: nat, drop: nat, low: int)
    requires huff0 == 0 || (huff0 == 1 && len == 1 && drop == 0 && start + 1 < table.Length)
    modifies table
    ensures huff0 == 0 ==> table[..] == old(table[..])
    ensures huff0 != 0 ==> table[..] == old(table[..])[start + 1 := INVALID]
  {
    var huff := huff0;
    while huff != 0
      invariant huff == 0 || (huff == huff0 && table[..] == old(table[..]))
      invariant huff == 0 ==> table[..] == if huff0 == 0 then old(table[..]) else old(table[..])[start + 1 := INVALID]
      decreases huff
    {
      if drop != 0 && Low(huff, root) != low {
        // back to the root table: never reached, as the one code of an incomplete set is in the root table
        assert false;
      }
      Still(huff);
      table[start + Shr(huff, drop)] := Entry(64, len - drop, 0);
      IncOfOne();
      huff := BackIncrement(huff, len);
    }
  }

  lemma IncOfOne()
    ensures Inc(1, 1) == 0 && Pow2(1) == 2
  {
    assert Pow2(0) == 1;
    assert Inc(0, 0) == 0;
  }

  method LongestLength(count: array<nat>) returns (max: nat)
    requires count.Length == 16
    ensures Longest(count[..][0 := 0], max) && (max > 0 ==> count[max] > 0)
  {
    max := 15;
    while max >= 1 && count[max] == 0
      invariant max <= 15 && forall b | max < b <= 15 :: count[b] == 0
    {
      max := max - 1;
    }
  }

  method ShortestLength(count: array<nat>, ghost bl: seq<nat>, ghost max: nat) returns (min: nat)
    requires count.Length == 16 && bl == count[..][0 := 0] && 1 <= max <= 15 && count[max] > 0
    ensures 1 <= min <= max && Total(bl) > 0 && min == LengthAt(bl, 0)
  {
    hide CodesUpTo, LengthAt;
    min := 1;
    StartIs(bl);
    while min <= 15 && count[min] == 0
      invariant 1 <= min <= max && CodesUpTo(bl, min - 1) == 0
    {
      CodesStep(bl, min);
      min := min + 1;
    }
    CodesStep(bl, min);
    LengthIs(bl, 0, min);
  }

  lemma RemainingAtFirst(count: seq<nat>, bl: seq<nat>)
    requires |count| == 16 && bl == count[0 := 0]
    ensures Remaining(count, bl, 0)
  {
    hide CodesUpTo;
  }

  /** The second half of inflate_table, for a set of lengths that is accepted: sorting, entering, filling up. */
  method EnterSymbols(kind: CodeType, lens: seq<nat>, table: array<Entry>, start: nat, ghost bits: nat, work: array<nat>,
                      count: array<nat>, root: nat, min: nat, max: nat, ghost left: int, ghost bl: seq<nat>)
    returns (ret: int, next: nat)
    requires |lens| <= Symbols(kind) && Lengths(lens) && work.Length >= |lens| && 1 <= bits <= 15
    requires start + Room(bits, lens) <= table.Length && count != work && count.Length == 16
    requires bl == Counts(lens) && |bl| == 16 && bl[0] == 0 && count[..][0 := 0] == bl
      && left == Pow2(15) - KraftUpTo(bl, 15, 15) >= 0
    requires (left == 0 || max == 1) && max <= 15 && Longest(bl, max) && bl[max] > 0
      && (max > bits ==> LongCodes(lens, bits))
    requires Total(bl) > 0 && 1 <= min == LengthAt(bl, 0) <= root <= max
    requires root == bits || (root < bits && root == max) || (root > bits && root == LengthAt(bl, 0))
    modifies table, work, count
    ensures ret == 0 || (ret == 1 && kind.LENS? && Room(bits, lens) >= ENOUGH - MAXD)
    ensures ret == 0 ==> start <= next <= start + Room(bits, lens) && TableFor(table[..next], start, root, kind, lens)
    ensures forall i | 0 <= i < start :: table[i] == old(table[i])
  {
    hide Acceptable, TableFor, Full, Fit, Total, Pow2, LengthAt, Counts, Longest, KraftUpTo, Reversed, Remaining, InOrder,
         Entered, Lengths, EntriesOf, CodeAt, Low, Space, Room, LongCodes;
    FullOrFit(bl);
    SortSymbols(lens, count, work, bl);
    ghost var es := SortedEntries(kind, lens, work[..], bl);
    RoomToSort(lens, bl);
    SpaceFits(bl, bits, root, max, lens);
    RemainingAtFirst(count[..], bl);
    var huff, len, drop, low, used;
    ghost var nxt, cur, first;
    ret, huff, len, drop, low, used, nxt, cur, first :=
      FillTables(kind, lens, work, count, table, start, root, min, max, bl, es);
    if ret == 1 {
      next := start;
      return;
    }
    ghost var before := table[..];
    RestReady(before, start, root, max, bl, es, nxt, cur, drop, low, first, left, huff, len);
    FillRest(table, start, root, huff, len, drop, low);
    next := start + used;
    assert table[..next] == table[..][..next];
    RestDone(before, table[..], start, root, max, bl, es, nxt, cur, drop, low, first, left, huff, len, kind, lens, work[..]);
  }

  /** Where the codes end: at zero again, or, for a single code of one bit, at the other value of that bit. */
  lemma RestReady(t: seq<Entry>, start: nat, root: nat, max: nat, bl: seq<nat>, es: seq<Entry>, next: nat, curr: nat,
                  drop: nat, low: int, first: nat, left: int, huff: nat, len: nat)
    requires |bl| == 16 && bl[0] == 0 && Total(bl) > 0 && left == Pow2(15) - KraftUpTo(bl, 15, 15) >= 0
    requires (left == 0 || max == 1) && Longest(bl, max) && 1 <= root <= max
    requires Entered(t, start, root, max, bl, es, Total(bl) - 1, next, curr, drop, low, first)
    requires len == LengthAt(bl, Total(bl) - 1) && huff == Reversed(CodeAt(bl, Total(bl) - 1) + 1, len)
    ensures if left == 0 then huff == 0 else huff == 1 && len == 1 && drop == 0 && start + 1 < |t|
  {
    hide Full, Fit, Total, Pow2, LengthAt, Longest, KraftUpTo, Reversed, Entered, CodeAt;
    FullOrFit(bl);
    if left == 0 {
      LastHuff(bl, len);
    } else {
      Lone(bl, max);
      LoneEntered(t, start, root, max, bl, es, next, curr, drop, low, first);
    }
  }

  lemma RestDone(t: seq<Entry>, u: seq<Entry>, start: nat, root: nat, max: nat, bl: seq<nat>, es: seq<Entry>, next: nat,
                 curr: nat, drop: nat, low: int, first: nat, left: int, huff: nat, len: nat, kind: CodeType, lens: seq<nat>,
                 work: seq<nat>)
    requires |bl| == 16 && bl[0] == 0 && Total(bl) > 0 && left == Pow2(15) - KraftUpTo(bl, 15, 15) >= 0
    requires (left == 0 || max == 1) && Longest(bl, max) && 1 <= root <= max <= 15
    requires Entered(t, start, root, max, bl, es, Total(bl) - 1, next, curr, drop, low, first)
    requires len == LengthAt(bl, Total(bl) - 1) && huff == Reversed(CodeAt(bl, Total(bl) - 1) + 1, len)
    requires Lengths(lens) && bl == Counts(lens) && InOrder(work, lens, bl) && EntriesOf(es, kind, work, bl)
    requires |lens| <= Symbols(kind) && |u| == |t|
    requires huff == 0 ==> u == t
    requires huff != 0 ==> start + 1 < |t| && u == t[start + 1 := INVALID]
    ensures start + next + Pow2(curr) <= |t| && TableFor(u[..start + next + Pow2(curr)], start, root, kind, lens)
  {
    hide Full, Fit, Total, Pow2, LengthAt, Longest, KraftUpTo, Reversed, Entered, CodeAt, Lengths, Counts, InOrder, EntriesOf,
         TableFor;
    RestReady(t, start, root, max, bl, es, next, curr, drop, low, first, left, huff, len);
    FullOrFit(bl);
    EnteredAll(t, start, root, max, bl, es, next, curr, drop, low, first);
    if left == 0 {
      FullTable(u[..start + next + Pow2(curr)], start, root, next, curr, low, kind, lens, work, bl, es);
    } else {
      Lone(bl, max);
      LoneEntered(t, start, root, max, bl, es, next, curr, drop, low, first);
      LoneTable(u[..start + next + Pow2(curr)], start, next, curr, low, kind, lens, work, bl, es);
    }
  }

  ghost predicate AtMost(lens: seq<nat>, b: nat) {
    forall s | 0 <= s < |lens| :: lens[s] <= b
  }

  /** Builds the tables to decode a set of code lengths: -1 for a set that is no prefix code, 1 when the space provided for
      literal/length tables might not suffice, else 0, with the table at `start`, the first free entry `next`, and the
      number of index bits of the root table. */
  method InflateTable(kind: CodeType, lens: seq<nat>, table: array<Entry>, start: nat, bits: nat, work: array<nat>)
    returns (ret: int, next: nat, root: nat)
    requires |lens| <= Symbols(kind) && Lengths(lens) && work.Length >= |lens| && 1 <= bits <= 15
    requires start + Room(bits, lens) <= table.Length
    modifies table, work
    ensures ret == -1 <==> !Acceptable(kind, lens)
    ensures ret == -1 || ret == 0 || (ret == 1 && kind.LENS? && bits != 9 && Room(bits, lens) >= ENOUGH - MAXD)
    ensures ret == 0 ==> start <= next <= start + Room(bits, lens) && TableFor(table[..next], start, root, kind, lens)
    ensures ret == 0 && AtMost(lens, bits) ==> AtMost(lens, root)
    ensures forall i | 0 <= i < start :: table[i] == old(table[i])
  {
    hide Acceptable, TableFor, Full, Fit, Total, Pow2, LengthAt, Counts, Longest, KraftUpTo, Reversed, Remaining, InOrder,
         Entered, Lengths, EntriesOf, CodeAt, Low, Space, Room;
    var count := CountCodes(lens);
    ghost var bl := Counts(lens);
    root := bits;
    var max := LongestLength(count);
    if root > max {
      root := max;
    }
    LongestBound(bl, max);
    LengthsAre(lens, bl);
    RoomIs(bits, lens);
    if max == 0 {
      table[start] := INVALID;
      table[start + 1] := INVALID;
      NoLengthsAtAll(kind, lens, bl);
      EmptyTable(table[..start + 2], start, kind, lens);
      ret, next, root := 0, start + 2, 1;
      return;
    }
    var min := ShortestLength(count, bl, max);
    if root < min {
      root := min;
    }
    AcceptedSets(kind, lens, bl, max);
    assert bl[max] > 0;
    var left := CheckLengths(count, bl);
    if left < 0 {
      ret, next, root := -1, start, bits;
      return;
    }
    if left > 0 && (kind == CODES || max != 1) {
      ret, next, root := -1, start, bits;
      return;
    }
    LongestIs(lens, bl, max);
    ret, next := EnterSymbols(kind, lens, table, start, bits, work, count, root, min, max, left, bl);
    if kind == LENS && bits == 9 {
      EnoughIsEnough(lens, [], []);
    }
  }

  lemma LongestBound(bl: seq<nat>, max: nat)
    requires Longest(bl, max)
    ensures max <= 15
  {
  }

  lemma LengthsAre(lens: seq<nat>, bl: seq<nat>)
    requires bl == Counts(lens)
    ensures |bl| == 16 && bl[0] == 0
  {
  }

  lemma RoomIs(bits: nat, lens: seq<nat>)
    requires 1 <= bits <= 15
    ensures Room(bits, lens) >= 2
  {
  }

  lemma NoLengthsAtAll(kind: CodeType, lens: seq<nat>, bl: seq<nat>)
    requires Lengths(lens) && bl == Counts(lens) && Longest(bl, 0)
    ensures Acceptable(kind, lens) && forall s | 0 <= s < |lens| :: lens[s] == 0
  {
    hide KraftSum, Counts;
    LongestIs(lens, bl, 0);
  }

  lemma FullOrFit(bl: seq<nat>)
    requires |bl| == 16 && bl[0] == 0 && KraftUpTo(bl, 15, 15) <= Pow2(15)
    ensures Fit(bl) && (Full(bl) <==> KraftUpTo(bl, 15, 15) == Pow2(15))
  {
  }

  ghost function SortedEntries(kind: CodeType, lens: seq<nat>, work: seq<nat>, bl: seq<nat>): (es: seq<Entry>)
    requires |lens| <= Symbols(kind) && InOrder(work, lens, bl)
    ensures EntriesOf(es, kind, work, bl)
  {
    seq(Total(bl), k requires 0 <= k < Total(bl) && Placed(work, lens, bl, k, LengthAt(bl, k)) =>
      EntryFor(kind, work[k], LengthAt(bl, k)))
  }

  lemma LoneEntered(t: seq<Entry>, start: nat, root: nat, max: nat, bl: seq<nat>, es: seq<Entry>,
                    next: nat, curr: nat, drop: nat, low: int, first: nat)
    requires Entered(t, start, root, max, bl, es, 0, next, curr, drop, low, first) && root == 1 && LengthAt(bl, 0) == 1
    requires CodeAt(bl, 0) == 0
    ensures drop == 0 && start + 1 < start + next + Pow2(curr) <= |t| && |es| == Total(bl)
    ensures Reversed(CodeAt(bl, 0) + 1, LengthAt(bl, 0)) == 1
    ensures Filled(t[start + 1 := INVALID][..start + next + Pow2(curr)], start, root, next, curr, low, bl, es, 1)
  {
    var u := t[start + 1 := INVALID];
    assert Pow2(0) == 1 && Pow2(1) == 2;
    assert Filled(u, start, root, next, curr, low, bl, es, 1);
    FilledPrefix(u, start, root, next, curr, low, bl, es, 1);
  }

  /** Nothing of a table lies beyond the entries it uses. */
  lemma FilledPrefix(t: seq<Entry>, start: nat, root: nat, next: nat, curr: nat, low: int, bl: seq<nat>, es: seq<Entry>, k: nat)
    requires |bl| == 16 && k <= Total(bl) && k <= |es| && Filled(t, start, root, next, curr, low, bl, es, k)
    requires start + next + Pow2(curr) <= |t| && Pow2(root) <= next + Pow2(curr)
    ensures Filled(t[..start + next + Pow2(curr)], start, root, next, curr, low, bl, es, k)
  {
    hide LengthAt, Total, Low, Shr, Pow2, Matches;
    var u := t[..start + next + Pow2(curr)];
    forall j, x: nat | 0 <= j < k && Matches(bl, j, x) ensures Served(u, start, root, next, curr, low, es[j], x) {
      assert Served(t, start, root, next, curr, low, es[j], x);
    }
  }

  lemma EnteredAll(t: seq<Entry>, start: nat, root: nat, max: nat, bl: seq<nat>, es: seq<Entry>,
                   next: nat, curr: nat, drop: nat, low: int, first: nat)
    requires |bl| == 16 && Total(bl) > 0
    requires Entered(t, start, root, max, bl, es, Total(bl) - 1, next, curr, drop, low, first)
    ensures |es| == Total(bl) && start + next + Pow2(curr) <= |t|
    ensures Filled(t[..start + next + Pow2(curr)], start, root, next, curr, low, bl, es, Total(bl))
  {
    hide Total, LengthAt, Pow2, Filled, KeyAt, Wide, SubRoom, Low, Longest, Entries;
    EntriesSize(es, bl);
    FilledPrefix(t, start, root, next, curr, low, bl, es, Total(bl));
  }

  lemma EntriesSize(es: seq<Entry>, bl: seq<nat>)
    requires Entries(es, bl)
    ensures |bl| == 16 && |es| == Total(bl)
  {
  }

  lemma AnswersStill(t: seq<Entry>, u: seq<Entry>, start: nat, root: nat, kind: CodeType, lens: seq<nat>, x: nat)
    requires |lens| <= Symbols(kind) && Answers(t, start, root, kind, lens, x) && t <= u
    ensures Answers(u, start, root, kind, lens, x)
  {
    hide Low, Shr, Begins, EntryFor;
  }

  /** A table stays what it is when entries after it change. */
  lemma TableStays(t: seq<Entry>, u: seq<Entry>, start: nat, root: nat, kind: CodeType, lens: seq<nat>)
    requires |lens| <= Symbols(kind) && TableFor(t, start, root, kind, lens) && t <= u
    ensures TableFor(u, start, root, kind, lens)
  {
    hide Answers, KraftSum, Known, Pow2;
    forall x: nat ensures Answers(u, start, root, kind, lens, x) {
      AnswersStill(t, u, start, root, kind, lens, x);
    }
  }
}
