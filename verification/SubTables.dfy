/** Which codes share a sub-table in inflate_table (src/ext/zlib/inftrees.c), how wide that sub-table has to be, and how
    much room all sub-tables take. */
module SubTables {
  import opened Bits
  import opened LengthLimit
  import opened Canonical
  import opened Reversal
  import opened CodeOrder

  /** The first `root` bits of the k-th code; codes that agree on them share an entry of the root table. */
  ghost function Region(bl: seq<nat>, k: nat, root: nat): nat
    requires |bl| == 16 && k < Total(bl) && root <= LengthAt(bl, k)
  {
    Shr(CodeAt(bl, k), LengthAt(bl, k) - root)
  }

  lemma RegionBound(bl: seq<nat>, k: nat, root: nat)
    requires Fit(bl) && k < Total(bl) && root <= LengthAt(bl, k)
    ensures Region(bl, k, root) < Pow2(root)
  {
    hide LengthAt, CodeAt, Total, Shr, Pow2;
    CodeAtFits(bl, k);
    ShrBound(CodeAt(bl, k), root, LengthAt(bl, k) - root);
  }

  /** The root entry of a long code is its region, reversed. */
  lemma RegionKey(bl: seq<nat>, k: nat, root: nat, x: nat)
    requires |bl| == 16 && k < Total(bl) && root <= LengthAt(bl, k) && Matches(bl, k, x)
    ensures Low(x, root) == Reversed(Region(bl, k, root), root)
  {
    hide LengthAt, CodeAt, Total, Low, Shr, Reversed, Matches;
    LeadingBits(bl, k, x, root);
  }

  lemma SameEntry(bl: seq<nat>, j: nat, k: nat, root: nat, x: nat, y: nat)
    requires Fit(bl) && |bl| == 16 && j < Total(bl) && k < Total(bl) && root <= LengthAt(bl, j) && root <= LengthAt(bl, k)
    requires Matches(bl, j, x) && Matches(bl, k, y) && Low(x, root) == Low(y, root)
    ensures Region(bl, j, root) == Region(bl, k, root)
  {
    hide LengthAt, CodeAt, Total, Low, Shr, Reversed, Matches, Region;
    RegionKey(bl, j, root, x);
    RegionKey(bl, k, root, y);
    RegionBound(bl, j, root);
    RegionBound(bl, k, root);
    ReversedInjective(Region(bl, j, root), Region(bl, k, root), root);
  }

  lemma RegionRises(bl: seq<nat>, j: nat, k: nat, root: nat)
    requires |bl| == 16 && j <= k < Total(bl) && root <= LengthAt(bl, j)
    ensures LengthAt(bl, j) <= LengthAt(bl, k) && Region(bl, j, root) <= Region(bl, k, root)
  {
    hide LengthAt, CodeAt, Total, Shr, Shl;
    if j < k {
      Later(bl, j, k);
      var d := LengthAt(bl, k) - LengthAt(bl, j);
      ShrAtLeast(CodeAt(bl, k), CodeAt(bl, j) + 1, d);
      ShrShr(CodeAt(bl, k), d, LengthAt(bl, j) - root);
      ShrMono(CodeAt(bl, j), Shr(CodeAt(bl, k), d), LengthAt(bl, j) - root);
    }
  }

  /** The first code of a region is the region followed by zeros. */
  lemma FirstOfRegion(bl: seq<nat>, k: nat, root: nat)
    requires |bl| == 16 && k + 1 < Total(bl) && root <= LengthAt(bl, k + 1)
    requires LengthAt(bl, k) > root ==> Region(bl, k, root) != Region(bl, k + 1, root)
    ensures CodeAt(bl, k + 1) == Shl(Region(bl, k + 1, root), LengthAt(bl, k + 1) - root)
    ensures LengthAt(bl, k) > root ==> Region(bl, k + 1, root) == Region(bl, k, root) + 1
  {
    hide LengthAt, CodeAt, Total, Shr, Shl;
    NextCode(bl, k);
    var a, b, c := LengthAt(bl, k), LengthAt(bl, k + 1), CodeAt(bl, k);
    if a <= root {
      ShlShl(c + 1, root - a, b - root);
      ShrOfShl(Shl(c + 1, root - a), b - root);
    } else {
      ShrOfShl(c + 1, b - a);
      ShrShr(CodeAt(bl, k + 1), b - a, a - root);
      ShrOfNext(c, a - root);
      ShlShl(Shr(c + 1, a - root), a - root, b - a);
    }
  }

  // ---------------------------------------------------------------- the width of a sub-table

  /** The value at which the codes of up to b bits end. */
  ghost function End(bl: seq<nat>, b: nat): nat
    requires b < |bl|
  {
    First(bl, b) + bl[b]
  }

  /** A table of `curr` bits holds every code of region r. */
  ghost predicate Wide(bl: seq<nat>, root: nat, curr: nat, r: nat, max: nat) {
    |bl| == 16 && root + curr <= max <= 15 && (root + curr == max || End(bl, root + curr) >= Shl(r + 1, curr))
  }

  /** The codes of region r, the shortest of which has `len` bits, need a table of `curr` bits. */
  ghost predicate Narrow(bl: seq<nat>, root: nat, curr: nat, r: nat, len: nat) {
    && |bl| == 16 && 0 < curr && root + curr <= 15 && len <= root + curr
    && (len == root + curr || End(bl, root + curr - 1) < Shl(r + 1, curr - 1))
  }

  ghost predicate Longest(bl: seq<nat>, max: nat) {
    |bl| == 16 && max <= 15 && forall b | max < b <= 15 :: bl[b] == 0
  }

  lemma EndRises(bl: seq<nat>, a: nat, b: nat)
    requires a < b < |bl|
    ensures First(bl, b) >= Shl(End(bl, a), b - a)
    ensures End(bl, b) >= Shl(End(bl, a), b - a)
  {
    FirstGrows(bl, a, b);
  }

  lemma FitsTable(bl: seq<nat>, j: nat, root: nat, curr: nat, r: nat, max: nat)
    requires Wide(bl, root, curr, r, max) && Longest(bl, max) && j < Total(bl)
    requires root <= LengthAt(bl, j) && Region(bl, j, root) == r
    ensures LengthAt(bl, j) <= root + curr
  {
    hide CodeAt, Total, Shr, Shl, First, End, CodesUpTo;
    var b := LengthAt(bl, j);
    if root + curr < b {
      EndRises(bl, root + curr, b);
      ShlMono(Shl(r + 1, curr), End(bl, root + curr), b - root - curr);
      ShlShl(r + 1, curr, b - root - curr);
      ShrAtLeast(CodeAt(bl, j), r + 1, b - root);
    }
  }

  lemma NextIsWider(bl: seq<nat>, j: nat, root: nat, curr: nat, r: nat, len: nat)
    requires Narrow(bl, root, curr, r, len) && j < Total(bl)
    requires root <= LengthAt(bl, j) && len <= LengthAt(bl, j) && Region(bl, j, root) > r
    ensures LengthAt(bl, j) >= root + curr
  {
    hide CodeAt, Total, Shr, Shl, First, End, CodesUpTo;
    var b := LengthAt(bl, j);
    if b < root + curr {
      ShrAtLeast(CodeAt(bl, j), r + 1, b - root);
      EndIs(bl, b);
      if b < root + curr - 1 {
        EndRises(bl, b, root + curr - 1);
        ShlMono(Shl(r + 1, b - root), End(bl, b), root + curr - 1 - b);
        ShlShl(r + 1, b - root, root + curr - 1 - b);
      }
    }
  }

  lemma EndIs(bl: seq<nat>, b: nat)
    requires b < |bl|
    ensures First(bl, b) + bl[b] == End(bl, b)
  {
  }

  // ---------------------------------------------------------------- how many codes a region has

  /** Cut to the length of an earlier code, codes rise by at most one from one to the next. */
  lemma {:induction false} Steps(bl: seq<nat>, i: nat, j: nat)
    requires |bl| == 16 && i <= j < Total(bl)
    ensures LengthAt(bl, i) <= LengthAt(bl, j)
    ensures Shr(CodeAt(bl, j), LengthAt(bl, j) - LengthAt(bl, i)) <= CodeAt(bl, i) + (j - i)
    decreases j
  {
    hide LengthAt, CodeAt, Total, Shr, Shl;
    if i == j {
      Still(CodeAt(bl, i));
    } else {
      Steps(bl, i, j - 1);
      NextCode(bl, j - 1);
      var d, e := LengthAt(bl, j) - LengthAt(bl, j - 1), LengthAt(bl, j - 1) - LengthAt(bl, i);
      ShrShr(CodeAt(bl, j), d, e);
      ShrOfShl(CodeAt(bl, j - 1) + 1, d);
      ShrOfNext(CodeAt(bl, j - 1), e);
    }
  }

  /** Between the first code of a region and a code of a later region lie all codes of the region. */
  lemma RegionSize(bl: seq<nat>, i: nat, j: nat, root: nat)
    requires |bl| == 16 && i < j < Total(bl) && root <= LengthAt(bl, i)
    requires CodeAt(bl, i) == Shl(Region(bl, i, root), LengthAt(bl, i) - root)
    requires LengthAt(bl, i) <= LengthAt(bl, j) && Region(bl, i, root) < Region(bl, j, root)
    ensures j - i >= Pow2(LengthAt(bl, i) - root)
  {
    hide LengthAt, CodeAt, Total, Shr, Shl, Pow2, Region;
    Steps(bl, i, j);
    var a := LengthAt(bl, i) - root;
    var r := Region(bl, i, root);
    ShlMono(r + 1, Region(bl, j, root), a);
    ShlIsMul(r, a);
    ShlIsMul(r + 1, a);
    OneMoreTimes(r, Pow2(a));
    RegionIs(bl, j, root);
    ShrShr(CodeAt(bl, j), LengthAt(bl, j) - LengthAt(bl, i), a);
    ShrAtLeast(Shr(CodeAt(bl, j), LengthAt(bl, j) - LengthAt(bl, i)), r + 1, a);
  }

  lemma RegionIs(bl: seq<nat>, k: nat, root: nat)
    requires |bl| == 16 && k < Total(bl) && root <= LengthAt(bl, k)
    ensures Region(bl, k, root) == Shr(CodeAt(bl, k), LengthAt(bl, k) - root)
  {
  }

  lemma OneMoreTimes(r: int, p: int)
    ensures (r + 1) * p == r * p + p
  {
  }

  /** The codes from the first of a region to the last of all fill at least that region. */
  lemma RestSize(bl: seq<nat>, i: nat, root: nat)
    requires Full(bl) && |bl| == 16 && i < Total(bl) && root <= LengthAt(bl, i)
    requires CodeAt(bl, i) == Shl(Region(bl, i, root), LengthAt(bl, i) - root)
    ensures Total(bl) - i >= Pow2(LengthAt(bl, i) - root)
  {
    hide LengthAt, CodeAt, Total, Shr, Shl, Pow2, Region, Full;
    var n := Total(bl) - 1;
    FullFits(bl);
    LastCode(bl);
    Steps(bl, i, n);
    RegionBound(bl, i, root);
    var l, a := LengthAt(bl, i), LengthAt(bl, i) - root;
    AllOnes(l, LengthAt(bl, n) - l);
    var r := Region(bl, i, root);
    ShlMono(r + 1, Pow2(root), a);
    ShlIsMul(r, a);
    ShlIsMul(r + 1, a);
    ShlIsMul(Pow2(root), a);
    Pow2Add(root, a);
    OneMoreTimes(r, Pow2(a));
  }

  /** The leading bits of all ones are all ones. */
  lemma {:induction false} AllOnes(l: nat, d: nat)
    ensures Shr(Pow2(l + d) - 1, d) == Pow2(l) - 1
    decreases d
  {
    if d > 0 {
      assert (Pow2(l + d) - 1) / 2 == Pow2(l + d - 1) - 1;
      AllOnes(l, d - 1);
    }
  }
}
