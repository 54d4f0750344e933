/** The table that inflate_table fills (src/ext/zlib/inftrees.c, inftrees.h) and inflate looks codes up in: what a lookup
    yields, and why entering one more code or opening one more sub-table disturbs no code entered before. */
module DecodeTables {
  import opened Bits
  import opened Canonical
  import opened CodeLengths
  import opened CodeOrder
  import opened SubTables
  import opened Reversal

  datatype Entry = Entry(op: nat, bits: nat, val: nat)

  datatype CodeType = CODES | LENS | DISTS

  const LBASE: seq<nat> := [3, 4, 5, 6, 7, 8, 9, 10, 11, 13, 15, 17, 19, 23, 27, 31,
                            35, 43, 51, 59, 67, 83, 99, 115, 131, 163, 195, 227, 258, 0, 0]
  const LEXT: seq<nat> := [16, 16, 16, 16, 16, 16, 16, 16, 17, 17, 17, 17, 18, 18, 18, 18,
                           19, 19, 19, 19, 20, 20, 20, 20, 21, 21, 21, 21, 16, 201, 196]
  const DBASE: seq<nat> := [1, 2, 3, 4, 5, 7, 9, 13, 17, 25, 33, 49, 65, 97, 129, 193, 257, 385, 513, 769, 1025, 1537, 2049,
                            3073, 4097, 6145, 8193, 12289, 16385, 24577, 0, 0]
  const DEXT: seq<nat> := [16, 16, 16, 16, 17, 17, 18, 18, 19, 19, 20, 20, 21, 21, 22, 22, 23, 23, 24, 24, 25, 25, 26, 26,
                           27, 27, 28, 28, 29, 29, 64, 64]

  /** How many symbols a code of each type may have. */
  function Symbols(kind: CodeType): nat {
    match kind
    case CODES => 19
    case LENS => 288
    case DISTS => 32
  }

  /** The shortest match length that a length symbol stands for. */
  function LBase(s: nat): nat
    requires 257 <= s < 288
  {
    LBASE[s - 257]
  }

  /** The operation of a length symbol: 16 plus its extra bits, or a bit that marks it as invalid. */
  function LExt(s: nat): (e: nat)
    requires 257 <= s < 288
    ensures e >= 16
  {
    LEXT[s - 257]
  }

  function DBase(s: nat): nat
    requires s < 32
  {
    DBASE[s]
  }

  function DExt(s: nat): (e: nat)
    requires s < 32
    ensures e >= 16
  {
    DEXT[s]
  }

  /** The entry of a symbol. */
  function EntryFor(kind: CodeType, sym: nat, bits: nat): (e: Entry)
    requires sym < Symbols(kind)
    ensures e.bits == bits && !Link(e)
  {
    match kind
    case CODES => Entry(0, bits, sym)
    case LENS =>
      if sym < 256 then Entry(0, bits, sym)
      else if sym > 256 then Entry(LExt(sym), bits, LBase(sym))
      else Entry(96, bits, 0)
    case DISTS => Entry(DExt(sym), bits, DBase(sym))
  }

  const INVALID := Entry(64, 1, 0)

  /** An entry of the root table that leads on to a sub-table. */
  predicate Link(e: Entry) {
    0 < e.op < 16
  }

  function SecondIndex(e: Entry, x: nat): nat {
    e.val + Low(Shr(x, e.bits), e.op)
  }

  /** Looking up the input x stays inside the table. */
  predicate InRange(t: seq<Entry>, start: nat, root: nat, x: nat) {
    && start + Low(x, root) < |t|
    && var e := t[start + Low(x, root)];
       Link(e) ==>
         (e.bits == root && start + SecondIndex(e, x) < |t|
          && !Link(t[start + SecondIndex(e, x)]) && t[start + SecondIndex(e, x)].bits >= 1)
  }

  /** The entry that the low bits of x lead to in at most two steps, with all the bits of the code. */
  function Decode(t: seq<Entry>, start: nat, root: nat, x: nat): Entry
    requires InRange(t, start, root, x)
  {
    var e := t[start + Low(x, root)];
    if Link(e) then
      var f := t[start + SecondIndex(e, x)];
      Entry(f.op, e.bits + f.bits, f.val)
    else e
  }

  // ---------------------------------------------------------------- what the table holds while it is being filled

  /** The input x finds the entry e for a code of len bits; the sub-table being filled has `curr` bits, lies at `next` and
      belongs to root entry `low`, all others lie before it. */
  ghost predicate Served(t: seq<Entry>, start: nat, root: nat, next: nat, curr: nat, low: int, e: Entry, x: nat) {
    && start + Low(x, root) < |t|
    && var r := t[start + Low(x, root)];
       if e.bits <= root then r == e
       else
         && Link(r) && r.bits == root && Pow2(root) <= r.val
         && (if Low(x, root) == low then r.val == next && r.op == curr else r.val + Pow2(r.op) <= next)
         && start + SecondIndex(r, x) < |t| && t[start + SecondIndex(r, x)] == e.(bits := e.bits - root)
  }

  ghost predicate Filled(t: seq<Entry>, start: nat, root: nat, next: nat, curr: nat, low: int, bl: seq<nat>, es: seq<Entry>,
                         k: nat)
    requires |bl| == 16 && k <= Total(bl) && k <= |es|
  {
    forall j, x: nat | 0 <= j < k && Matches(bl, j, x) :: Served(t, start, root, next, curr, low, es[j], x)
  }

  ghost predicate Entries(es: seq<Entry>, bl: seq<nat>) {
    && |bl| == 16 && |es| == Total(bl)
    && forall j | 0 <= j < |es| :: es[j].bits == LengthAt(bl, j) && !Link(es[j])
  }

  /** The entries from `at` on whose low l bits are h are now e. */
  ghost predicate Replicated(t: seq<Entry>, u: seq<Entry>, at: nat, curr: nat, h: nat, l: nat, e: Entry) {
    && |u| == |t| && at + Pow2(curr) <= |t|
    && (forall i | 0 <= i < |t| && !(at <= i < at + Pow2(curr)) :: u[i] == t[i])
    && (forall i | at <= i < at + Pow2(curr) :: u[i] == if Low(i - at, l) == h then e else t[i])
  }

  /** Entering a short code in the root table. */
  lemma EnterRoot(t: seq<Entry>, u: seq<Entry>, start: nat, root: nat, bl: seq<nat>, es: seq<Entry>, k: nat)
    requires Fit(bl) && Entries(es, bl) && k < Total(bl) && LengthAt(bl, k) <= root
    requires Filled(t, start, root, 0, root, -1, bl, es, k)
    requires Replicated(t, u, start, root, KeyAt(bl, k), LengthAt(bl, k), es[k])
    ensures Filled(u, start, root, 0, root, -1, bl, es, k + 1)
  {
    hide Fit, LengthAt, KeyAt, Total, Low, Pow2, Matches;
    forall j, x: nat | 0 <= j < k + 1 && Matches(bl, j, x)
      ensures Served(u, start, root, 0, root, -1, es[j], x)
    {
      LowLow(x, root, LengthAt(bl, k));
      MatchIs(bl, k, x);
      if j < k {
        SortedLengths(bl, j, k);
        OnlyOne(bl, j, k, x);
      }
    }
  }

  lemma MatchIs(bl: seq<nat>, k: nat, x: nat)
    requires |bl| == 16 && k < Total(bl)
    ensures Matches(bl, k, x) <==> Low(x, LengthAt(bl, k)) == KeyAt(bl, k)
  {
  }

  lemma SortedLengths(bl: seq<nat>, j: nat, k: nat)
    requires |bl| == 16 && j <= k < Total(bl)
    ensures LengthAt(bl, j) <= LengthAt(bl, k)
  {
    if j < k {
      Later(bl, j, k);
    }
  }

  /** Entering a long code in the current sub-table. */
  lemma EnterSub(t: seq<Entry>, u: seq<Entry>, start: nat, root: nat, next: nat, curr: nat, bl: seq<nat>, es: seq<Entry>,
                 k: nat)
    requires Fit(bl) && Entries(es, bl) && k < Total(bl) && root < LengthAt(bl, k) <= root + curr && 0 < curr < 16
    requires Pow2(root) <= next && start + next + Pow2(curr) <= |t|
    requires var low := Low(KeyAt(bl, k), root);
      t[start + low] == Entry(curr, root, next) && Filled(t, start, root, next, curr, low, bl, es, k)
    requires Replicated(t, u, start + next, curr, Shr(KeyAt(bl, k), root), LengthAt(bl, k) - root,
                        es[k].(bits := LengthAt(bl, k) - root))
    ensures Filled(u, start, root, next, curr, Low(KeyAt(bl, k), root), bl, es, k + 1)
  {
    hide Fit, LengthAt, KeyAt, Total, Low, Shr, Pow2, Matches, Served;
    var low := Low(KeyAt(bl, k), root);
    forall j, x: nat | 0 <= j < k + 1 && Matches(bl, j, x)
      ensures Served(u, start, root, next, curr, low, es[j], x)
    {
      SubKey(bl, k, root, curr, x);
      if j < k {
        OnlyOne(bl, j, k, x);
        ServedStill(t, u, start, root, next, curr, low, es[j], x, Shr(KeyAt(bl, k), root), LengthAt(bl, k) - root,
                    es[k].(bits := LengthAt(bl, k) - root));
      } else {
        ServedNow(t, u, start, root, next, curr, low, es[k], x, Shr(KeyAt(bl, k), root), LengthAt(bl, k) - root);
      }
    }
  }

  /** An input begins with a long code if it agrees in the root bits and in the rest. */
  lemma SubKey(bl: seq<nat>, k: nat, root: nat, curr: nat, x: nat)
    requires |bl| == 16 && k < Total(bl) && root < LengthAt(bl, k) <= root + curr
    ensures Matches(bl, k, x) <==>
      && Low(x, root) == Low(KeyAt(bl, k), root)
      && Low(Low(Shr(x, root), curr), LengthAt(bl, k) - root) == Shr(KeyAt(bl, k), root)
  {
    hide LengthAt, KeyAt, Total, Low, Shr, Pow2, Matches;
    var h, l := KeyAt(bl, k), LengthAt(bl, k);
    MatchIs(bl, k, x);
    LowLow(Shr(x, root), curr, l - root);
    LowParts(x, root, l - root);
    LowParts(h, root, l - root);
    LowSmall(h, l);
    LowShr(h, root, l - root);
    LowShr(x, root, l - root);
    LowLow(x, l, root);
  }

  lemma ServedStill(t: seq<Entry>, u: seq<Entry>, start: nat, root: nat, next: nat, curr: nat, low: int, e: Entry, x: nat,
                    h: nat, l: nat, f: Entry)
    requires Served(t, start, root, next, curr, low, e, x) && Pow2(root) <= next
    requires Replicated(t, u, start + next, curr, h, l, f)
    requires !(Low(x, root) == low && Low(Low(Shr(x, root), curr), l) == h)
    ensures Served(u, start, root, next, curr, low, e, x)
  {
    hide Low, Shr, Pow2;
  }

  lemma ServedNow(t: seq<Entry>, u: seq<Entry>, start: nat, root: nat, next: nat, curr: nat, low: nat, e: Entry, x: nat,
                  h: nat, l: nat)
    requires Pow2(root) <= next && start + next + Pow2(curr) <= |t| && 0 < curr < 16 && low < Pow2(root)
    requires t[start + low] == Entry(curr, root, next) && e.bits == root + l && l > 0
    requires Replicated(t, u, start + next, curr, h, l, e.(bits := l))
    requires Low(x, root) == low && Low(Low(Shr(x, root), curr), l) == h
    ensures Served(u, start, root, next, curr, low, e, x)
  {
    hide Low, Shr, Pow2;
  }

  /** Opening a sub-table for a root entry that no earlier code uses. */
  lemma OpenSub(t: seq<Entry>, start: nat, root: nat, next: nat, curr: nat, low: int, bl: seq<nat>, es: seq<Entry>, k: nat,
                next': nat, curr': nat)
    requires Fit(bl) && Entries(es, bl) && 0 < k < Total(bl) && root < LengthAt(bl, k)
    requires Filled(t, start, root, next, curr, low, bl, es, k)
    requires LengthAt(bl, k - 1) > root ==> low == Low(KeyAt(bl, k - 1), root)
    requires Low(KeyAt(bl, k), root) != low
    requires next' == next + Pow2(curr) && start + Pow2(root) <= |t|
    ensures var low' := Low(KeyAt(bl, k), root);
      Filled(t[start + low' := Entry(curr', root, next')], start, root, next', curr', low', bl, es, k)
  {
    hide Fit, LengthAt, KeyAt, Total, Low, Shr, Pow2, Matches, Served, Region;
    var low' := Low(KeyAt(bl, k), root);
    var u := t[start + low' := Entry(curr', root, next')];
    forall j, x: nat | 0 <= j < k && Matches(bl, j, x)
      ensures Served(u, start, root, next', curr', low', es[j], x)
    {
      if Low(x, root) == low' {
        EntryTaken(bl, j, k, root, low, x);
      }
      ServedElsewhere(t, start, root, next, curr, low, es[j], x, low', next', curr');
    }
  }

  lemma EntryTaken(bl: seq<nat>, j: nat, k: nat, root: nat, low: int, x: nat)
    requires Fit(bl) && |bl| == 16 && j < k < Total(bl) && root < LengthAt(bl, k) && Matches(bl, j, x)
    requires LengthAt(bl, k - 1) > root ==> low == Low(KeyAt(bl, k - 1), root)
    requires Low(x, root) == Low(KeyAt(bl, k), root)
    ensures low == Low(KeyAt(bl, k), root)
  {
    hide Fit, LengthAt, KeyAt, Total, Low, Shr, Pow2, Matches, Region;
    var y, z := KeyAt(bl, k), KeyAt(bl, k - 1);
    var l := LengthAt(bl, j);
    MatchesItself(bl, k);
    MatchesItself(bl, k - 1);
    SortedLengths(bl, j, k - 1);
    if l <= root {
      LowLow(x, root, l);
      LowLow(y, root, l);
      MatchIs(bl, j, x);
      MatchIs(bl, j, y);
      OnlyOne(bl, j, k, y);
    } else {
      SameEntry(bl, j, k, root, x, y);
      RegionRises(bl, j, k - 1, root);
      RegionRises(bl, k - 1, k, root);
      RegionKey(bl, k - 1, root, z);
      RegionKey(bl, k, root, y);
    }
  }

  lemma MatchesItself(bl: seq<nat>, k: nat)
    requires |bl| == 16 && k < Total(bl)
    ensures Matches(bl, k, KeyAt(bl, k))
  {
    LowSmall(KeyAt(bl, k), LengthAt(bl, k));
  }

  lemma ServedElsewhere(t: seq<Entry>, start: nat, root: nat, next: nat, curr: nat, low: int, e: Entry, x: nat,
                        low': nat, next': nat, curr': nat)
    requires Served(t, start, root, next, curr, low, e, x) && low' < Pow2(root) && start + Pow2(root) <= |t|
    requires Low(x, root) != low' && next' == next + Pow2(curr)
    ensures Served(t[start + low' := Entry(curr', root, next')], start, root, next', curr', low', e, x)
  {
    hide Low, Shr, Pow2;
  }
}
