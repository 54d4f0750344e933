/** Code lengths as a sequence indexed by symbol, 0 for a symbol without a code: how many codes there are of each length,
    what they cost, and what the counts say about the Kraft sum. */
module CodeLengths {
  import opened Bits
  import opened PairTree
  import opened LengthLimit

  ghost function Marks(s: seq<nat>, b: nat): (r: seq<int>)
    ensures |r| == |s| && forall i | 0 <= i < |s| :: r[i] == if s[i] == b then 1 else 0
  {
    seq(|s|, i requires 0 <= i < |s| => if s[i] == b then 1 else 0)
  }

  /** How many entries are b. */
  ghost function Count(s: seq<nat>, b: nat): (n: nat)
    ensures n <= |s|
  {
    CountBound(Marks(s, b));
    Sum(Marks(s, b))
  }

  lemma {:induction false} CountBound(m: seq<int>)
    requires forall i | 0 <= i < |m| :: m[i] == 0 || m[i] == 1
    ensures 0 <= Sum(m) <= |m|
  {
    if m != [] {
      CountBound(m[..|m| - 1]);
    }
  }

  lemma CountUpdate(s: seq<nat>, i: nat, x: nat, b: nat)
    requires i < |s|
    ensures Count(s[i := x], b) == Count(s, b) - (if s[i] == b then 1 else 0) + (if x == b then 1 else 0)
  {
    SumUpdate(Marks(s, b), i, if x == b then 1 else 0);
    assert Marks(s[i := x], b) == Marks(s, b)[i := if x == b then 1 else 0];
  }

  lemma CountNone(s: seq<nat>, b: nat)
    requires forall i | 0 <= i < |s| :: s[i] != b
    ensures Count(s, b) == 0
  {
    SumZero(Marks(s, b));
  }

  lemma CountAppend(s: seq<nat>, x: nat, b: nat)
    ensures Count(s + [x], b) == Count(s, b) + if x == b then 1 else 0
  {
    assert Marks(s + [x], b)[..|s|] == Marks(s, b);
  }

  /** What f occurrences of a code cost. */
  function Spend(f: nat, bits: nat, extra: nat): nat {
    f * (bits + extra)
  }

  /** The bits needed for all occurrences, extra bits included. */
  ghost function Terms(len: seq<nat>, freq: seq<nat>, base: seq<nat>, extra: seq<nat>): (r: seq<int>)
    requires |freq| >= |len| && |base| >= |len| && |extra| >= |len|
    ensures |r| == |len|
    ensures forall i | 0 <= i < |len| :: r[i] == if len[i] == 0 then 0 else Spend(freq[i], base[i], extra[i])
  {
    seq(|len|, i requires 0 <= i < |len| => if len[i] == 0 then 0 else Spend(freq[i], base[i], extra[i]))
  }

  /** Bits spent on the symbols that have a code in `len`, when their codes have the lengths `base`. */
  ghost function BitCost(len: seq<nat>, freq: seq<nat>, base: seq<nat>, extra: seq<nat>): int
    requires |freq| >= |len| && |base| >= |len| && |extra| >= |len|
  {
    Sum(Terms(len, freq, base, extra))
  }

  lemma BitCostUpdate(len: seq<nat>, freq: seq<nat>, base: seq<nat>, extra: seq<nat>, i: nat, x: nat, base': seq<nat>)
    requires |freq| >= |len| && |base| >= |len| && |extra| >= |len| && i < |len| && x != 0
    requires |base'| >= |len| && forall k | 0 <= k < |len| && k != i && len[k] != 0 :: base'[k] == base[k]
    ensures BitCost(len[i := x], freq, base', extra) == BitCost(len, freq, base, extra)
      - (if len[i] == 0 then 0 else Spend(freq[i], base[i], extra[i])) + Spend(freq[i], base'[i], extra[i])
  {
    SumUpdate(Terms(len, freq, base, extra), i, Spend(freq[i], base'[i], extra[i]));
    assert Terms(len[i := x], freq, base', extra) == Terms(len, freq, base, extra)[i := Spend(freq[i], base'[i], extra[i])];
  }

  lemma BitCostNone(len: seq<nat>, freq: seq<nat>, base: seq<nat>, extra: seq<nat>)
    requires |freq| >= |len| && |base| >= |len| && |extra| >= |len| && forall i | 0 <= i < |len| :: len[i] == 0
    ensures BitCost(len, freq, base, extra) == 0
  {
    SumZero(Terms(len, freq, base, extra));
  }

  // ---------------------------------------------------------------- the Kraft sum from the counts

  ghost function Shares(s: seq<nat>, limit: nat, c: nat): (r: seq<int>)
    requires c <= limit
    ensures |r| == |s| && forall i | 0 <= i < |s| :: r[i] == if 1 <= s[i] <= c then Pow2(limit - s[i]) else 0
  {
    seq(|s|, i requires 0 <= i < |s| => if 1 <= s[i] <= c then Pow2(limit - s[i]) else 0)
  }

  ghost predicate Counted(bl: seq<nat>, s: seq<nat>, limit: nat) {
    limit < |bl| && forall b | 1 <= b <= limit :: bl[b] == Count(s, b)
  }

  lemma {:induction false} SharesStep(s: seq<nat>, limit: nat, c: nat)
    requires 1 <= c <= limit
    ensures Sum(Shares(s, limit, c)) == Sum(Shares(s, limit, c - 1)) + Count(s, c) * Pow2(limit - c)
  {
    if s == [] {
      CountNone(s, c);
    } else {
      var n := |s| - 1;
      SharesStep(s[..n], limit, c);
      assert Shares(s, limit, c)[..n] == Shares(s[..n], limit, c);
      assert Shares(s, limit, c - 1)[..n] == Shares(s[..n], limit, c - 1);
      assert s == s[..n] + [s[n]];
      CountAppend(s[..n], s[n], c);
      Difference(Count(s[..n], c) + 1, 1, Pow2(limit - c));
    }
  }

  /** A sum over the counts is a sum over the codes. */
  lemma {:induction false} KraftFromCounts(bl: seq<nat>, s: seq<nat>, limit: nat, c: nat)
    requires Counted(bl, s, limit) && c <= limit
    ensures KraftUpTo(bl, limit, c) == Sum(Shares(s, limit, c))
  {
    if c == 0 {
      SumZero(Shares(s, limit, 0));
    } else {
      KraftFromCounts(bl, s, limit, c - 1);
      SharesStep(s, limit, c);
    }
  }

  ghost function Coded(s: seq<nat>, c: nat): (r: seq<int>)
    ensures |r| == |s| && forall i | 0 <= i < |s| :: r[i] == if 1 <= s[i] <= c then 1 else 0
  {
    seq(|s|, i requires 0 <= i < |s| => if 1 <= s[i] <= c then 1 else 0)
  }

  lemma {:induction false} CodedStep(s: seq<nat>, c: nat)
    requires 1 <= c
    ensures Sum(Coded(s, c)) == Sum(Coded(s, c - 1)) + Count(s, c)
  {
    if s == [] {
      CountNone(s, c);
    } else {
      var n := |s| - 1;
      CodedStep(s[..n], c);
      assert Coded(s, c)[..n] == Coded(s[..n], c);
      assert Coded(s, c - 1)[..n] == Coded(s[..n], c - 1);
      assert s == s[..n] + [s[n]];
      CountAppend(s[..n], s[n], c);
    }
  }

  lemma {:induction false} CodesFromCounts(bl: seq<nat>, s: seq<nat>, limit: nat, c: nat)
    requires Counted(bl, s, limit) && c <= limit
    ensures CodesUpTo(bl, c) == Sum(Coded(s, c))
  {
    if c == 0 {
      SumZero(Coded(s, 0));
    } else {
      CodesFromCounts(bl, s, limit, c - 1);
      CodedStep(s, c);
    }
  }
}
