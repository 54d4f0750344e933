/** The repair of gen_bitlen (src/ext/zlib/trees.c): leaves that the tree puts deeper than the limit have been counted at
    the limit, and the counts are turned into those of a complete code again. */
module LengthLimit {
  import opened Bits

  /** The Kraft sum, times 2^limit, of the codes of 1 to b bits. */
  ghost function KraftUpTo(bl: seq<nat>, limit: nat, b: nat): nat
    requires b <= limit < |bl|
  {
    if b == 0 then 0 else KraftUpTo(bl, limit, b - 1) + bl[b] * Pow2(limit - b)
  }

  ghost function CodesUpTo(bl: seq<nat>, b: nat): nat
    requires b < |bl|
  {
    if b == 0 then 0 else CodesUpTo(bl, b - 1) + bl[b]
  }

  lemma {:induction false} KraftUpdate(bl: seq<nat>, limit: nat, b: nat, i: nat, x: nat)
    requires b <= limit < |bl| && 1 <= i < |bl|
    ensures KraftUpTo(bl[i := x], limit, b) == KraftUpTo(bl, limit, b) + if i <= b then (x - bl[i]) * Pow2(limit - i) else 0
    ensures CodesUpTo(bl[i := x], b) == CodesUpTo(bl, b) + if i <= b then x - bl[i] else 0
  {
    if b > 0 {
      KraftUpdate(bl, limit, b - 1, i, x);
      if i == b {
        Difference(x, bl[i], Pow2(limit - i));
      }
    }
  }

  lemma OneLess(bl: seq<nat>, limit: nat, b: nat, i: nat)
    requires b <= limit < |bl| && 1 <= i <= limit && bl[i] > 0
    ensures var r := bl[i := bl[i] - 1];
      && KraftUpTo(bl, limit, b) == KraftUpTo(r, limit, b) + (if i <= b then Pow2(limit - i) else 0)
      && CodesUpTo(bl, b) == CodesUpTo(r, b) + (if i <= b then 1 else 0)
  {
    KraftUpdate(bl, limit, b, i, bl[i] - 1);
    Difference(bl[i] - 1, bl[i], Pow2(limit - i));
    Difference(bl[i], 1, Pow2(limit - i));
  }

  lemma TwoMore(bl: seq<nat>, limit: nat, b: nat, i: nat)
    requires b <= limit < |bl| && 1 <= i <= limit
    ensures var r := bl[i := bl[i] + 2];
      && KraftUpTo(r, limit, b) == KraftUpTo(bl, limit, b) + (if i <= b then 2 * Pow2(limit - i) else 0)
      && CodesUpTo(r, b) == CodesUpTo(bl, b) + (if i <= b then 2 else 0)
  {
    KraftUpdate(bl, limit, b, i, bl[i] + 2);
    Difference(bl[i] + 2, bl[i], Pow2(limit - i));
    Difference(bl[i] + 2, 2, Pow2(limit - i));
  }

  lemma Difference(x: int, y: int, p: int)
    ensures (x - y) * p == x * p - y * p
  {
  }

  lemma {:induction false} AllAtLimit(bl: seq<nat>, limit: nat, b: nat)
    requires b <= limit < |bl| && forall i | 1 <= i <= b :: bl[i] == 0
    ensures KraftUpTo(bl, limit, b) == 0 && CodesUpTo(bl, b) == 0
  {
    if b > 0 {
      AllAtLimit(bl, limit, b - 1);
    }
  }

  /** `owed` pairs of leaves still have to be taken in. */
  ghost predicate Owing(bl: seq<nat>, limit: nat, owed: nat) {
    && 1 <= limit < |bl|
    && KraftUpTo(bl, limit, limit) == Pow2(limit) + owed
    && KraftUpTo(bl, limit, limit - 1) <= Pow2(limit)
    && CodesUpTo(bl, limit) <= Pow2(limit)
  }

  ghost predicate Movable(bl: seq<nat>, limit: nat, b: nat) {
    1 <= b < limit < |bl| && bl[b] > 0 && forall i | b < i < limit :: bl[i] == 0
  }

  lemma AtLimit(bl: seq<nat>, limit: nat)
    requires 1 <= limit < |bl|
    ensures KraftUpTo(bl, limit, limit) == KraftUpTo(bl, limit, limit - 1) + bl[limit]
    ensures CodesUpTo(bl, limit) == CodesUpTo(bl, limit - 1) + bl[limit]
  {
    assert Pow2(limit - limit) == 1;
  }

  /** While leaves are owed there is one above the limit to move down, and one at the limit to move up beside it. */
  lemma SomethingToMove(bl: seq<nat>, limit: nat, owed: nat)
    requires Owing(bl, limit, owed) && owed > 0
    ensures bl[limit] >= owed
    ensures exists b | 1 <= b < limit :: bl[b] > 0
  {
    AtLimit(bl, limit);
    if forall b | 1 <= b < limit :: bl[b] == 0 {
      AllAtLimit(bl, limit, limit - 1);
    }
  }

  /** The three updates of one turn of the repair loop. */
  function MoveOne(bl: seq<nat>, limit: nat, b: nat): (r: seq<nat>)
    requires 1 <= b < limit < |bl| && bl[b] > 0 && bl[limit] > 0
    ensures |r| == |bl|
  {
    var s := bl[b := bl[b] - 1];
    var t := s[b + 1 := s[b + 1] + 2];
    t[limit := t[limit] - 1]
  }

  lemma MoveOnePays(bl: seq<nat>, limit: nat, owed: nat, b: nat)
    requires Owing(bl, limit, owed) && owed > 0 && Movable(bl, limit, b) && bl[limit] > 0
    ensures Owing(MoveOne(bl, limit, b), limit, owed - 1)
    ensures CodesUpTo(MoveOne(bl, limit, b), limit) == CodesUpTo(bl, limit)
  {
    hide KraftUpTo, CodesUpTo;
    var s := bl[b := bl[b] - 1];
    var t := s[b + 1 := s[b + 1] + 2];
    OneLess(bl, limit, limit, b);
    TwoMore(s, limit, limit, b + 1);
    OneLess(t, limit, limit, limit);
    OneLess(bl, limit, limit - 1, b);
    TwoMore(s, limit, limit - 1, b + 1);
    OneLess(t, limit, limit - 1, limit);
    assert Pow2(limit - b) == 2 * Pow2(limit - b - 1);
    assert Pow2(limit - limit) == 1;
  }

  /** The longest code shorter than b + 1 bits that is in use. */
  function Shorter(bl: seq<nat>, b: nat): (r: nat)
    requires b < |bl|
    ensures r <= b && (r > 0 ==> bl[r] > 0) && forall i | r < i <= b :: bl[i] == 0
  {
    if b == 0 || bl[b] != 0 then b else Shorter(bl, b - 1)
  }

  lemma {:induction false} ShorterIs(bl: seq<nat>, b: nat, r: nat)
    requires 0 < r <= b < |bl| && bl[r] > 0 && forall i | r < i <= b :: bl[i] == 0
    ensures Shorter(bl, b) == r
  {
    if b > r {
      ShorterIs(bl, b - 1, r);
    }
  }

  /** The counts after so many turns of the repair loop, each of which moves the longest code that can be moved. */
  function Repaired(bl: seq<nat>, limit: nat, turns: nat): (r: seq<nat>)
    requires 1 <= limit < |bl|
    ensures |r| == |bl|
    decreases turns
  {
    if turns == 0 then bl
    else
      var b := Shorter(bl, limit - 1);
      if b > 0 && bl[limit] > 0 then Repaired(MoveOne(bl, limit, b), limit, turns - 1) else bl
  }

  lemma RepairedStep(bl: seq<nat>, limit: nat, turns: nat, b: nat)
    requires 1 <= b < limit < |bl| && bl[b] > 0 && bl[limit] > 0 && (forall i | b < i < limit :: bl[i] == 0) && turns > 0
    ensures Repaired(bl, limit, turns) == Repaired(MoveOne(bl, limit, b), limit, turns - 1)
  {
    hide MoveOne;
    ShorterIs(bl, limit - 1, b);
  }

  lemma RepairedNone(bl: seq<nat>, limit: nat)
    requires 1 <= limit < |bl|
    ensures Repaired(bl, limit, 0) == bl
  {
  }

  /** do { ... } while (overflow > 0): exactly one turn for every two nodes beyond the limit, each of which finds a
      shorter code to move, after which the code is complete with as many leaves as before. */
  method RepairCounts(blCount: array<nat>, limit: nat, overflow0: nat) returns (ghost turns: nat)
    requires overflow0 > 0 && overflow0 % 2 == 0 && limit < blCount.Length
    requires Owing(blCount[..], limit, overflow0 / 2)
    modifies blCount
    ensures Owing(blCount[..], limit, 0)
    ensures CodesUpTo(blCount[..], limit) == CodesUpTo(old(blCount[..]), limit)
    ensures blCount[0] == old(blCount[0]) && forall i | limit < i < blCount.Length :: blCount[i] == old(blCount[i])
    ensures turns == overflow0 / 2 && limit >= 1 && blCount[..] == Repaired(old(blCount[..]), limit, turns)
  {
    hide KraftUpTo, CodesUpTo, Pow2, Owing, Repaired;
    OwingLimit(blCount[..], limit, overflow0 / 2);
    var overflow: int := overflow0;
    turns := 0;
    while true
      invariant overflow > 0 && overflow % 2 == 0 && overflow == overflow0 - 2 * turns
      invariant Owing(blCount[..], limit, overflow / 2) && 1 <= limit < blCount.Length
      invariant Repaired(blCount[..], limit, overflow / 2) == Repaired(old(blCount[..]), limit, overflow0 / 2)
      invariant CodesUpTo(blCount[..], limit) == CodesUpTo(old(blCount[..]), limit)
      invariant blCount[0] == old(blCount[0]) && forall i | limit < i < blCount.Length :: blCount[i] == old(blCount[i])
      decreases overflow
    {
      ghost var bl := blCount[..];
      SomethingToMove(bl, limit, overflow / 2);
      var bits := limit - 1;
      while blCount[bits] == 0
        invariant 1 <= bits < limit && forall i | bits < i < limit :: blCount[i] == 0
        decreases bits
      {
        bits := bits - 1;
      }
      MoveOnePays(bl, limit, overflow / 2, bits);
      RepairedStep(bl, limit, overflow / 2, bits);
      blCount[bits] := blCount[bits] - 1;
      blCount[bits + 1] := blCount[bits + 1] + 2;
      blCount[limit] := blCount[limit] - 1;
      assert blCount[..] == MoveOne(bl, limit, bits);
      overflow, turns := overflow - 2, turns + 1;
      if overflow <= 0 {
        break;
      }
    }
    RepairedNone(blCount[..], limit);
  }

  lemma OwingLimit(bl: seq<nat>, limit: nat, owed: nat)
    requires Owing(bl, limit, owed)
    ensures 1 <= limit < |bl|
  {
  }
}
