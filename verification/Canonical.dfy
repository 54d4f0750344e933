/** Canonical prefix codes (section 3.2.2 of RFC 1951): the code of a symbol from the lengths of all symbols, as
    gen_codes assigns it (src/ext/zlib/trees.c), and why these codes are prefix-free. */
module Canonical {
  import opened Bits
  import opened PairTree
  import opened LengthLimit
  import opened CodeLengths
  import opened Optimal

  // ---------------------------------------------------------------- bits

  /** The n low bits of v, least significant first: the order in which send_bits puts them on the stream. */
  function LsbBits(v: nat, n: nat): (r: seq<bool>)
    ensures |r| == n
    decreases n
  {
    if n == 0 then [] else [v % 2 == 1] + LsbBits(v / 2, n - 1)
  }

  /** The n low bits of v, most significant first: the order in which Huffman codes are packed. */
  function MsbBits(v: nat, n: nat): (r: seq<bool>)
    ensures |r| == n
    decreases n
  {
    if n == 0 then [] else MsbBits(v / 2, n - 1) + [v % 2 == 1]
  }

  /** The n low bits of v in reverse order. */
  function Reversed(v: nat, n: nat): nat
    decreases n
  {
    if n == 0 then 0 else Shl(v % 2, n - 1) + Reversed(v / 2, n - 1)
  }

  lemma {:induction false} ReversedBound(v: nat, n: nat)
    ensures Reversed(v, n) < Pow2(n)
    decreases n
  {
    if n > 0 {
      ReversedBound(v / 2, n - 1);
      ShlIsMul(v % 2, n - 1);
      assert v % 2 == 0 || v % 2 == 1;
    }
  }

  /** The bits of v above the lowest k, and the lowest k reversed in front of the result. */
  lemma {:induction false} ReversedSplit(v: nat, k: nat, n: nat)
    ensures Reversed(v, k + n) == Shl(Reversed(v, k), n) + Reversed(Shr(v, k), n)
    decreases k
  {
    if k == 0 {
      ShlZero(n);
    } else {
      ReversedSplit(v / 2, k - 1, n);
      ShlAdd(Shl(v % 2, k - 1), Reversed(v / 2, k - 1), n);
      ShlShl(v % 2, k - 1, n);
    }
  }

  lemma {:induction false} LsbOfSum(l: nat, h: nat, k: nat, n: nat)
    requires l < Pow2(k)
    ensures LsbBits(l + Shl(h, k), k + n) == LsbBits(l, k) + LsbBits(h, n)
    decreases k
  {
    if k == 0 {
      assert LsbBits(l, 0) == [];
    } else {
      var s := Shl(h, k - 1);
      assert (l + 2 * s) % 2 == l % 2 && (l + 2 * s) / 2 == l / 2 + s;
      LsbOfSum(l / 2, h, k - 1, n);
    }
  }

  /** Sending the reversed code least significant bit first sends the code most significant bit first. */
  lemma {:induction false} ReversedBits(v: nat, n: nat)
    ensures LsbBits(Reversed(v, n), n) == MsbBits(v, n)
    decreases n
  {
    if n > 0 {
      ReversedBits(v / 2, n - 1);
      ReversedBound(v / 2, n - 1);
      LsbOfSum(Reversed(v / 2, n - 1), v % 2, n - 1, 1);
      assert LsbBits(v % 2, 1) == [v % 2 == 1] + LsbBits(0, 0);
    }
  }

  lemma {:induction false} ValueOfMsb(v: nat, n: nat)
    requires v < Pow2(n)
    ensures Value(MsbBits(v, n)) == v
    decreases n
  {
    if n > 0 {
      ValueOfMsb(v / 2, n - 1);
      var m := MsbBits(v, n);
      assert m[..n - 1] == MsbBits(v / 2, n - 1);
    }
  }

  // ---------------------------------------------------------------- the code of a symbol

  /** The first code of b bits. */
  function First(bl: seq<nat>, b: nat): nat
    requires b <= |bl|
  {
    if b == 0 then 0 else 2 * (First(bl, b - 1) + bl[b - 1])
  }

  /** How many smaller symbols have a code of the same length. */
  ghost function Rank(len: seq<nat>, s: nat): nat
    requires s < |len|
  {
    Count(len[..s], len[s])
  }

  ghost function Code(len: seq<nat>, bl: seq<nat>, s: nat): nat
    requires s < |len| && len[s] <= |bl|
  {
    First(bl, len[s]) + Rank(len, s)
  }

  ghost function CodeBits(len: seq<nat>, bl: seq<nat>, s: nat): (r: seq<bool>)
    requires s < |len| && len[s] <= |bl|
    ensures |r| == len[s]
  {
    MsbBits(Code(len, bl, s), len[s])
  }

  /** The counts of a set of lengths that does not over-subscribe the codes of up to `limit` bits. */
  ghost predicate Codable(len: seq<nat>, bl: seq<nat>, limit: nat) {
    && Counted(bl, len, limit) && bl[0] == 0 && (forall x | 0 <= x < |len| :: len[x] <= limit)
    && KraftUpTo(bl, limit, limit) <= Pow2(limit)
  }

  lemma {:induction false} KraftDouble(bl: seq<nat>, limit: nat, b: nat)
    requires b <= limit && limit + 1 < |bl|
    ensures KraftUpTo(bl, limit + 1, b) == 2 * KraftUpTo(bl, limit, b)
  {
    if b > 0 {
      KraftDouble(bl, limit, b - 1);
      assert Pow2(limit + 1 - b) == 2 * Pow2(limit - b);
      TwiceProduct(bl[b], Pow2(limit - b));
    }
  }

  lemma TwiceProduct(a: nat, p: nat)
    ensures a * (2 * p) == 2 * (a * p)
  {
  }

  lemma {:induction false} FirstIsKraft(bl: seq<nat>, b: nat)
    requires 1 <= b < |bl| && bl[0] == 0
    ensures First(bl, b) == KraftUpTo(bl, b, b - 1)
    ensures First(bl, b) + bl[b] == KraftUpTo(bl, b, b)
  {
    assert Pow2(b - b) == 1;
    if b == 1 {
      assert First(bl, 1) == 2 * (First(bl, 0) + bl[0]);
    } else {
      FirstIsKraft(bl, b - 1);
      KraftDouble(bl, b - 1, b - 1);
    }
  }

  /** No length has more codes than there are numbers of that many bits. */
  lemma {:induction false} FirstFits(bl: seq<nat>, limit: nat, b: nat)
    requires 1 <= b <= limit < |bl| && bl[0] == 0 && KraftUpTo(bl, limit, limit) <= Pow2(limit)
    ensures First(bl, b) + bl[b] <= Pow2(b)
    decreases limit - b
  {
    if b == limit {
      FirstIsKraft(bl, b);
    } else {
      FirstFits(bl, limit, b + 1);
      assert First(bl, b + 1) == 2 * (First(bl, b) + bl[b]);
    }
  }

  lemma {:induction false} FirstGrows(bl: seq<nat>, a: nat, b: nat)
    requires a < b < |bl|
    ensures First(bl, b) >= Shl(First(bl, a) + bl[a], b - a)
    decreases b - a
  {
    if b == a + 1 {
      assert Shl(First(bl, a) + bl[a], 1) == 2 * Shl(First(bl, a) + bl[a], 0);
    } else {
      FirstGrows(bl, a, b - 1);
    }
  }

  lemma {:induction false} RankBound(len: seq<nat>, s: nat)
    requires s < |len|
    ensures Rank(len, s) < Count(len, len[s])
  {
    RankUpTo(len, s, |len|);
    assert len[..|len|] == len;
  }

  /** Among the first m symbols there are more of the length of s than come before s. */
  lemma {:induction false} RankUpTo(len: seq<nat>, s: nat, m: nat)
    requires s < m <= |len|
    ensures Rank(len, s) < Count(len[..m], len[s])
    decreases m - s
  {
    assert len[..m] == len[..m - 1] + [len[m - 1]];
    CountAppend(len[..m - 1], len[m - 1], len[s]);
    if s < m - 1 {
      RankUpTo(len, s, m - 1);
    }
  }

  lemma CodeFits(len: seq<nat>, bl: seq<nat>, limit: nat, s: nat)
    requires Codable(len, bl, limit) && s < |len| && len[s] > 0
    ensures First(bl, len[s]) <= Code(len, bl, s) < First(bl, len[s]) + bl[len[s]] <= Pow2(len[s])
  {
    hide Count, KraftUpTo, First;
    RankBound(len, s);
    FirstFits(bl, limit, len[s]);
  }

  /** Of two symbols with codes of the same length the larger one has the larger code. */
  lemma RankOrder(len: seq<nat>, s: nat, t: nat)
    requires s < t < |len| && len[s] == len[t]
    ensures Rank(len, s) < Rank(len, t)
  {
    RankUpTo(len, s, t);
  }

  lemma {:induction false} ShlMono(a: nat, b: nat, k: nat)
    requires a <= b
    ensures Shl(a, k) <= Shl(b, k)
  {
    if k > 0 {
      ShlMono(a, b, k - 1);
    }
  }

  /** The numbers of len[t] bits that begin with the code of s all lie below the code of t, or above it. */
  lemma CodesApart(len: seq<nat>, bl: seq<nat>, limit: nat, s: nat, t: nat)
    requires Codable(len, bl, limit) && s < |len| && t < |len| && s != t && 0 < len[s] <= len[t]
    ensures var d := len[t] - len[s];
      Code(len, bl, t) >= Shl(Code(len, bl, s) + 1, d) || Code(len, bl, t) < Shl(Code(len, bl, s), d)
  {
    hide Count, KraftUpTo, Rank;
    var c, d := Code(len, bl, s), len[t] - len[s];
    CodeFits(len, bl, limit, s);
    CodeFits(len, bl, limit, t);
    if d == 0 {
      assert Shl(c, 0) == c && Shl(c + 1, 0) == c + 1;
      if s < t {
        RankOrder(len, s, t);
      } else {
        RankOrder(len, t, s);
      }
    } else {
      FirstGrows(bl, len[s], len[t]);
      ShlMono(c + 1, First(bl, len[s]) + bl[len[s]], d);
    }
  }

  lemma Commute(a: int, b: int)
    ensures a * b == b * a
  {
  }

  /** Codes that fit their lengths are prefix-free. */
  lemma CanonicalIsPrefixFree(len: seq<nat>, bl: seq<nat>, limit: nat, s: nat, t: nat)
    requires Codable(len, bl, limit) && s < |len| && t < |len| && s != t && 0 < len[s] && 0 < len[t]
    ensures !(CodeBits(len, bl, s) <= CodeBits(len, bl, t))
  {
    hide Count, KraftUpTo, Rank, First, MsbBits, Value, Shl, Pow2;
    if CodeBits(len, bl, s) <= CodeBits(len, bl, t) {
      var c, e, d := Code(len, bl, s), Code(len, bl, t), len[t] - len[s];
      CodesApart(len, bl, limit, s, t);
      CodeFits(len, bl, limit, s);
      CodeFits(len, bl, limit, t);
      ValueOfMsb(c, len[s]);
      ValueOfMsb(e, len[t]);
      ValuePrefix(CodeBits(len, bl, t), len[s]);
      assert CodeBits(len, bl, t)[..len[s]] == CodeBits(len, bl, s);
      Commute(Pow2(d), c);
      Commute(Pow2(d), c + 1);
      ShlIsMul(c, d);
      ShlIsMul(c + 1, d);
      Distribute(Pow2(d), c, 1);
    }
  }

  /** In a complete code the last code of the longest length is all ones. */
  lemma LastCodeIsAllOnes(bl: seq<nat>, limit: nat)
    requires 1 <= limit < |bl| && bl[0] == 0 && KraftUpTo(bl, limit, limit) == Pow2(limit)
    ensures First(bl, limit) + bl[limit] - 1 == Pow2(limit) - 1
  {
    FirstIsKraft(bl, limit);
  }
}
