/** How often the symbols of a block occur, as _tr_tally counts them (src/ext/zlib/trees.c, deflate.h), and that these
    counts give the exact number of bits of the block for whatever codes. */
module Tally {
  import opened Bits
  import opened PairTree
  import opened CodeLengths
  import opened Canonical
  import opened Streams
  import opened DecodeTables
  import opened Reading
  import opened Inflation
  import opened Blocks
  import TreeBuilding
  import RunLength

  function LitSymbol(t: Token): (s: nat)
    requires GoodToken(t)
    ensures s < 286 && s != 256
  {
    match t
    case Literal(c) => c
    case Match(l, d) => 257 + LengthCode(l - 3)
  }

  /** One more of symbol s. */
  function Bump(freq: seq<nat>, s: nat): (r: seq<nat>)
    requires s < |freq|
    ensures |r| == |freq|
  {
    freq[s := freq[s] + 1]
  }

  function NoFreq(n: nat): (r: seq<nat>)
    ensures |r| == n && forall i | 0 <= i < n :: r[i] == 0
  {
    seq(n, i => 0)
  }

  predicate AllGood(ts: seq<Token>) {
    forall i | 0 <= i < |ts| :: GoodToken(ts[i])
  }

  /** How often each literal/length symbol occurs in a block, the end of the block included. */
  function LitFreq(ts: seq<Token>): (r: seq<nat>)
    requires AllGood(ts)
    ensures |r| == 286
  {
    if ts == [] then NoFreq(286)[256 := 1] else Bump(LitFreq(ts[..|ts| - 1]), LitSymbol(ts[|ts| - 1]))
  }

  /** How often each distance symbol occurs. */
  function DistFreq(ts: seq<Token>): (r: seq<nat>)
    requires AllGood(ts)
    ensures |r| == 30
  {
    if ts == [] then NoFreq(30)
    else
      var f := DistFreq(ts[..|ts| - 1]);
      match ts[|ts| - 1]
      case Literal(c) => f
      case Match(l, d) => Bump(f, DistanceCode(d - 1))
  }

  lemma {:induction false} FreqGrows(ts: seq<Token>, i: nat)
    requires AllGood(ts) && i < |ts|
    ensures LitFreq(ts)[LitSymbol(ts[i])] > 0 && LitFreq(ts)[256] > 0
    ensures ts[i].Match? ==> DistFreq(ts)[DistanceCode(ts[i].dist - 1)] > 0
    decreases |ts|
  {
    hide LengthCode, DistanceCode;
    EndCounted(ts);
    if i < |ts| - 1 {
      FreqGrows(ts[..|ts| - 1], i);
    }
  }

  lemma {:induction false} EndCounted(ts: seq<Token>)
    requires AllGood(ts)
    ensures LitFreq(ts)[256] == 1
  {
    hide LengthCode;
    if ts != [] {
      EndCounted(ts[..|ts| - 1]);
    }
  }

  lemma {:induction false} SumToUpdate(f: seq<nat>, n: nat, s: nat)
    requires n <= |f| && s < |f|
    ensures TreeBuilding.SumTo(Bump(f, s), n) == TreeBuilding.SumTo(f, n) + if s < n then 1 else 0
    decreases n
  {
    if n > 0 {
      SumToUpdate(f, n - 1, s);
    }
  }

  lemma {:induction false} SumToZero(f: seq<nat>, n: nat)
    requires n <= |f| && forall i | 0 <= i < n :: f[i] == 0
    ensures TreeBuilding.SumTo(f, n) == 0
  {
    if n > 0 {
      SumToZero(f, n - 1);
    }
  }

  /** The frequencies add up to the number of symbols. */
  lemma {:induction false} FreqTotals(ts: seq<Token>)
    requires AllGood(ts)
    ensures TreeBuilding.SumTo(LitFreq(ts), 286) == |ts| + 1
    ensures TreeBuilding.SumTo(DistFreq(ts), 30) <= |ts|
  {
    hide TreeBuilding.SumTo, LengthCode, DistanceCode;
    if ts == [] {
      SumToZero(NoFreq(286), 286);
      SumToUpdate(NoFreq(286), 286, 256);
      SumToZero(NoFreq(30), 30);
      assert NoFreq(286)[256 := 1] == Bump(NoFreq(286), 256);
    } else {
      var us, t := ts[..|ts| - 1], ts[|ts| - 1];
      FreqTotals(us);
      SumToUpdate(LitFreq(us), 286, LitSymbol(t));
      if t.Match? {
        SumToUpdate(DistFreq(us), 30, DistanceCode(t.dist - 1));
      }
    }
  }

  // ---------------------------------------------------------------- sizes

  ghost function Parts(freq: seq<nat>, base: seq<nat>, extra: seq<nat>): (r: seq<int>)
    requires |base| >= |freq| && |extra| >= |freq|
    ensures |r| == |freq| && forall i | 0 <= i < |freq| :: r[i] == Spend(freq[i], base[i], extra[i])
  {
    seq(|freq|, i requires 0 <= i < |freq| => Spend(freq[i], base[i], extra[i]))
  }

  /** Bits for all occurrences of all symbols. */
  ghost function Text(freq: seq<nat>, base: seq<nat>, extra: seq<nat>): int
    requires |base| >= |freq| && |extra| >= |freq|
  {
    Sum(Parts(freq, base, extra))
  }

  lemma SpendMore(f: nat, bits: nat, extra: nat)
    ensures Spend(f + 1, bits, extra) == Spend(f, bits, extra) + bits + extra
    ensures Spend(0, bits, extra) == 0
  {
    assert (f + 1) * (bits + extra) == f * (bits + extra) + (bits + extra);
  }

  lemma TextBump(freq: seq<nat>, s: nat, base: seq<nat>, extra: seq<nat>)
    requires |base| >= |freq| && |extra| >= |freq| && s < |freq|
    ensures Text(Bump(freq, s), base, extra) == Text(freq, base, extra) + base[s] + extra[s]
  {
    hide Sum, Spend;
    SpendMore(freq[s], base[s], extra[s]);
    SumUpdate(Parts(freq, base, extra), s, Spend(freq[s] + 1, base[s], extra[s]));
    assert Parts(Bump(freq, s), base, extra) == Parts(freq, base, extra)[s := Spend(freq[s] + 1, base[s], extra[s])];
  }

  lemma TextNone(n: nat, base: seq<nat>, extra: seq<nat>)
    requires |base| >= n && |extra| >= n
    ensures Text(NoFreq(n), base, extra) == 0
  {
    hide Sum, Spend;
    forall i | 0 <= i < n ensures Spend(0, base[i], extra[i]) == 0 {
      SpendMore(0, base[i], extra[i]);
    }
    SumZero(Parts(NoFreq(n), base, extra));
  }

  /** Summing over the symbols with a code is summing over all, when every symbol that occurs has a code. */
  lemma TextIsBitCost(len: seq<nat>, freq: seq<nat>, base: seq<nat>, extra: seq<nat>)
    requires |freq| >= |len| && |base| >= |len| && |extra| >= |len|
    requires forall i | 0 <= i < |len| && freq[i] != 0 :: len[i] != 0
    ensures BitCost(len, freq, base, extra) == Text(freq[..|len|], base, extra)
  {
    hide Sum, Spend;
    forall i | 0 <= i < |len| ensures Terms(len, freq, base, extra)[i] == Parts(freq[..|len|], base, extra)[i] {
      SpendMore(0, base[i], extra[i]);
    }
    assert Terms(len, freq, base, extra) == Parts(freq[..|len|], base, extra);
  }

  /** The extra bits of the literal/length symbols. */
  function LitExtras(): (r: seq<nat>)
    ensures |r| == 286 && forall s | 0 <= s < 286 :: r[s] == if s < 257 then 0 else LengthExtra(s - 257)
  {
    seq(286, s requires 0 <= s < 286 => if s < 257 then 0 else LengthExtra(s - 257))
  }

  function DistExtras(): (r: seq<nat>)
    ensures |r| == 30 && forall s | 0 <= s < 30 :: r[s] == DistanceExtra(s)
  {
    seq(30, s requires 0 <= s < 30 => DistanceExtra(s))
  }

  lemma TokenSize(ll: seq<nat>, dd: seq<nat>, t: Token)
    requires GoodToken(t) && HasCodes(ll, dd, t)
    ensures |TokenBits(ll, dd, t)| == ll[LitSymbol(t)] + LitExtras()[LitSymbol(t)]
      + if t.Match? then dd[DistanceCode(t.dist - 1)] + DistExtras()[DistanceCode(t.dist - 1)] else 0
  {
    hide LengthCode, DistanceCode, LengthExtra, DistanceExtra, Bitstring, LengthBits, DistanceBits;
    if t.Match? {
      LengthSize(ll, t.length);
      DistanceSize(dd, t.dist);
    }
  }

  lemma LengthSize(ll: seq<nat>, l: nat)
    requires 3 <= l <= 258 && HasCode(ll, 257 + LengthCode(l - 3))
    ensures |LengthBits(ll, l)| == ll[257 + LengthCode(l - 3)] + LengthExtra(LengthCode(l - 3))
  {
    hide LengthCode, LengthExtra, LBase, LExt, Bitstring, LsbBits, Pow2;
    LengthInCode(l - 3);
  }

  lemma DistanceSize(dd: seq<nat>, d: nat)
    requires 1 <= d <= 32768 && HasCode(dd, DistanceCode(d - 1))
    ensures |DistanceBits(dd, d)| == dd[DistanceCode(d - 1)] + DistanceExtra(DistanceCode(d - 1))
  {
    hide DistanceCode, DistanceExtra, DBase, DExt, Bitstring, LsbBits, Pow2;
    DistanceInCode(d - 1);
  }

  /** Exact size accounting: whatever the codes, the frequencies tell the number of bits of the block. */
  lemma {:induction false} BlockSize(ll: seq<nat>, dd: seq<nat>, ts: seq<Token>, lb: seq<nat>, db: seq<nat>)
    requires AllCoded(ll, dd, ts) && AllGood(ts) && |lb| >= 286 && |db| >= 30
    requires forall s | 0 <= s < |ll| && s < 286 :: lb[s] == ll[s]
    requires forall s | 0 <= s < |dd| && s < 30 :: db[s] == dd[s]
    ensures |BlockBits(ll, dd, ts)| == Text(LitFreq(ts), lb, LitExtras()) + Text(DistFreq(ts), db, DistExtras())
    decreases |ts|
  {
    hide Text, LengthCode, DistanceCode, LengthExtra, DistanceExtra, TokenBits, HasCodes, Bitstring, LitExtras, DistExtras;
    if ts == [] {
      TextNone(286, lb, LitExtras());
      TextBump(NoFreq(286), 256, lb, LitExtras());
      TextNone(30, db, DistExtras());
      assert NoFreq(286)[256 := 1] == Bump(NoFreq(286), 256);
      assert LitExtras()[256] == 0;
    } else {
      var us, t := ts[..|ts| - 1], ts[|ts| - 1];
      BlockSize(ll, dd, us, lb, db);
      TokenSize(ll, dd, t);
      TokenSymbols(ll, dd, t);
      TextBump(LitFreq(us), LitSymbol(t), lb, LitExtras());
      if t.Match? {
        TextBump(DistFreq(us), DistanceCode(t.dist - 1), db, DistExtras());
      }
    }
  }

  lemma TokenSymbols(ll: seq<nat>, dd: seq<nat>, t: Token)
    requires GoodToken(t) && HasCodes(ll, dd, t)
    ensures LitSymbol(t) < |ll| && (t.Match? ==> DistanceCode(t.dist - 1) < |dd|)
  {
  }
}
