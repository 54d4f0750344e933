/** gen_codes and the whole of build_tree (src/ext/zlib/trees.c). */
module GenCodes {
  import opened Bits
  import opened PairTree
  import opened LengthLimit
  import opened CodeLengths
  import opened Canonical
  import opened Optimal
  import opened Forest
  import opened TreeBuilding
  import opened BitLengths

  // ---------------------------------------------------------------- bi_reverse

  lemma ReverseStep(res: nat, low: nat, i: nat, v: nat)
    requires low < 2
    ensures Or(2 * res, low) == 2 * res + low
  {
    OrComm(2 * res, low);
    OrDisjoint(low, res, 1);
    assert Shl(res, 1) == 2 * Shl(res, 0);
  }

  method BiReverse(code0: nat, len0: nat) returns (r: nat)
    requires 1 <= len0
    ensures r == Reversed(code0, len0)
  {
    var code, len, res := code0, len0, 0;
    ghost var k := 0;
    while true
      invariant 0 < len == len0 - k
      invariant code == Shr(code0, k) && res == 2 * Reversed(code0, k)
      decreases len
    {
      ReverseStep(Reversed(code0, k), code % 2, k, code0);
      res := Or(res, code % 2);
      ReversedSplit(code0, k, 1);
      ShrShr(code0, k, 1);
      OneBit(Reversed(code0, k), code);
      code := code / 2;
      res := 2 * res;
      len := len - 1;
      k := k + 1;
      if len <= 0 {
        break;
      }
    }
    r := res / 2;
  }

  lemma OneBit(r: nat, code: nat)
    ensures Shl(r, 1) + Reversed(code, 1) == 2 * r + code % 2
    ensures Shr(code, 1) == code / 2
  {
    assert Shl(r, 1) == 2 * Shl(r, 0);
    assert Reversed(code / 2, 0) == 0;
    assert Shl(code % 2, 0) == code % 2;
    assert Shr(code / 2, 0) == code / 2;
  }

  // ---------------------------------------------------------------- gen_codes

  /** What next_code holds when the symbols below n have their codes; 16-bit entries. */
  ghost predicate Next(next: seq<nat>, len: seq<nat>, bl: seq<nat>, n: nat) {
    && |next| == 16 && |bl| == 16 && n <= |len|
    && forall b | 1 <= b < 16 :: next[b] == First(bl, b) + Count(len[..n], b)
  }

  /** Codes are assigned to the symbols below n. */
  ghost predicate Assigned(fc: seq<nat>, len: seq<nat>, bl: seq<nat>, n: nat) {
    && n <= |len| <= |fc| && |bl| == 16
    && forall x | 0 <= x < n && 0 < len[x] < 16 :: fc[x] == Reversed(Code(len, bl, x), len[x])
  }

  lemma NextStep(next: seq<nat>, len: seq<nat>, bl: seq<nat>, n: nat)
    requires Next(next, len, bl, n) && n < |len|
    ensures len[n] == 0 ==> Next(next, len, bl, n + 1)
    ensures 0 < len[n] < 16 ==> next[len[n]] == Code(len, bl, n) && Next(next[len[n] := next[len[n]] + 1], len, bl, n + 1)
  {
    hide Count, First;
    assert len[..n + 1] == len[..n] + [len[n]];
    forall b | 1 <= b < 16 ensures Count(len[..n + 1], b) == Count(len[..n], b) + if len[n] == b then 1 else 0 {
      CountAppend(len[..n], len[n], b);
    }
  }

  method NextCodes(blCount: array<nat>, ghost len: seq<nat>, ghost limit: nat) returns (next: array<nat>)
    requires blCount.Length == 16 && limit <= 15 && Codable(len, blCount[..], 15)
    ensures fresh(next) && next.Length == 16 && Next(next[..], len, blCount[..], 0)
  {
    hide Codable, First, Count;
    next := new nat[16];
    var code := 0;
    FirstNone(blCount[..]);
    for bits := 1 to 16
      invariant code == First(blCount[..], bits - 1)
      invariant forall b | 1 <= b < bits :: next[b] == First(blCount[..], b)
    {
      FirstIs(len, blCount[..], bits);
      code := 2 * (code + blCount[bits - 1]) % 0x1_0000;
      next[bits] := code;
    }
    forall b | 1 <= b < 16 ensures Count(len[..0], b) == 0 {
      CountNone(len[..0], b);
    }
  }

  lemma FirstNone(bl: seq<nat>)
    ensures First(bl, 0) == 0
  {
  }

  lemma FirstIs(len: seq<nat>, bl: seq<nat>, b: nat)
    requires |bl| == 16 && 1 <= b <= 15 && Codable(len, bl, 15)
    ensures First(bl, b) == 2 * (First(bl, b - 1) + bl[b - 1]) < 0x1_0000
  {
    FirstFits(bl, 15, b);
    Pow2Values();
    Pow2Mono(b, 15);
  }

  method GenCodes(fc: array<nat>, dl: array<nat>, elems: nat, maxCode: nat, blCount: array<nat>, ghost limit: nat)
    requires fc != dl && fc != blCount && dl != blCount && maxCode < elems <= fc.Length && elems <= dl.Length
    requires blCount.Length == 16 && limit <= 15 && Codable(dl[..elems], blCount[..], 15)
    requires forall x | maxCode < x < elems :: dl[x] == 0
    modifies fc
    ensures Assigned(fc[..], dl[..elems], blCount[..], elems)
  {
    hide Codable, First, Count, Assigned, Next, Code;
    ghost var len, bl := dl[..elems], blCount[..];
    var next := NextCodes(blCount, len, limit);
    AssignedNone(fc[..], len, bl);
    for n := 0 to maxCode + 1
      invariant next.Length == 16 && Next(next[..], len, bl, n) && dl[..elems] == len
      invariant Assigned(fc[..], len, bl, n)
    {
      var l := dl[n];
      assert l == len[n];
      AssignCode(fc, next, n, l, len, bl);
    }
    AssignedRest(fc[..], len, bl, maxCode + 1);
  }

  /** The code of symbol n, if it has one. */
  method AssignCode(fc: array<nat>, next: array<nat>, n: nat, l: nat, ghost len: seq<nat>, ghost bl: seq<nat>)
    requires fc != next && next.Length == 16 && Codable(len, bl, 15) && n < |len| <= fc.Length && l == len[n]
    requires Next(next[..], len, bl, n) && Assigned(fc[..], len, bl, n)
    modifies fc, next
    ensures Next(next[..], len, bl, n + 1) && Assigned(fc[..], len, bl, n + 1)
  {
    hide Codable, First, Count, Assigned, Next, Code, Reversed;
    ghost var f, nx := fc[..], next[..];
    OneCode(f, nx, len, bl, n);
    if l != 0 {
      fc[n] := BiReverse(next[l], l);
      next[l] := (next[l] + 1) % 0x1_0000;
      assert fc[..] == f[n := fc[n]] && next[..] == nx[l := nx[l] + 1];
    }
  }

  /** What the loop does for symbol n. */
  lemma OneCode(f: seq<nat>, nx: seq<nat>, len: seq<nat>, bl: seq<nat>, n: nat)
    requires Assigned(f, len, bl, n) && Next(nx, len, bl, n) && Codable(len, bl, 15) && n < |len|
    ensures |nx| == 16 && n < |f| && len[n] <= 15
    ensures len[n] == 0 ==> Next(nx, len, bl, n + 1) && Assigned(f, len, bl, n + 1)
    ensures len[n] > 0 ==>
      && nx[len[n]] + 1 < 0x1_0000 && Next(nx[len[n] := nx[len[n]] + 1], len, bl, n + 1)
      && Assigned(f[n := Reversed(nx[len[n]], len[n])], len, bl, n + 1)
  {
    hide Codable, First, Count, Code, Reversed;
    CodableAt(len, bl, n);
    NextStep(nx, len, bl, n);
    AssignedStep(f, len, bl, n);
    if len[n] > 0 {
      CodeSmall(len, bl, n);
    }
  }

  lemma AssignedNone(fc: seq<nat>, len: seq<nat>, bl: seq<nat>)
    requires |len| <= |fc| && |bl| == 16
    ensures Assigned(fc, len, bl, 0)
  {
  }

  lemma AssignedStep(fc: seq<nat>, len: seq<nat>, bl: seq<nat>, n: nat)
    requires Assigned(fc, len, bl, n) && n < |len|
    ensures len[n] == 0 ==> Assigned(fc, len, bl, n + 1)
    ensures 0 < len[n] < 16 ==> Assigned(fc[n := Reversed(Code(len, bl, n), len[n])], len, bl, n + 1)
  {
    hide Code;
  }

  lemma AssignedRest(fc: seq<nat>, len: seq<nat>, bl: seq<nat>, n: nat)
    requires Assigned(fc, len, bl, n) && forall x | n <= x < |len| :: len[x] == 0
    ensures Assigned(fc, len, bl, |len|)
  {
    hide Code;
  }

  lemma CodableAt(len: seq<nat>, bl: seq<nat>, n: nat)
    requires Codable(len, bl, 15) && n < |len|
    ensures len[n] <= 15
  {
  }

  lemma CodeSmall(len: seq<nat>, bl: seq<nat>, n: nat)
    requires |bl| == 16 && Codable(len, bl, 15) && n < |len| && len[n] > 0
    ensures len[n] <= 15 && Code(len, bl, n) + 1 < 0x1_0000
  {
    hide Count, KraftUpTo, First, Code;
    CodeFits(len, bl, 15, n);
    Pow2Values();
    Pow2Mono(len[n], 15);
  }

  // ---------------------------------------------------------------- build_tree

  lemma {:induction false} KraftExtend(bl: seq<nat>, limit: nat, m: nat)
    requires limit <= m < |bl| && (forall b | limit < b <= m :: bl[b] == 0) && KraftUpTo(bl, limit, limit) == Pow2(limit)
    ensures KraftUpTo(bl, m, m) == Pow2(m)
    decreases m - limit
  {
    if limit < m {
      KraftExtend(bl, limit, m - 1);
      KraftDouble(bl, m - 1, m - 1);
      assert Pow2(m - m) == 1;
    }
  }

  lemma CompleteIsCodable(len: seq<nat>, bl: seq<nat>, limit: nat, leaves: set<nat>)
    requires CompleteCode(len, bl, limit, leaves)
    ensures Codable(len, bl, 15) && KraftUpTo(bl, 15, 15) == Pow2(15)
  {
    hide Count, KraftUpTo, Pow2;
    forall b | limit < b <= 15 ensures bl[b] == 0 {
      CountNone(len, b);
    }
    KraftExtend(bl, limit, 15);
  }

  /** The lengths of the symbols in ascending order, with their weights. */
  ghost function ItemsUpTo(len: seq<nat>, freq: seq<nat>, n: nat): seq<Item>
    requires n <= |len| && n <= |freq|
  {
    if n == 0 then []
    else ItemsUpTo(len, freq, n - 1) + if freq[n - 1] != 0 then [Item(freq[n - 1], len[n - 1])] else []
  }

  lemma {:induction false} ItemsAre(len: seq<nat>, freq: seq<nat>, n: nat, limit: nat)
    requires n <= |len| && n <= |freq| && forall x | 0 <= x < n && freq[x] != 0 :: len[x] <= limit
    ensures Weights(ItemsUpTo(len, freq, n)) == FreqBag(Used(freq, n), freq)
    ensures Within(ItemsUpTo(len, freq, n), limit)
    ensures Cost(ItemsUpTo(len, freq, n)) == Sum(Products(len[..n], freq))
  {
    hide FreqBag, Weights, Cost, Sum, Kraft;
    if n == 0 {
      assert Used(freq, 0) == {};
      assert len[..0] == [];
      EmptyItems(freq);
    } else {
      ItemsAre(len, freq, n - 1, limit);
      ProductsLast(len, freq, n);
      if freq[n - 1] == 0 {
        assert Used(freq, n) == Used(freq, n - 1);
        assert ItemsUpTo(len, freq, n) == ItemsUpTo(len, freq, n - 1);
        assert freq[n - 1] * len[n - 1] == 0;
      } else {
        assert Used(freq, n) == Used(freq, n - 1) + {n - 1};
        BagAdd(Used(freq, n - 1), freq, n - 1);
        PutIn(ItemsUpTo(len, freq, n - 1), Item(freq[n - 1], len[n - 1]), limit);
      }
    }
  }

  lemma EmptyItems(freq: seq<nat>)
    ensures Weights([]) == multiset{} == FreqBag({}, freq) && Cost([]) == 0 && Sum([]) == 0
  {
  }

  lemma ProductsLast(len: seq<nat>, freq: seq<nat>, n: nat)
    requires 0 < n <= |len| && n <= |freq|
    ensures Sum(Products(len[..n], freq)) == Sum(Products(len[..n - 1], freq)) + freq[n - 1] * len[n - 1]
  {
    assert Products(len[..n], freq)[..n - 1] == Products(len[..n - 1], freq);
  }

  /** Lengths for the used symbols that satisfy the Kraft inequality, as the lengths of any prefix code do. */
  ghost predicate Competes(len: seq<nat>, freq: seq<nat>, limit: nat) {
    |len| <= |freq| && Feasible(ItemsUpTo(len, freq, |len|), limit)
  }

  /** The total length of the coded text. */
  ghost function TextBits(len: seq<nat>, freq: seq<nat>): int
    requires |len| <= |freq|
  {
    Sum(Products(len, freq))
  }

  /** An optimum is no dearer than any competitor. */
  lemma OptimumBeats(len: seq<nat>, other: seq<nat>, freq: seq<nat>, limit: nat)
    requires |len| == |other| <= |freq| && Optimum(len, freq, Used(freq, |len|)) && Competes(other, freq, limit)
    ensures TextBits(len, freq) <= TextBits(other, freq)
  {
    hide Sum, FreqBag, Weights, Cost, Kraft, Pow2;
    var n := |len|;
    WithinUsed(other, freq, n, limit);
    ItemsAre(other, freq, n, limit);
    assert other[..n] == other;
    assert Cost(ItemsUpTo(other, freq, n)) >= Sum(Products(len, freq));
  }

  // ---------------------------------------------------------------- against prefix codes

  /** No used symbol's codeword is the beginning of another's. */
  ghost predicate PrefixFreeOn(codes: seq<seq<bool>>, freq: seq<nat>) {
    |codes| <= |freq|
    && forall x, y | 0 <= x < |codes| && 0 <= y < |codes| && x != y && freq[x] != 0 && freq[y] != 0 :: !(codes[x] <= codes[y])
  }

  ghost function WordLengths(codes: seq<seq<bool>>): (len: seq<nat>)
    ensures |len| == |codes| && forall x | 0 <= x < |len| :: len[x] == |codes[x]|
  {
    seq(|codes|, x requires 0 <= x < |codes| => |codes[x]|)
  }

  ghost function UsedWords(codes: seq<seq<bool>>, freq: seq<nat>, n: nat): seq<seq<bool>>
    requires n <= |codes| && n <= |freq|
  {
    if n == 0 then [] else UsedWords(codes, freq, n - 1) + if freq[n - 1] != 0 then [codes[n - 1]] else []
  }

  ghost function UsedWeights(codes: seq<seq<bool>>, freq: seq<nat>, n: nat): (w: seq<nat>)
    requires n <= |codes| && n <= |freq|
    ensures |w| == |UsedWords(codes, freq, n)|
  {
    if n == 0 then [] else UsedWeights(codes, freq, n - 1) + if freq[n - 1] != 0 then [freq[n - 1]] else []
  }

  lemma {:induction false} UsedWordIs(codes: seq<seq<bool>>, freq: seq<nat>, n: nat, i: nat) returns (x: nat)
    requires n <= |codes| && n <= |freq| && i < |UsedWords(codes, freq, n)|
    ensures x < n && freq[x] != 0 && UsedWords(codes, freq, n)[i] == codes[x]
  {
    if freq[n - 1] != 0 && i == |UsedWords(codes, freq, n)| - 1 {
      x := n - 1;
    } else {
      x := UsedWordIs(codes, freq, n - 1, i);
    }
  }

  lemma {:induction false} UsedWordsPrefixFree(codes: seq<seq<bool>>, freq: seq<nat>, n: nat)
    requires n <= |codes| && PrefixFreeOn(codes, freq)
    ensures PrefixFree(UsedWords(codes, freq, n))
  {
    if n > 0 {
      UsedWordsPrefixFree(codes, freq, n - 1);
      var words, before := UsedWords(codes, freq, n), UsedWords(codes, freq, n - 1);
      if freq[n - 1] != 0 {
        forall i | 0 <= i < |before| ensures !(before[i] <= codes[n - 1]) && !(codes[n - 1] <= before[i]) {
          var x := UsedWordIs(codes, freq, n - 1, i);
        }
        assert forall i | 0 <= i < |before| :: words[i] == before[i];
      }
    }
  }

  lemma {:induction false} UsedItems(codes: seq<seq<bool>>, freq: seq<nat>, n: nat)
    requires n <= |codes| && n <= |freq|
    ensures ItemsUpTo(WordLengths(codes), freq, n) == CodeItems(UsedWeights(codes, freq, n), UsedWords(codes, freq, n))
  {
    if n > 0 {
      UsedItems(codes, freq, n - 1);
    }
  }

  lemma {:induction false} LongestWord(codes: seq<seq<bool>>) returns (limit: nat)
    ensures forall x | 0 <= x < |codes| :: |codes[x]| <= limit
    decreases |codes|
  {
    limit := 0;
    if codes != [] {
      var k := LongestWord(codes[..|codes| - 1]);
      limit := if |codes[|codes| - 1]| > k then |codes[|codes| - 1]| else k;
      forall x | 0 <= x < |codes| ensures |codes[x]| <= limit {
        assert x < |codes| - 1 ==> codes[..|codes| - 1][x] == codes[x];
      }
    }
  }

  /** Huffman's lengths against all prefix codes: whatever codewords the used symbols are given, as long as none is the beginning of
      another, the text is no shorter with them. */
  lemma OptimumBeatsPrefixCodes(len: seq<nat>, freq: seq<nat>, codes: seq<seq<bool>>)
    requires |len| == |codes| <= |freq| && Optimum(len, freq, Used(freq, |len|)) && PrefixFreeOn(codes, freq)
    ensures TextBits(len, freq) <= TextBits(WordLengths(codes), freq)
  {
    hide Optimum, TextBits, Feasible, PrefixFree, PrefixFreeOn;
    var n := |codes|;
    var limit := LongestWord(codes);
    var words := UsedWords(codes, freq, n);
    UsedWordsPrefixFree(codes, freq, n);
    forall i | 0 <= i < |words| ensures |words[i]| <= limit {
      var x := UsedWordIs(codes, freq, n, i);
    }
    PrefixCodesAreFeasible(UsedWeights(codes, freq, n), words, limit);
    UsedItems(codes, freq, n);
    OptimumBeats(len, WordLengths(codes), freq, limit);
  }

  lemma {:induction false} WithinUsed(len: seq<nat>, freq: seq<nat>, n: nat, limit: nat)
    requires n <= |len| && n <= |freq| && Within(ItemsUpTo(len, freq, n), limit)
    ensures forall x | 0 <= x < n && freq[x] != 0 :: len[x] <= limit
  {
    if n > 0 {
      var s, t := ItemsUpTo(len, freq, n), ItemsUpTo(len, freq, n - 1);
      assert forall i | 0 <= i < |t| :: t[i] == s[i];
      WithinUsed(len, freq, n - 1, limit);
      assert freq[n - 1] != 0 ==> s[|t|] == Item(freq[n - 1], len[n - 1]);
    }
  }

  /** Every used symbol has a length and no other symbol has. */
  ghost predicate Covers(len: seq<nat>, freq: seq<nat>, limit: nat) {
    |len| <= |freq| && forall x | 0 <= x < |len| :: len[x] <= limit && (len[x] == 0 <==> freq[x] == 0)
  }

  lemma CoversAt(len: seq<nat>, freq: seq<nat>, n: nat, limit: nat)
    requires n <= |len| && Covers(len, freq, limit)
    ensures |len| <= |freq| && (n > 0 ==> len[n - 1] <= limit && (len[n - 1] == 0 <==> freq[n - 1] == 0))
  {
  }

  lemma NoItems(len: seq<nat>, freq: seq<nat>, limit: nat)
    requires |len| <= |freq|
    ensures ItemsUpTo(len, freq, 0) == [] && Within([], limit) && Kraft([], limit) == 0
    ensures Sum(Shares(len[..0], limit, limit)) == 0
  {
    hide Pow2;
    SumZero(Shares(len[..0], limit, limit));
  }

  lemma {:induction false} ItemsKraft(len: seq<nat>, freq: seq<nat>, n: nat, limit: nat)
    requires n <= |len| && Covers(len, freq, limit)
    ensures Within(ItemsUpTo(len, freq, n), limit)
    ensures Kraft(ItemsUpTo(len, freq, n), limit) == Sum(Shares(len[..n], limit, limit))
  {
    hide Sum, Pow2, Within, Kraft, Weights, Cost, Lengths, Shares, Covers;
    CoversAt(len, freq, n, limit);
    if n == 0 {
      NoItems(len, freq, limit);
    } else {
      ItemsKraft(len, freq, n - 1, limit);
      SharesLast(len, limit, n);
      if freq[n - 1] != 0 {
        PutIn(ItemsUpTo(len, freq, n - 1), Item(freq[n - 1], len[n - 1]), limit);
      } else {
        assert ItemsUpTo(len, freq, n) == ItemsUpTo(len, freq, n - 1);
      }
    }
  }

  lemma SharesLast(len: seq<nat>, limit: nat, n: nat)
    requires 0 < n <= |len| && len[n - 1] <= limit
    ensures Sum(Shares(len[..n], limit, limit))
         == Sum(Shares(len[..n - 1], limit, limit)) + if len[n - 1] == 0 then 0 else Pow2(limit - len[n - 1])
  {
    hide Pow2;
    assert Shares(len[..n], limit, limit)[..n - 1] == Shares(len[..n - 1], limit, limit);
  }

  ghost function Swapped(len: seq<nat>, x: nat, y: nat): seq<nat>
    requires x < |len| && y < |len|
  {
    len[x := len[y]][y := len[x]]
  }

  lemma SwapShares(len: seq<nat>, x: nat, y: nat, limit: nat)
    requires x < |len| && y < |len| && x != y && 0 < len[x] <= limit && 0 < len[y] <= limit
    ensures Sum(Shares(Swapped(len, x, y), limit, limit)) == Sum(Shares(len, limit, limit))
  {
    hide Sum, Pow2;
    var s := Shares(len, limit, limit);
    assert Shares(Swapped(len, x, y), limit, limit) == s[x := s[y]][y := s[x]];
    SumUpdate(s, x, s[y]);
    SumUpdate(s[x := s[y]], y, s[x]);
  }

  lemma SwapText(len: seq<nat>, freq: seq<nat>, x: nat, y: nat)
    requires x < |len| <= |freq| && y < |len| && x != y
    ensures TextBits(Swapped(len, x, y), freq)
         == TextBits(len, freq) + freq[x] * len[y] + freq[y] * len[x] - freq[x] * len[x] - freq[y] * len[y]
  {
    hide Sum;
    var p := Products(len, freq);
    var q := p[x := freq[x] * len[y]][y := freq[y] * len[x]];
    assert Products(Swapped(len, x, y), freq) == q;
    SumUpdate(p, x, freq[x] * len[y]);
    SumUpdate(p[x := freq[x] * len[y]], y, freq[y] * len[x]);
  }

  /** In an optimal code a rarer symbol never has a shorter code than a more frequent one. */
  lemma OptimumIsMonotone(len: seq<nat>, freq: seq<nat>, bl: seq<nat>, limit: nat)
    requires |len| <= |freq| && Optimum(len, freq, Used(freq, |len|)) && CompleteCode(len, bl, limit, Used(freq, |len|))
    ensures Monotone(len, freq, Used(freq, |len|))
  {
    hide Sum, FreqBag, Count, KraftUpTo, Kraft, Optimum, Shares, CompleteCode, TextBits, ItemsUpTo;
    forall x, y | x in Used(freq, |len|) && y in Used(freq, |len|) && freq[x] < freq[y] ensures len[x] >= len[y] {
      if len[x] < len[y] {
        SwapCompetes(len, freq, bl, limit, x, y);
        OptimumBeats(len, Swapped(len, x, y), freq, limit);
        SwapText(len, freq, x, y);
        Exchanged(freq[x], freq[y], len[x], len[y]);
      }
    }
  }

  lemma SwapCompetes(len: seq<nat>, freq: seq<nat>, bl: seq<nat>, limit: nat, x: nat, y: nat)
    requires |len| <= |freq| && CompleteCode(len, bl, limit, Used(freq, |len|))
    requires x in Used(freq, |len|) && y in Used(freq, |len|) && x != y
    ensures Competes(Swapped(len, x, y), freq, limit)
  {
    hide Sum, Count, KraftUpTo, Kraft, Shares, ItemsUpTo, Pow2;
    var other := Swapped(len, x, y);
    KraftFromCounts(bl, len, limit, limit);
    SwapShares(len, x, y, limit);
    ItemsKraft(other, freq, |other|, limit);
    assert other[..|other|] == other;
  }

  lemma Exchanged(f: nat, g: nat, l: nat, m: nat)
    requires f < g && l < m
    ensures f * m + g * l < f * l + g * m
  {
    assert (g - f) * (m - l) > 0;
  }

  // ---------------------------------------------------------------- the accounts of forced symbols

  /** Two codes that are complete have one bit each. */
  lemma TwoCodes(len: seq<nat>, bl: seq<nat>, limit: nat, leaves: set<nat>, x: nat, y: nat)
    requires CompleteCode(len, bl, limit, leaves) && leaves == {x, y} && x != y && x < |len| && y < |len| && limit >= 1
    ensures len[x] == 1 && len[y] == 1
  {
    hide Sum, Count, KraftUpTo, Pow2;
    var s := Shares(len, limit, limit);
    KraftFromCounts(bl, len, limit, limit);
    SumUpdate(s, x, 0);
    SumUpdate(s[x := 0], y, 0);
    SumZero(s[x := 0][y := 0]);
    HalfPowers(limit, len[x], len[y]);
  }

  lemma HalfPowers(limit: nat, a: nat, b: nat)
    requires 1 <= a <= limit && 1 <= b <= limit && Pow2(limit - a) + Pow2(limit - b) == Pow2(limit)
    ensures a == 1 && b == 1
  {
    Pow2Mono(limit - a, limit - 1);
    Pow2Mono(limit - b, limit - 1);
    assert Pow2(limit) == 2 * Pow2(limit - 1);
  }

  lemma BitCostFreq(len: seq<nat>, freq: seq<nat>, base: seq<nat>, extra: seq<nat>, x: nat)
    requires |freq| >= |len| && |base| >= |len| && |extra| >= |len| && x < |len| && freq[x] == 0 && len[x] != 0
    ensures BitCost(len, freq[x := 1], base, extra) == BitCost(len, freq, base, extra) + Spend(1, base[x], extra[x])
  {
    var t := Terms(len, freq, base, extra);
    assert Terms(len, freq[x := 1], base, extra) == t[x := Spend(1, base[x], extra[x])];
    SumUpdate(t, x, Spend(1, base[x], extra[x]));
  }

  /** freq with frequency 1 for the first n forced symbols. */
  ghost function WithForced(freq: seq<nat>, forced: seq<nat>, n: nat): (r: seq<nat>)
    requires n <= |forced| && forall i | 0 <= i < |forced| :: forced[i] < |freq|
    ensures |r| == |freq| && forall x | 0 <= x < |freq| && x !in forced[..n] :: r[x] == freq[x]
  {
    if n == 0 then freq
    else
      assert forced[..n] == forced[..n - 1] + [forced[n - 1]];
      WithForced(freq, forced, n - 1)[forced[n - 1] := 1]
  }

  lemma {:induction false} ForcedCost(k: TreeKind, len: seq<nat>, freq: seq<nat>, freq': seq<nat>, forced: seq<nat>, n: nat)
    requires k.Valid() && |len| == k.elems <= |freq| && Forcing(freq, freq', forced) && n <= |forced|
    requires forall i | 0 <= i < |forced| :: forced[i] < |len| && len[forced[i]] == 1
    ensures BitCost(len, WithForced(freq, forced, n), len, k.Extras()) == BitCost(len, freq, len, k.Extras()) + n
    ensures StaticCost(k, len, WithForced(freq, forced, n)) == StaticCost(k, len, freq) + LengthsOf(k.slen, forced[..n])
    decreases n
  {
    hide BitCost, Pow2;
    if n == 0 {
      assert forced[..0] == [];
    } else {
      var x, g := forced[n - 1], WithForced(freq, forced, n - 1);
      ForcedCost(k, len, freq, freq', forced, n - 1);
      assert g[x] == 0;
      BitCostFreq(len, g, len, k.Extras(), x);
      assert k.XBits(x) == 0;
      BitCostFreq(len, g, k.Statics(), k.Extras(), x);
      assert forced[..n] == forced[..n - 1] + [x];
      LengthsStep(k.slen, forced[..n - 1], x);
      if k.slen == [] {
        NoLengths(forced[..n]);
      }
    }
  }

  lemma {:induction false} NoLengths(xs: seq<nat>)
    ensures LengthsOf([], xs) == 0
  {
    if xs != [] {
      NoLengths(xs[..|xs| - 1]);
    }
  }

  lemma {:induction false} AllForced(freq: seq<nat>, freq': seq<nat>, forced: seq<nat>, n: nat)
    requires Forcing(freq, freq', forced) && n <= |forced|
    ensures forall x | 0 <= x < |freq| && x in forced[..n] :: WithForced(freq, forced, n)[x] == 1
  {
    if n > 0 {
      AllForced(freq, freq', forced, n - 1);
      assert forced[..n] == forced[..n - 1] + [forced[n - 1]];
    }
  }

  /** What forcing took off the accounts is what the forced symbols put back. */
  lemma ForcingCancels(k: TreeKind, len: seq<nat>, bl: seq<nat>, freq: seq<nat>, freq': seq<nat>, forced: seq<nat>)
    requires k.Valid() && |len| == k.elems <= |freq| && Forcing(freq, freq', forced)
    requires CompleteCode(len, bl, k.limit, Used(freq', k.elems)) && (forced != [] ==> |Used(freq', k.elems)| == 2)
    ensures BitCost(len, freq', len, k.Extras()) == BitCost(len, freq, len, k.Extras()) + |forced|
    ensures StaticCost(k, len, freq') == StaticCost(k, len, freq) + LengthsOf(k.slen, forced)
  {
    hide BitCost, StaticCost, CompleteCode, Pow2, WithForced;
    forall i | 0 <= i < |forced| ensures forced[i] < |len| && len[forced[i]] == 1 {
      ForcedHasOneBit(k, len, bl, freq, freq', forced, i);
    }
    ForcedCost(k, len, freq, freq', forced, |forced|);
    AllForced(freq, freq', forced, |forced|);
    assert forced[..|forced|] == forced;
    assert WithForced(freq, forced, |forced|) == freq';
  }

  lemma ForcedHasOneBit(k: TreeKind, len: seq<nat>, bl: seq<nat>, freq: seq<nat>, freq': seq<nat>, forced: seq<nat>, i: nat)
    requires k.Valid() && |len| == k.elems <= |freq| && Forcing(freq, freq', forced) && i < |forced|
    requires CompleteCode(len, bl, k.limit, Used(freq', k.elems)) && |Used(freq', k.elems)| == 2
    ensures forced[i] < |len| && len[forced[i]] == 1
  {
    hide CompleteCode, Pow2;
    var u, x := Used(freq', k.elems), forced[i];
    assert x in u;
    assert |u - {x}| == 1;
    var y :| y in u - {x};
    assert |u - {x} - {y}| == 0;
    assert u == {x, y};
    TwoCodes(len, bl, k.limit, u, x, y);
  }

  // ---------------------------------------------------------------- build_tree as a whole

  /** What build_tree has made of a list of frequencies: lengths and how many there are of each, the frequencies with those that were
      forced, and the tree: its nodes in the order in which they left the heap, with their frequencies and fathers. */
  datatype HuffmanTree = HuffmanTree(len: seq<nat>, counts: seq<nat>, freq: seq<nat>, forced: seq<nat>, order: seq<nat>,
                                     sums: seq<nat>, fathers: seq<nat>)

  /** t is what build_tree makes of the frequencies f. The two least frequent nodes were joined until one was left; the lengths are
      the depths of the leaves, repaired if some are deeper than the limit. They are a complete code for the symbols in use, and if
      no node was too deep none is cheaper. Only which of several nodes of the same frequency come first is left open. */
  ghost predicate TreeFor(t: HuffmanTree, f: seq<nat>, limit: nat) {
    && |t.len| == |t.freq| == |f| <= |t.sums| && t.sums[..|f|] == t.freq
    && Forcing(f, t.freq, t.forced) && t.forced == ToForce(Largest(f, |f|), |Used(f, |f|)|)
    && (t.forced != [] ==> |Used(t.freq, |f|)| == 2)
    && Complete(t.order, t.sums, t.fathers, |f|, Used(t.freq, |f|), |Used(t.freq, |f|)|)
    && FromTree(t.len, t.counts, t.order, |f|, |Used(t.freq, |f|)|, limit)
    && CompleteCode(t.len, t.counts, limit, Used(t.freq, |f|)) && Monotone(t.len, t.freq, Used(t.freq, |f|))
    && (Overflow(t, limit) == 0 ==> Optimum(t.len, t.freq, Used(t.freq, |f|)))
  }

  ghost function Overflow(t: HuffmanTree, limit: nat): nat
    requires |t.len| == |t.freq| && FromTree(t.len, t.counts, t.order, |t.len|, |Used(t.freq, |t.len|)|, limit)
  {
    TooDeep(t.order, |t.len|, |Used(t.freq, |t.len|)|, limit)
  }

  lemma MakeTree(t: HuffmanTree, f: seq<nat>, freq: seq<nat>, elems: nat, limit: nat, overflow: nat)
    requires 3 <= elems <= |f| == |freq| && |t.len| == elems <= |t.sums| && t.freq == freq[..elems] == t.sums[..elems]
    requires Forcing(f, freq, t.forced) && t.forced == ToForce(Largest(f, elems), |Used(f, elems)|)
    requires t.forced != [] ==> |Used(freq, elems)| == 2
    requires Complete(t.order, t.sums, t.fathers, elems, Used(freq, elems), |Used(freq, elems)|)
    requires FromTree(t.len, t.counts, t.order, elems, |Used(freq, elems)|, limit)
    requires overflow == TooDeep(t.order, elems, |Used(freq, elems)|, limit)
    requires CompleteCode(t.len, t.counts, limit, Used(freq, elems)) && Monotone(t.len, freq, Used(freq, elems))
    requires overflow == 0 ==> Optimum(t.len, freq, Used(freq, elems))
    ensures TreeFor(t, f[..elems], limit) && Overflow(t, limit) == overflow
  {
    hide Complete, FromTree, CompleteCode, TooDeep, Sum, ToForce, Forcing;
    var g := f[..elems];
    assert Used(g, elems) == Used(f, elems);
    assert Used(t.freq, elems) == Used(freq, elems);
    LargestPart(f, elems, elems);
    ForcingPart(f, freq, t.forced, elems);
    BagFrame(Used(freq, elems), freq, t.freq);
    assert Products(t.len, freq) == Products(t.len, t.freq);
  }

  lemma {:induction false} LargestPart(f: seq<nat>, n: nat, elems: nat)
    requires n <= elems <= |f|
    ensures Largest(f[..elems], n) == Largest(f, n)
  {
    if n > 0 {
      LargestPart(f, n - 1, elems);
    }
  }

  lemma ForcingPart(f: seq<nat>, freq: seq<nat>, forced: seq<nat>, elems: nat)
    requires Forcing(f, freq, forced) && 3 <= elems <= |f|
    ensures Forcing(f[..elems], freq[..elems], forced)
  {
  }

  /** Builds one Huffman tree. `freq` are the frequencies after at least two symbols have been given one; fc and dl hold
      the codes and their lengths afterwards. */
  method BuildTree(b: TreeBuilder, fc: array<nat>, dl: array<nat>, k: TreeKind)
    returns (maxCode: nat, overflow: nat, ghost freq: seq<nat>, ghost forced: seq<nat>, ghost tree: HuffmanTree)
    requires b.Valid() && b.Fits(fc, dl, k.elems) && k.Valid() && SumTo(fc[..], k.elems) < 0xfffd
    modifies b, b.heap, b.depth, b.blCount, fc, dl
    ensures |freq| == fc.Length && Forcing(old(fc[..]), freq, forced) && |Used(freq, k.elems)| >= 2
    ensures forced != [] ==> |Used(freq, k.elems)| == 2
    ensures maxCode < k.elems && freq[maxCode] != 0 && forall x | maxCode < x < k.elems :: freq[x] == 0
    ensures CompleteCode(dl[..k.elems], b.blCount[..], k.limit, Used(freq, k.elems))
    ensures Assigned(fc[..], dl[..k.elems], b.blCount[..], k.elems)
    ensures Monotone(dl[..k.elems], freq, Used(freq, k.elems))
    ensures overflow == 0 ==> Optimum(dl[..k.elems], freq, Used(freq, k.elems))
    ensures overflow > 0 ==> b.heapMax < b.heap.Length && LongestFirst(Order(b.heap[..], b.heapMax), dl[..k.elems])
    ensures TreeFor(tree, old(fc[..])[..k.elems], k.limit) && Overflow(tree, k.limit) == overflow
    ensures tree.len == dl[..k.elems] && tree.counts == b.blCount[..] && tree.freq == freq[..k.elems]
    ensures b.optLen == old(b.optLen) + BitCost(dl[..k.elems], old(fc[..]), dl[..k.elems], k.Extras())
    ensures b.staticLen == old(b.staticLen) + StaticCost(k, dl[..k.elems], old(fc[..]))
  {
    hide Forcing, Complete, CompleteCode, Assigned, Monotone, LongestFirst, Optimum, BitCost, StaticCost, LengthsOf, SumTo, Codable, Pow2,
         FromTree, TooDeep, TreeFor, Overflow, ToForce, Largest;
    maxCode, forced, freq := b.BuildForest(fc, dl, k.elems, k.slen);
    ghost var f := fc[..];
    SameUsed(freq, f, k.elems);
    UsedSize(freq, k.elems);
    ghost var fathers, order := dl[..], Order(b.heap[..], b.heapMax);
    CompleteRoom(Order(b.heap[..], b.heapMax), f, dl[..], k.elems, Used(freq, k.elems), |Used(freq, k.elems)|);
    overflow := GenBitlen(b, fc, dl, k, maxCode, Used(freq, k.elems));
    ghost var len := dl[..k.elems];
    if overflow == 0 {
      OptimumIsMonotone(len, f, b.blCount[..], k.limit);
    }
    SameResults(freq, f, k, len, Used(freq, k.elems), overflow);
    tree := HuffmanTree(len, b.blCount[..], freq[..k.elems], forced, order, f, fathers);
    assert f[..k.elems] == fc[..k.elems];
    MakeTree(tree, old(fc[..]), freq, k.elems, k.limit, overflow);
    ForcingCancels(k, len, b.blCount[..], old(fc[..]), freq, forced);
    CompleteIsCodable(len, b.blCount[..], k.limit, Used(freq, k.elems));
    CompleteZero(len, b.blCount[..], k.limit, freq, maxCode);
    GenCodes(fc, dl, k.elems, maxCode, b.blCount, k.limit);
  }

  lemma SameUsed(freq: seq<nat>, f: seq<nat>, elems: nat)
    requires |f| == |freq| && elems <= |f| && f[..elems] == freq[..elems]
    ensures Used(f, elems) == Used(freq, elems) && forall x | 0 <= x < elems :: f[x] == freq[x]
  {
    forall x | 0 <= x < elems ensures f[x] == freq[x] {
      assert f[..elems][x] == freq[..elems][x];
    }
  }

  lemma {:induction false} UsedSize(freq: seq<nat>, n: nat)
    requires n <= |freq|
    ensures |Used(freq, n)| <= n
  {
    if n > 0 {
      UsedSize(freq, n - 1);
      assert Used(freq, n) <= Used(freq, n - 1) + {n - 1};
      SubsetSize(Used(freq, n), Used(freq, n - 1) + {n - 1});
    }
  }

  lemma CompleteRoom(order: seq<nat>, fc: seq<nat>, dl: seq<nat>, elems: nat, leaves: set<nat>, n: nat)
    requires Complete(order, fc, dl, elems, leaves, n)
    ensures |order| > 0
  {
  }

  lemma SameResults(freq: seq<nat>, f: seq<nat>, k: TreeKind, len: seq<nat>, leaves: set<nat>, overflow: nat)
    requires k.Valid() && |f| == |freq| && |len| == k.elems <= |f| && (forall x | 0 <= x < k.elems :: f[x] == freq[x])
    requires forall x | x in leaves :: x < k.elems
    ensures BitCost(len, f, len, k.Extras()) == BitCost(len, freq, len, k.Extras())
    ensures StaticCost(k, len, f) == StaticCost(k, len, freq)
    ensures Monotone(len, f, leaves) ==> Monotone(len, freq, leaves)
    ensures Optimum(len, f, leaves) ==> Optimum(len, freq, leaves)
  {
    assert Terms(len, f, len, k.Extras()) == Terms(len, freq, len, k.Extras());
    assert Terms(len, f, k.Statics(), k.Extras()) == Terms(len, freq, k.Statics(), k.Extras());
    assert Products(len, f) == Products(len, freq);
    BagFrame(leaves, f, freq);
  }

  lemma CompleteZero(len: seq<nat>, bl: seq<nat>, limit: nat, freq: seq<nat>, maxCode: nat)
    requires |len| <= |freq| && CompleteCode(len, bl, limit, Used(freq, |len|))
      && forall x | maxCode < x < |len| :: freq[x] == 0
    ensures forall x | maxCode < x < |len| :: len[x] == 0
  {
  }
}
