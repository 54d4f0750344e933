/** The bits of a block (sections 3.2.3 to 3.2.7 of RFC 1951) as compress_block and send_all_trees of
    src/ext/zlib/trees.c send them, and what the machine that models inflate makes of them. */
module Blocks {
  import opened Bits
  import opened Canonical
  import opened Streams
  import opened DecodeTables
  import opened InfTrees
  import opened Reading
  import opened Inflation

  // ---------------------------------------------------------------- length and distance codes

  /** The length code of match length l + 3, counted from 257. */
  function LengthCode(l: nat): (c: nat)
    requires l < 256
    ensures c < 29
  {
    if l == 255 then 28 else SearchLength(l, 27)
  }

  function SearchLength(l: nat, c: nat): (r: nat)
    requires c <= 27
    ensures r <= c
  {
    if c == 0 || LBase(257 + c) <= l + 3 then c else SearchLength(l, c - 1)
  }

  /** The distance code of distance d + 1. */
  function DistanceCode(d: nat): (c: nat)
    requires d < 32768
    ensures c < 30
  {
    SearchDistance(d, 29)
  }

  function SearchDistance(d: nat, c: nat): (r: nat)
    requires c <= 29
    ensures r <= c
  {
    if c == 0 || DBase(c) <= d + 1 then c else SearchDistance(d, c - 1)
  }

  function LengthExtra(c: nat): nat
    requires c < 29
  {
    LExt(257 + c) - 16
  }

  function DistanceExtra(c: nat): nat
    requires c < 30
  {
    DExt(c) - 16
  }

  lemma LengthBases(c: nat)
    requires c < 28
    ensures LBase(257 + c) + Pow2(LengthExtra(c)) == if c == 27 then 259 else LBase(257 + c + 1)
    ensures LBase(257) == 3 && LBase(285) == 258 && LengthExtra(28) == 0
  {
    Pow2Values();
  }

  lemma DistanceBases(c: nat)
    requires c < 30
    ensures DBase(c) + Pow2(DistanceExtra(c)) == if c == 29 then 32769 else DBase(c + 1)
    ensures DBase(0) == 1
  {
    Pow2Values();
    Pow2Upper();
  }

  lemma {:induction false} SearchLengthFinds(l: nat, c: nat)
    requires c <= 27 && l + 3 < LBase(257 + c) + Pow2(LengthExtra(c))
    ensures var r := SearchLength(l, c); LBase(257 + r) <= l + 3 < LBase(257 + r) + Pow2(LengthExtra(r))
  {
    hide LBase, LExt, LengthExtra, Pow2;
    LengthBases(c);
    LengthBases(0);
    if c > 0 {
      LengthBases(c - 1);
      if LBase(257 + c) > l + 3 {
        SearchLengthFinds(l, c - 1);
      }
    }
  }

  lemma {:induction false} SearchDistanceFinds(d: nat, c: nat)
    requires c <= 29 && d + 1 < DBase(c) + Pow2(DistanceExtra(c))
    ensures var r := SearchDistance(d, c); DBase(r) <= d + 1 < DBase(r) + Pow2(DistanceExtra(r))
  {
    hide DBase, DExt, DistanceExtra, Pow2;
    DistanceBases(c);
    DistanceBases(0);
    if c > 0 {
      DistanceBases(c - 1);
      if DBase(c) > d + 1 {
        SearchDistanceFinds(d, c - 1);
      }
    }
  }

  /** A length is its code's base and extra bits that fit. */
  lemma LengthInCode(l: nat)
    requires l < 256
    ensures var c := LengthCode(l); LBase(257 + c) <= l + 3 < LBase(257 + c) + Pow2(LengthExtra(c))
  {
    hide LBase, LExt, LengthExtra, Pow2;
    LengthBases(27);
    if l < 255 {
      SearchLengthFinds(l, 27);
    } else {
      Pow2Values();
    }
  }

  lemma DistanceInCode(d: nat)
    requires d < 32768
    ensures var c := DistanceCode(d); DBase(c) <= d + 1 < DBase(c) + Pow2(DistanceExtra(c))
  {
    hide DBase, DExt, DistanceExtra, Pow2;
    DistanceBases(29);
    SearchDistanceFinds(d, 29);
  }

  // ---------------------------------------------------------------- the bits of tokens

  predicate GoodToken(t: Token) {
    match t
    case Literal(c) => c < 256
    case Match(l, d) => 3 <= l <= 258 && 1 <= d <= 32768
  }

  ghost predicate HasCode(lens: seq<nat>, s: nat) {
    s < |lens| && 0 < lens[s] <= 15
  }

  /** The codes that a token needs exist. */
  ghost predicate HasCodes(ll: seq<nat>, dd: seq<nat>, t: Token)
    requires GoodToken(t)
  {
    match t
    case Literal(c) => HasCode(ll, c)
    case Match(l, d) => HasCode(ll, 257 + LengthCode(l - 3)) && HasCode(dd, DistanceCode(d - 1))
  }

  ghost function LengthBits(ll: seq<nat>, l: nat): seq<bool>
    requires 3 <= l <= 258 && HasCode(ll, 257 + LengthCode(l - 3))
  {
    LengthInCode(l - 3);
    var c := LengthCode(l - 3);
    Bitstring(ll, 257 + c) + LsbBits(l - LBase(257 + c), LengthExtra(c))
  }

  ghost function DistanceBits(dd: seq<nat>, d: nat): seq<bool>
    requires 1 <= d <= 32768 && HasCode(dd, DistanceCode(d - 1))
  {
    DistanceInCode(d - 1);
    var c := DistanceCode(d - 1);
    Bitstring(dd, c) + LsbBits(d - DBase(c), DistanceExtra(c))
  }

  ghost function TokenBits(ll: seq<nat>, dd: seq<nat>, t: Token): seq<bool>
    requires GoodToken(t) && HasCodes(ll, dd, t)
  {
    match t
    case Literal(c) => Bitstring(ll, c)
    case Match(l, d) => LengthBits(ll, l) + DistanceBits(dd, d)
  }

  ghost predicate AllCoded(ll: seq<nat>, dd: seq<nat>, ts: seq<Token>) {
    HasCode(ll, 256) && forall i | 0 <= i < |ts| :: GoodToken(ts[i]) && HasCodes(ll, dd, ts[i])
  }

  ghost function TokensBits(ll: seq<nat>, dd: seq<nat>, ts: seq<Token>): seq<bool>
    requires AllCoded(ll, dd, ts)
  {
    if ts == [] then [] else TokensBits(ll, dd, ts[..|ts| - 1]) + TokenBits(ll, dd, ts[|ts| - 1])
  }

  /** The tokens and the end of the block. */
  ghost function BlockBits(ll: seq<nat>, dd: seq<nat>, ts: seq<Token>): seq<bool>
    requires AllCoded(ll, dd, ts)
  {
    TokensBits(ll, dd, ts) + Bitstring(ll, 256)
  }

  // ---------------------------------------------------------------- what tokens stand for

  predicate Reaches(h: seq<byte>, t: Token) {
    GoodToken(t) && (t.Match? ==> t.dist <= |h|)
  }

  function Expand(h: seq<byte>, t: Token): seq<byte>
    requires Reaches(h, t)
  {
    match t
    case Literal(c) => h + [c]
    case Match(l, d) => CopyBack(h, l, d)
  }

  predicate AllReach(h: seq<byte>, ts: seq<Token>)
    decreases |ts|, 0
  {
    ts == [] || (AllReach(h, ts[..|ts| - 1]) && Reaches(ExpandAll(h, ts[..|ts| - 1]), ts[|ts| - 1]))
  }

  /** What a list of tokens stands for after the history h. */
  function ExpandAll(h: seq<byte>, ts: seq<Token>): seq<byte>
    requires AllReach(h, ts)
    decreases |ts|, 1
  {
    if ts == [] then h else Expand(ExpandAll(h, ts[..|ts| - 1]), ts[|ts| - 1])
  }

  // ---------------------------------------------------------------- the machine reads tokens

  /** The machine after one token: it goes on unless the distance reaches back too far. */
  function Applied(m: Machine, t: Token): Machine
    requires GoodToken(t)
  {
    if m.mode != LEN then m
    else match t
      case Literal(c) => m.(history := m.history + [c], tokens := m.tokens + [t], length := c)
      case Match(l, d) =>
        var n := m.(offset := d, extra := DistanceExtra(DistanceCode(d - 1)), tokens := m.tokens + [t]);
        if d > |m.history| then n.(mode := BAD, length := l) else n.(history := CopyBack(m.history, l, d), length := 0)
  }

  lemma OneStep(m: Machine, b: seq<bool>, rest: seq<bool>, n: Machine)
    requires Proper(m) && Next(m, b + rest) == Take(|b|, n)
    ensures Proper(n) && Run(m, b + rest) == Run(n, rest) && Rest(m, b + rest) == Rest(n, rest)
  {
    hide Next, Proper, Run, Rest;
    RunStep(m, b + rest);
    assert (b + rest)[|b|..] == rest;
  }

  /** The code of a symbol at the front of the stream is read as that symbol. */
  lemma ReadsSymbol(kind: CodeType, lens: seq<nat>, s: nat, rest: seq<bool>)
    requires Usable(kind, lens) && HasCode(lens, s)
    ensures ReadSymbol(lens, Bitstring(lens, s) + rest) == Symbol(s) && |Bitstring(lens, s)| == lens[s]
  {
    hide Acceptable, Bitstring, Sound;
    AcceptableIsSound(kind, lens);
    ReadIs(lens, s, Bitstring(lens, s) + rest);
  }

  lemma ReadsField(v: nat, n: nat, rest: seq<bool>)
    requires v < Pow2(n)
    ensures |LsbBits(v, n) + rest| >= n && Field(LsbBits(v, n) + rest, n) == v
  {
    hide Pow2, LsbBits;
    assert (LsbBits(v, n) + rest)[..n] == LsbBits(v, n);
    ValueOfLsb(v, n);
    LowSmall(v, n);
  }

  lemma LiteralDecodes(m: Machine, c: nat, rest: seq<bool>)
    requires Proper(m) && m.mode == LEN && c < 256 && HasCode(m.ll, c)
    ensures Proper(Applied(m, Literal(c)))
    ensures Run(m, Bitstring(m.ll, c) + rest) == Run(Applied(m, Literal(c)), rest)
    ensures Rest(m, Bitstring(m.ll, c) + rest) == Rest(Applied(m, Literal(c)), rest)
  {
    hide Bitstring, Run, Rest, Acceptable, Lengths, ReadSymbol;
    ReadsSymbol(LENS, m.ll, c, rest);
    var n := m.(mode := LIT, length := c);
    OneStep(m, Bitstring(m.ll, c), rest, n);
    assert [] + rest == rest;
    OneStep(n, [], rest, Applied(m, Literal(c)));
  }

  lemma EndDecodes(m: Machine, rest: seq<bool>)
    requires Proper(m) && m.mode == LEN && HasCode(m.ll, 256)
    ensures Run(m, Bitstring(m.ll, 256) + rest) == Run(m.(mode := TYPE), rest)
    ensures Rest(m, Bitstring(m.ll, 256) + rest) == Rest(m.(mode := TYPE), rest)
  {
    hide Bitstring, Run, Rest, Acceptable, Lengths, ReadSymbol;
    ReadsSymbol(LENS, m.ll, 256, rest);
    OneStep(m, Bitstring(m.ll, 256), rest, m.(mode := TYPE));
  }

  /** Reading a length code and its extra bits. */
  lemma LengthDecodes(m: Machine, l: nat, rest: seq<bool>)
    requires Proper(m) && m.mode == LEN && 3 <= l <= 258 && HasCode(m.ll, 257 + LengthCode(l - 3))
    ensures var n := m.(mode := DIST, length := l, extra := LengthExtra(LengthCode(l - 3)));
      && Proper(n) && Run(m, LengthBits(m.ll, l) + rest) == Run(n, rest)
      && Rest(m, LengthBits(m.ll, l) + rest) == Rest(n, rest)
  {
    hide Bitstring, Run, Rest, Usable, ReadSymbol, LBase, LExt, LsbBits, Pow2, LengthCode;
    LengthInCode(l - 3);
    var c := LengthCode(l - 3);
    var x, y := Bitstring(m.ll, 257 + c), LsbBits(l - LBase(257 + c), LengthExtra(c));
    ReadsSymbol(LENS, m.ll, 257 + c, y + rest);
    var n := m.(mode := LENEXT, length := LBase(257 + c), extra := LengthExtra(c));
    OneStep(m, x, y + rest, n);
    ReadsField(l - LBase(257 + c), LengthExtra(c), rest);
    OneStep(n, y, rest, n.(mode := DIST, length := l));
    assert x + y + rest == x + (y + rest);
  }

  /** Reading a distance code and its extra bits. */
  lemma DistanceDecodes(m: Machine, d: nat, rest: seq<bool>)
    requires Proper(m) && m.mode == DIST && 1 <= d <= 32768 && HasCode(m.dd, DistanceCode(d - 1))
    ensures var n := m.(offset := d, extra := DistanceExtra(DistanceCode(d - 1)), tokens := m.tokens + [Match(m.length, d)],
                        mode := if d > |m.history| then BAD else MATCH);
      && Proper(n) && Run(m, DistanceBits(m.dd, d) + rest) == Run(n, rest)
      && Rest(m, DistanceBits(m.dd, d) + rest) == Rest(n, rest)
  {
    hide Bitstring, Run, Rest, Acceptable, Lengths, ReadSymbol, DBase, DExt, LsbBits, Pow2, DistanceCode;
    DistanceInCode(d - 1);
    var c := DistanceCode(d - 1);
    var x, y := Bitstring(m.dd, c), LsbBits(d - DBase(c), DistanceExtra(c));
    ReadsSymbol(DISTS, m.dd, c, y + rest);
    var n := m.(mode := DISTEXT, offset := DBase(c), extra := DistanceExtra(c));
    OneStep(m, x, y + rest, n);
    ReadsField(d - DBase(c), DistanceExtra(c), rest);
    OneStep(n, y, rest, n.(offset := d, tokens := m.tokens + [Match(m.length, d)],
                           mode := if d > |m.history| then BAD else MATCH));
    assert x + y + rest == x + (y + rest);
  }

  lemma {:induction false} CopyDecodes(m: Machine, rest: seq<bool>)
    requires Proper(m) && m.mode == MATCH
    ensures var n := m.(mode := LEN, length := 0, history := CopyBack(m.history, m.length, m.offset));
      Proper(n) && Run(m, rest) == Run(n, rest) && Rest(m, rest) == Rest(n, rest)
    decreases m.length
  {
    hide Run, Rest, Acceptable, Lengths;
    assert [] + rest == rest;
    var n := m.(history := m.history + [m.history[|m.history| - m.offset]], length := m.length - 1,
                mode := if m.length == 1 then LEN else MATCH);
    OneStep(m, [], rest, n);
    if m.length > 1 {
      CopyDecodes(n, rest);
    }
  }

  lemma TokenDecodes(m: Machine, t: Token, rest: seq<bool>)
    requires Proper(m) && m.mode == LEN && GoodToken(t) && HasCodes(m.ll, m.dd, t)
    ensures Proper(Applied(m, t))
    ensures Run(m, TokenBits(m.ll, m.dd, t) + rest) == Run(Applied(m, t), rest)
    ensures t.Literal? || t.dist <= |m.history| ==> Rest(m, TokenBits(m.ll, m.dd, t) + rest) == Rest(Applied(m, t), rest)
  {
    hide Bitstring, Run, Rest, Usable, LengthBits, DistanceBits, LengthCode, DistanceCode;
    match t
    case Literal(c) => LiteralDecodes(m, c, rest);
    case Match(l, d) =>
      var x, y := LengthBits(m.ll, l), DistanceBits(m.dd, d);
      LengthDecodes(m, l, y + rest);
      var n := m.(mode := DIST, length := l, extra := LengthExtra(LengthCode(l - 3)));
      DistanceDecodes(n, d, rest);
      assert x + y + rest == x + (y + rest);
      if d <= |m.history| {
        CopyDecodes(n.(offset := d, extra := DistanceExtra(DistanceCode(d - 1)), tokens := m.tokens + [t], mode := MATCH), rest);
      }
  }

  // ---------------------------------------------------------------- the machine reads blocks of tokens

  /** The machine after a list of tokens. */
  function AppliedAll(m: Machine, ts: seq<Token>): Machine
    requires forall i | 0 <= i < |ts| :: GoodToken(ts[i])
  {
    if ts == [] then m else Applied(AppliedAll(m, ts[..|ts| - 1]), ts[|ts| - 1])
  }

  ghost predicate SameCodes(m: Machine, n: Machine) {
    n.ll == m.ll && n.dd == m.dd && n.last == m.last && n.wrap == m.wrap && (n.mode == LEN || n.mode == BAD)
  }

  lemma {:induction false} TokensDecode(m: Machine, ts: seq<Token>, rest: seq<bool>)
    requires Proper(m) && m.mode == LEN && AllCoded(m.ll, m.dd, ts)
    ensures Proper(AppliedAll(m, ts)) && SameCodes(m, AppliedAll(m, ts))
    ensures Run(m, TokensBits(m.ll, m.dd, ts) + rest) == Run(AppliedAll(m, ts), rest)
    decreases |ts|
  {
    hide Bitstring, Usable, TokenBits, Proper, HasCodes, LengthBits, DistanceBits, Run;
    if ts == [] {
      assert [] + rest == rest;
    } else {
      var us, t := ts[..|ts| - 1], ts[|ts| - 1];
      var x, y := TokensBits(m.ll, m.dd, us), TokenBits(m.ll, m.dd, t);
      TokensDecode(m, us, y + rest);
      assert x + y + rest == x + (y + rest);
      var n := AppliedAll(m, us);
      if n.mode == LEN {
        TokenDecodes(n, t, rest);
      } else {
        RunEnds(n, y + rest);
        RunEnds(n, rest);
      }
    }
  }

  lemma RunEnds(m: Machine, b: seq<bool>)
    requires Proper(m) && Final(m.mode)
    ensures Run(m, b) == m
  {
    RunWaits(m, b);
  }

  /** Every token list is read back exactly as long as its distances stay inside the history; the history is what the
      tokens stand for. The first distance that does not ends in an error. */
  lemma {:induction false} AppliedAllIs(m: Machine, ts: seq<Token>)
    requires m.mode == LEN && forall i | 0 <= i < |ts| :: GoodToken(ts[i])
    ensures var n := AppliedAll(m, ts);
      && (AllReach(m.history, ts) <==> n.mode == LEN)
      && (AllReach(m.history, ts) ==> n.history == ExpandAll(m.history, ts) && n.tokens == m.tokens + ts)
      && (!AllReach(m.history, ts) ==>
           (n.mode == BAD && exists k | 0 <= k < |ts| :: FirstTooFar(m, ts, k) && n.tokens == m.tokens + ts[..k + 1]))
    decreases |ts|
  {
    hide CopyBack;
    if ts == [] {
      assert m.tokens + [] == m.tokens;
    } else {
      var us, t := ts[..|ts| - 1], ts[|ts| - 1];
      AppliedAllIs(m, us);
      assert ts == us + [t];
      if AllReach(m.history, us) {
        assert ts[..|ts|] == ts;
        if !AllReach(m.history, ts) {
          assert FirstTooFar(m, ts, |ts| - 1);
        }
      } else {
        var k :| 0 <= k < |us| && FirstTooFar(m, us, k) && AppliedAll(m, us).tokens == m.tokens + us[..k + 1];
        assert us[..k] == ts[..k] && us[..k + 1] == ts[..k + 1];
        assert FirstTooFar(m, ts, k);
      }
    }
  }

  ghost predicate FirstTooFar(m: Machine, ts: seq<Token>, k: nat)
    requires k < |ts|
  {
    AllReach(m.history, ts[..k]) && !Reaches(ExpandAll(m.history, ts[..k]), ts[k])
  }

  /** A block of tokens, read with the codes it was written with. */
  lemma BlockDecodes(m: Machine, ts: seq<Token>, rest: seq<bool>)
    requires Proper(m) && m.mode == LEN && AllCoded(m.ll, m.dd, ts)
    ensures Proper(AppliedAll(m, ts))
    ensures Run(m, BlockBits(m.ll, m.dd, ts) + rest) ==
      if AllReach(m.history, ts) then Run(AppliedAll(m, ts).(mode := TYPE), rest) else AppliedAll(m, ts)
  {
    hide Bitstring, Usable, TokensBits, Proper, Run, AllReach, AppliedAll;
    var x, y := TokensBits(m.ll, m.dd, ts), Bitstring(m.ll, 256);
    assert x + y + rest == x + (y + rest);
    TokensDecode(m, ts, y + rest);
    AppliedAllIs(m, ts);
    var n := AppliedAll(m, ts);
    if AllReach(m.history, ts) {
      EndDecodes(n, rest);
    } else {
      RunEnds(n, y + rest);
    }
  }
}
