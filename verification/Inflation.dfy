/** The decompressor of src/ext/zlib/inflate.c as a machine over a bit stream: one step for each thing that one of its
    states does at once. It knows nothing of buffers, tables or windows: symbols are read by their codes, and the history is
    all output so far. With windowBits 15 and no preset dictionary. */
module Inflation {
  import opened Bits
  import opened PairTree
  import opened CodeLengths
  import opened Canonical
  import opened Streams
  import opened DecodeTables
  import opened InfTrees
  import opened Reading
  import Adler32

  type byte = Adler32.byte

  datatype Mode = HEAD | DICTID | DICT | TYPE | STORED | COPY | TABLE | LENLENS | CODELENS
                | LEN | LENEXT | DIST | DISTEXT | MATCH | LIT | CHECK | DONE | BAD

  datatype Token = Literal(c: nat) | Match(length: nat, dist: nat)

  /** `wrap`: the stream has a zlib header and trailer. `lens` are the lengths read so far, `ll` and `dd` those of the codes
      in use, `tokens` those read since the start. */
  datatype Machine = Machine(mode: Mode, wrap: bool, last: bool, nlen: nat, ndist: nat, ncode: nat, lens: seq<nat>,
                             ll: seq<nat>, dd: seq<nat>, length: nat, offset: nat, extra: nat,
                             history: seq<byte>, tokens: seq<Token>)

  function Start(wrap: bool): Machine {
    Machine(HEAD, wrap, false, 0, 0, 0, [], [], [], 0, 0, 0, [], [])
  }

  predicate Final(mode: Mode) {
    mode == DONE || mode == BAD || mode == DICT
  }

  // ---------------------------------------------------------------- constants of the format

  /** The order in which the lengths of the code length code are stored. */
  const ORDER: seq<nat> := [16, 17, 18, 0, 8, 7, 9, 6, 10, 5, 11, 4, 12, 3, 13, 2, 14, 1, 15]

  /** Where in that order a symbol stands. */
  const PLACE: seq<nat> := [3, 17, 15, 13, 11, 9, 7, 5, 4, 6, 8, 10, 12, 14, 16, 18, 0, 1, 2]

  lemma OrderIsPermutation(i: nat)
    requires i < 19
    ensures ORDER[i] < 19 && PLACE[i] < 19 && ORDER[PLACE[i]] == i && PLACE[ORDER[i]] == i
  {
  }

  /** The lengths of the code length code when `read` has been stored. */
  function Permuted(read: seq<nat>): (r: seq<nat>)
    ensures |r| == 19 && forall i | 0 <= i < 19 :: r[i] == if PLACE[i] < |read| then read[PLACE[i]] else 0
  {
    seq(19, i requires 0 <= i < 19 => if PLACE[i] < |read| then read[PLACE[i]] else 0)
  }

  function FixedLength(s: nat): nat {
    if s <= 143 then 8 else if s <= 255 then 9 else if s <= 279 then 7 else 8
  }

  function FixedLengths(): (r: seq<nat>)
    ensures |r| == 288 && forall s | 0 <= s < 288 :: r[s] == FixedLength(s)
  {
    seq(288, s requires 0 <= s < 288 => FixedLength(s))
  }

  function FixedDistances(): (r: seq<nat>)
    ensures |r| == 32 && forall s | 0 <= s < 32 :: r[s] == 5
  {
    seq(32, s => 5)
  }

  function Repeat(x: nat, n: nat): (r: seq<nat>)
    ensures |r| == n && forall i | 0 <= i < n :: r[i] == x
  {
    seq(n, i => x)
  }

  /** The 16 bits of a zlib header (section 2.2 of RFC 1950): check bits, method 8, window of at most 32K. */
  predicate GoodHeader(w: nat) {
    (256 * Low(w, 8) + Shr(w, 8)) % 31 == 0 && Low(w, 4) == 8 && Low(Shr(w, 4), 4) + 8 <= 15
  }

  /** Copying length bytes from dist bytes back, one by one, so that source and target may overlap. */
  function CopyBack(h: seq<byte>, length: nat, dist: nat): (r: seq<byte>)
    requires 1 <= dist <= |h|
    ensures |r| == |h| + length && h <= r
    decreases length
  {
    if length == 0 then h else CopyBack(h + [h[|h| - dist]], length - 1, dist)
  }

  /** The bytes of a 32-bit number in reverse. */
  function Swap(q: nat): nat {
    Shr(q, 24) % 256 + 256 * (Shr(q, 16) % 256) + 65536 * (Shr(q, 8) % 256) + 16777216 * (q % 256)
  }

  function Check(history: seq<byte>): nat {
    Adler32.Join(Adler32.Bytewise(Adler32.Sums(1, 0), history))
  }

  // ---------------------------------------------------------------- what holds in each state

  /** Codes to read symbols with. */
  ghost predicate Usable(kind: CodeType, lens: seq<nat>) {
    |lens| <= Symbols(kind) && Lengths(lens) && Acceptable(kind, lens)
  }

  ghost predicate Codes(m: Machine) {
    Usable(LENS, m.ll) && Usable(DISTS, m.dd)
  }

  ghost predicate Sizes(m: Machine) {
    257 <= m.nlen <= 286 && 1 <= m.ndist <= 30
  }

  ghost predicate Proper(m: Machine) {
    match m.mode
    case LENLENS => Sizes(m) && |m.lens| <= m.ncode <= 19 && forall i | 0 <= i < |m.lens| :: m.lens[i] <= 7
    case CODELENS => Sizes(m) && |m.lens| <= m.nlen + m.ndist && Lengths(m.lens) && |m.ll| == 19 && Usable(CODES, m.ll)
    case LEN => Codes(m)
    case LIT => Codes(m) && m.length < 256
    case LENEXT => Codes(m) && 3 <= m.length && m.extra <= 5 && m.length + Pow2(m.extra) <= 259
    case DIST => Codes(m) && 3 <= m.length <= 258
    case DISTEXT =>
      Codes(m) && 3 <= m.length <= 258 && 1 <= m.offset && m.extra <= 13 && m.offset + Pow2(m.extra) <= 32769
    case MATCH => Codes(m) && 1 <= m.length <= 258 && 1 <= m.offset <= |m.history| && m.offset <= 32768
    case COPY => m.length < 65536
    case _ => true
  }

  // ---------------------------------------------------------------- steps

  /** A step needs more input, or takes n bits and leads to the next state. */
  datatype Step = Wait | Take(n: nat, next: Machine)

  ghost function HeadStep(m: Machine, b: seq<bool>): Step {
    if !m.wrap then Take(0, m.(mode := TYPE))
    else if |b| < 16 then Wait
    else
      var w := Field(b, 16);
      Take(16, m.(mode := if !GoodHeader(w) then BAD else if Shr(w, 13) % 2 == 1 then DICTID else TYPE))
  }

  ghost function TypeStep(m: Machine, b: seq<bool>): Step {
    if m.last then Take(|b| % 8, m.(mode := CHECK))
    else if |b| < 3 then Wait
    else
      var n := m.(last := b[0]);
      Take(3, match Field(b[1..], 2)
              case 0 => n.(mode := STORED)
              case 1 => n.(mode := LEN, ll := FixedLengths(), dd := FixedDistances())
              case 2 => n.(mode := TABLE)
              case _ => n.(mode := BAD))
  }

  ghost function StoredStep(m: Machine, b: seq<bool>): Step {
    var k := |b| % 8;
    if |b| < k + 32 then Wait
    else
      var w := Field(b[k..], 32);
      Take(k + 32, if Low(w, 16) != Xor(Shr(w, 16), 0xffff) then m.(mode := BAD) else m.(mode := COPY, length := Low(w, 16)))
  }

  ghost function CopyStep(m: Machine, b: seq<bool>): Step {
    if m.length == 0 then Take(0, m.(mode := TYPE))
    else if |b| < 8 then Wait
    else ByteValue(b); Take(8, m.(length := m.length - 1, history := m.history + [Field(b, 8)]))
  }

  lemma ByteValue(b: seq<bool>)
    requires |b| >= 8
    ensures Field(b, 8) < 256
  {
    Pow2Values();
  }

  ghost function TableStep(m: Machine, b: seq<bool>): Step {
    if |b| < 14 then Wait
    else
      var nlen, ndist := Field(b, 5) + 257, Field(b[5..], 5) + 1;
      Take(14, m.(nlen := nlen, ndist := ndist, ncode := Field(b[10..], 4) + 4, lens := [],
                  mode := if nlen > 286 || ndist > 30 then BAD else LENLENS))
  }

  ghost function LenLensStep(m: Machine, b: seq<bool>): Step {
    if |m.lens| < m.ncode then
      if |b| < 3 then Wait else Take(3, m.(lens := m.lens + [Field(b, 3)]))
    else
      var cl := Permuted(m.lens);
      Take(0, m.(lens := [], ll := cl, mode := if Acceptable(CODES, cl) then CODELENS else BAD))
  }

  /** Entering `copy` lengths x, if there is room for them. */
  function Repeated(m: Machine, x: nat, copy: nat): Machine {
    if |m.lens| + copy > m.nlen + m.ndist then m.(mode := BAD) else m.(lens := m.lens + Repeat(x, copy))
  }

  ghost function RepeatStep(m: Machine, b: seq<bool>, s: nat, l: nat): Step
    requires l <= |b|
  {
    var k := if s == 16 then 2 else if s == 17 then 3 else 7;
    if |b| < l + k then Wait
    else
      var v := Field(b[l..], k);
      if s == 16 && m.lens == [] then Take(l, m.(mode := BAD))
      else
        Take(l + k, if s == 16 then Repeated(m, m.lens[|m.lens| - 1], 3 + v)
                    else Repeated(m, 0, (if s == 17 then 3 else 11) + v))
  }

  ghost function CodeLensStep(m: Machine, b: seq<bool>): Step {
    if |m.lens| < m.nlen + m.ndist then
      match ReadSymbol(m.ll, b)
      case Short => Wait
      case NoSymbol => Take(1, m.(lens := m.lens + [0]))
      case Symbol(s) =>
        if s < 16 then Take(m.ll[s], m.(lens := m.lens + [s])) else RepeatStep(m, b, s, m.ll[s])
    else
      var ll, dd := m.lens[..m.nlen], m.lens[m.nlen..];
      Take(0, if Acceptable(LENS, ll) && Acceptable(DISTS, dd) then m.(mode := LEN, ll := ll, dd := dd) else m.(mode := BAD))
  }

  ghost function LenStep(m: Machine, b: seq<bool>): Step {
    match ReadSymbol(m.ll, b)
    case Short => Wait
    case NoSymbol => Take(1, m.(mode := BAD))
    case Symbol(s) =>
      Take(m.ll[s], if s < 256 then m.(mode := LIT, length := s)
                    else if s == 256 then m.(mode := TYPE)
                    else if s < 286 then m.(mode := LENEXT, length := LBase(s), extra := LExt(s) - 16)
                    else m.(mode := BAD))
  }

  ghost function LenExtStep(m: Machine, b: seq<bool>): Step {
    if |b| < m.extra then Wait else Take(m.extra, m.(mode := DIST, length := m.length + Field(b, m.extra)))
  }

  ghost function DistStep(m: Machine, b: seq<bool>): Step {
    match ReadSymbol(m.dd, b)
    case Short => Wait
    case NoSymbol => Take(1, m.(mode := BAD))
    case Symbol(s) =>
      Take(m.dd[s], if s < 30 then m.(mode := DISTEXT, offset := DBase(s), extra := DExt(s) - 16) else m.(mode := BAD))
  }

  ghost function DistExtStep(m: Machine, b: seq<bool>): Step {
    if |b| < m.extra then Wait
    else
      var offset := m.offset + Field(b, m.extra);
      Take(m.extra, m.(offset := offset, tokens := m.tokens + [Match(m.length, offset)],
                       mode := if offset > |m.history| then BAD else MATCH))
  }

  function MatchStep(m: Machine): Step {
    if 0 < m.offset <= |m.history| && m.length > 0 then
      Take(0, m.(history := m.history + [m.history[|m.history| - m.offset]], length := m.length - 1,
                 mode := if m.length == 1 then LEN else MATCH))
    else Wait
  }

  function LitStep(m: Machine): Step {
    if m.length < 256 then
      Take(0, m.(mode := LEN, history := m.history + [m.length], tokens := m.tokens + [Literal(m.length)]))
    else Wait
  }

  ghost function CheckStep(m: Machine, b: seq<bool>): Step {
    if !m.wrap then Take(0, m.(mode := DONE))
    else if |b| < 32 then Wait
    else Take(32, m.(mode := if Swap(Field(b, 32)) == Check(m.history) then DONE else BAD))
  }

  /** The next step of machine m with the stream b before it. */
  ghost function Next(m: Machine, b: seq<bool>): Step
    requires Proper(m)
  {
    match m.mode
    case HEAD => HeadStep(m, b)
    case DICTID => if |b| < 32 then Wait else Take(32, m.(mode := DICT))
    case TYPE => TypeStep(m, b)
    case STORED => StoredStep(m, b)
    case COPY => CopyStep(m, b)
    case TABLE => TableStep(m, b)
    case LENLENS => LenLensStep(m, b)
    case CODELENS => CodeLensStep(m, b)
    case LEN => LenStep(m, b)
    case LENEXT => LenExtStep(m, b)
    case DIST => DistStep(m, b)
    case DISTEXT => DistExtStep(m, b)
    case MATCH => MatchStep(m)
    case LIT => LitStep(m)
    case CHECK => CheckStep(m, b)
    case DICT => Wait
    case DONE => Wait
    case BAD => Wait
  }

  // ---------------------------------------------------------------- steps keep what holds

  lemma LengthBase(s: nat)
    requires 257 <= s < 286
    ensures LExt(s) >= 16 && LExt(s) - 16 <= 5 && 3 <= LBase(s)
    ensures LBase(s) + Pow2(LExt(s) - 16) <= 259
  {
    Pow2Values();
  }

  lemma DistanceBase(s: nat)
    requires s < 30
    ensures DExt(s) >= 16 && DExt(s) - 16 <= 13 && 1 <= DBase(s)
    ensures DBase(s) + Pow2(DExt(s) - 16) <= 32769
  {
    Pow2Values();
    Pow2Upper();
  }

  lemma Pow2Upper()
    ensures Pow2(10) == 1024 && Pow2(11) == 2048 && Pow2(12) == 4096
  {
    Pow2Values();
    assert Pow2(10) == 2 * Pow2(9);
    assert Pow2(11) == 2 * Pow2(10);
  }

  lemma {:induction false} SumRepeat(s: seq<int>, x: nat, n: nat)
    ensures Sum(s + Repeat(x, n)) == Sum(s) + n * x
    decreases n
  {
    if n == 0 {
      assert s + Repeat(x, 0) == s;
    } else {
      SumRepeat(s, x, n - 1);
      assert (s + Repeat(x, n))[..|s| + n - 1] == s + Repeat(x, n - 1);
    }
  }

  lemma FixedLengthsUsable()
    ensures Usable(LENS, FixedLengths())
  {
    hide Sum, Repeat;
    var s := Shares(FixedLengths(), 15, 15);
    Pow2Values();
    assert Pow2(6) == 64;
    assert s == Repeat(128, 144) + Repeat(64, 112) + Repeat(256, 24) + Repeat(128, 8);
    SumNothing();
    assert Repeat(128, 144) == [] + Repeat(128, 144);
    SumRepeat([], 128, 144);
    SumRepeat(Repeat(128, 144), 64, 112);
    SumRepeat(Repeat(128, 144) + Repeat(64, 112), 256, 24);
    SumRepeat(Repeat(128, 144) + Repeat(64, 112) + Repeat(256, 24), 128, 8);
  }

  lemma SumNothing()
    ensures Sum([]) == 0
  {
  }

  lemma FixedDistancesUsable()
    ensures Usable(DISTS, FixedDistances())
  {
    hide Sum, Repeat;
    var s := Shares(FixedDistances(), 15, 15);
    Pow2Upper();
    Pow2Values();
    assert s == [] + Repeat(1024, 32);
    SumNothing();
    SumRepeat([], 1024, 32);
  }

  ghost predicate Keeps(s: Step, b: seq<bool>) {
    s.Take? ==> s.n <= |b| && Proper(s.next)
  }

  lemma LenProper(m: Machine, b: seq<bool>)
    requires m.mode == LEN && Codes(m)
    ensures Keeps(LenStep(m, b), b)
  {
    hide Acceptable, Lengths, Bitstring, Pow2, LBase, LExt, DBase, DExt;
    var r := ReadSymbol(m.ll, b);
    if r.Symbol? {
      LeadsBound(m.ll, r.s, b);
      if 257 <= r.s < 286 {
        LengthBase(r.s);
      }
    }
  }

  lemma DistProper(m: Machine, b: seq<bool>)
    requires m.mode == DIST && Codes(m) && 3 <= m.length <= 258
    ensures Keeps(DistStep(m, b), b)
  {
    hide Acceptable, Lengths, Bitstring, Pow2, LBase, LExt, DBase, DExt;
    var r := ReadSymbol(m.dd, b);
    if r.Symbol? {
      LeadsBound(m.dd, r.s, b);
      if r.s < 30 {
        DistanceBase(r.s);
      }
    }
  }

  lemma RepeatProper(m: Machine, b: seq<bool>, s: nat, l: nat)
    requires m.mode == CODELENS && Proper(m) && l <= |b| && |m.lens| < m.nlen + m.ndist
    ensures Keeps(RepeatStep(m, b, s, l), b)
  {
    hide Acceptable, Usable;
  }

  lemma CodeLensProper(m: Machine, b: seq<bool>)
    requires m.mode == CODELENS && Proper(m)
    ensures Keeps(CodeLensStep(m, b), b)
  {
    hide Acceptable, Bitstring, Pow2, RepeatStep;
    if |m.lens| < m.nlen + m.ndist {
      var r := ReadSymbol(m.ll, b);
      if r.Symbol? {
        LeadsBound(m.ll, r.s, b);
        RepeatProper(m, b, r.s, m.ll[r.s]);
      }
    }
  }

  lemma LenLensProper(m: Machine, b: seq<bool>)
    requires m.mode == LENLENS && Proper(m)
    ensures Keeps(LenLensStep(m, b), b)
  {
    hide Acceptable;
    Pow2Values();
  }

  lemma TypeProper(m: Machine, b: seq<bool>)
    requires m.mode == TYPE
    ensures Keeps(TypeStep(m, b), b)
  {
    hide Usable, FixedLengths, FixedDistances;
    FixedLengthsUsable();
    FixedDistancesUsable();
  }

  lemma PlainProper(m: Machine, b: seq<bool>)
    requires m.mode == HEAD || m.mode == STORED || m.mode == COPY || m.mode == TABLE || m.mode == CHECK
    requires Proper(m)
    ensures Keeps(HeadStep(m, b), b) && Keeps(StoredStep(m, b), b) && Keeps(TableStep(m, b), b) && Keeps(CheckStep(m, b), b)
    ensures m.length < 65536 ==> Keeps(CopyStep(m, b), b)
  {
    hide GoodHeader, Shr, Low, Xor, Swap, Check, ValueOf, Pow2, Usable;
    Pow2Values();
  }

  lemma CopyProper(m: Machine, b: seq<bool>)
    requires Codes(m) && Proper(m)
    ensures m.mode == LENEXT ==> Keeps(LenExtStep(m, b), b)
    ensures m.mode == DISTEXT ==> Keeps(DistExtStep(m, b), b)
    ensures m.mode == MATCH ==> Keeps(MatchStep(m), b)
    ensures Keeps(LitStep(m), b)
  {
    hide Usable, ValueOf;
  }

  /** A step takes bits that are there, and leads to a proper state. */
  lemma NextProper(m: Machine, b: seq<bool>)
    requires Proper(m)
    ensures Keeps(Next(m, b), b)
  {
    hide Codes, HeadStep, TypeStep, StoredStep, CopyStep, TableStep, LenLensStep, CodeLensStep, LenStep, LenExtStep, DistStep,
         DistExtStep, MatchStep, LitStep, CheckStep, Pow2;
    match m.mode
    case TYPE => TypeProper(m, b);
    case LENLENS => LenLensProper(m, b);
    case CODELENS => CodeLensProper(m, b);
    case LEN => LenProper(m, b);
    case DIST => DistProper(m, b);
    case LENEXT => CopyProper(m, b);
    case DISTEXT => CopyProper(m, b);
    case MATCH => CopyProper(m, b);
    case LIT => CopyProper(m, b);
    case DICTID =>
    case DICT =>
    case DONE =>
    case BAD =>
    case _ => PlainProper(m, b);
  }

  // ---------------------------------------------------------------- more input does not change a step

  lemma FieldStable(b: seq<bool>, c: seq<bool>, i: nat, n: nat)
    requires i + n <= |b|
    ensures Field((b + c)[i..], n) == Field(b[i..], n)
    ensures Field(b + c, n) == Field(b, n)
  {
    assert (b + c)[i..][..n] == b[i..][..n];
    assert (b + c)[..n] == b[..n];
  }

  ghost predicate Stable(s: Step, t: Step) {
    s.Take? ==> t == s
  }

  lemma SimpleStable(m: Machine, b: seq<bool>, c: seq<bool>)
    requires |c| % 8 == 0
    ensures Stable(HeadStep(m, b), HeadStep(m, b + c))
    ensures Stable(TypeStep(m, b), TypeStep(m, b + c))
    ensures Stable(StoredStep(m, b), StoredStep(m, b + c))
    ensures Stable(CopyStep(m, b), CopyStep(m, b + c))
  {
    hide GoodHeader, Shr, Low, Xor, Field, FixedLengths, FixedDistances;
    assert |b + c| % 8 == |b| % 8;
    if |b| >= 16 { FieldStable(b, c, 0, 16); }
    if |b| >= 3 { FieldStable(b, c, 1, 2); }
    if |b| >= |b| % 8 + 32 { FieldStable(b, c, |b| % 8, 32); }
    if |b| >= 8 { FieldStable(b, c, 0, 8); }
  }

  lemma FieldsStable(m: Machine, b: seq<bool>, c: seq<bool>)
    ensures Stable(TableStep(m, b), TableStep(m, b + c))
    ensures Stable(LenLensStep(m, b), LenLensStep(m, b + c))
    ensures Stable(LenExtStep(m, b), LenExtStep(m, b + c))
    ensures Stable(DistExtStep(m, b), DistExtStep(m, b + c))
    ensures Stable(CheckStep(m, b), CheckStep(m, b + c))
  {
    hide Acceptable, Swap, Check, Field, Permuted;
    if |b| >= 14 {
      FieldStable(b, c, 0, 5);
      FieldStable(b, c, 5, 5);
      FieldStable(b, c, 10, 4);
    }
    if |b| >= 3 { FieldStable(b, c, 0, 3); }
    if |b| >= m.extra { FieldStable(b, c, 0, m.extra); }
    if |b| >= 32 { FieldStable(b, c, 0, 32); }
  }

  lemma RepeatStable(m: Machine, b: seq<bool>, c: seq<bool>, s: nat, l: nat)
    requires l <= |b|
    ensures Stable(RepeatStep(m, b, s, l), RepeatStep(m, b + c, s, l))
  {
    hide Field, Repeated;
    var k := if s == 16 then 2 else if s == 17 then 3 else 7;
    if |b| >= l + k { FieldStable(b, c, l, k); }
  }

  lemma SymbolsStable(m: Machine, b: seq<bool>, c: seq<bool>)
    ensures m.mode == LEN && Codes(m) ==> Stable(LenStep(m, b), LenStep(m, b + c))
    ensures m.mode == DIST && Codes(m) ==> Stable(DistStep(m, b), DistStep(m, b + c))
  {
    hide Acceptable, Lengths, ReadSymbol, LBase, LExt, DBase, DExt, Sound;
    if Codes(m) {
      AcceptableIsSound(LENS, m.ll);
      AcceptableIsSound(DISTS, m.dd);
      if ReadSymbol(m.ll, b) != Short { ReadStable(m.ll, b, c); }
      if ReadSymbol(m.dd, b) != Short { ReadStable(m.dd, b, c); }
    }
  }

  lemma CodeLensStable(m: Machine, b: seq<bool>, c: seq<bool>)
    requires m.mode == CODELENS && Proper(m)
    ensures Stable(CodeLensStep(m, b), CodeLensStep(m, b + c))
  {
    hide Acceptable, Lengths, ReadSymbol, RepeatStep, Sound;
    AcceptableIsSound(CODES, m.ll);
    if ReadSymbol(m.ll, b) != Short {
      ReadStable(m.ll, b, c);
      if ReadSymbol(m.ll, b).Symbol? {
        LeadsBound(m.ll, ReadSymbol(m.ll, b).s, b);
        RepeatStable(m, b, c, ReadSymbol(m.ll, b).s, m.ll[ReadSymbol(m.ll, b).s]);
      }
    }
  }

  lemma NextStable(m: Machine, b: seq<bool>, c: seq<bool>)
    requires Proper(m) && |c| % 8 == 0
    ensures Stable(Next(m, b), Next(m, b + c))
  {
    hide Codes, HeadStep, TypeStep, StoredStep, CopyStep, TableStep, LenLensStep, CodeLensStep, LenStep, LenExtStep, DistStep,
         DistExtStep, MatchStep, LitStep, CheckStep;
    match m.mode
    case CODELENS => CodeLensStable(m, b, c);
    case _ =>
      SimpleStable(m, b, c);
      FieldsStable(m, b, c);
      SymbolsStable(m, b, c);
  }

  // ---------------------------------------------------------------- runs

  /** Orders the states so that steps that take no input go down. */
  function Rank(mode: Mode): nat {
    match mode
    case HEAD => 4
    case LENLENS => 4
    case CODELENS => 3
    case COPY => 3
    case TYPE => 2
    case DISTEXT => 2
    case CHECK => 1
    case MATCH => 1
    case LIT => 1
    case LENEXT => 1
    case _ => 0
  }

  lemma NextDescends(m: Machine, b: seq<bool>)
    requires Proper(m) && Next(m, b).Take? && Next(m, b).n == 0
    ensures var n := Next(m, b).next; Rank(n.mode) < Rank(m.mode) || (n.mode == m.mode && n.length < m.length)
  {
    hide Codes, GoodHeader, Acceptable, Permuted, Check, Swap;
    if m.mode == LEN || m.mode == DIST || m.mode == CODELENS {
      SymbolsTakeBits(m, b);
    }
  }

  lemma SymbolsTakeBits(m: Machine, b: seq<bool>)
    requires Proper(m) && Next(m, b).Take?
    ensures m.mode == LEN || m.mode == DIST ==> Next(m, b).n > 0
    ensures m.mode == CODELENS && Next(m, b).n == 0 ==> |m.lens| == m.nlen + m.ndist
  {
    hide Codes, Acceptable, Bitstring, Usable, LBase, LExt, DBase, DExt;
  }

  /** The state in which the machine is left by the stream b. */
  ghost function Run(m: Machine, b: seq<bool>): (r: Machine)
    requires Proper(m)
    ensures Proper(r)
    decreases |b|, Rank(m.mode), m.length
  {
    NextProper(m, b);
    match Next(m, b)
    case Wait => m
    case Take(n, next) =>
      if n == 0 then NextDescends(m, b); Run(next, b) else Run(next, b[n..])
  }

  /** The part of the stream that it has not taken. */
  ghost function Rest(m: Machine, b: seq<bool>): seq<bool>
    requires Proper(m)
    decreases |b|, Rank(m.mode), m.length
  {
    NextProper(m, b);
    match Next(m, b)
    case Wait => b
    case Take(n, next) =>
      if n == 0 then NextDescends(m, b); Rest(next, b) else Rest(next, b[n..])
  }

  lemma RunStep(m: Machine, b: seq<bool>)
    requires Proper(m) && Next(m, b).Take?
    ensures Next(m, b).n <= |b| && Proper(Next(m, b).next)
    ensures Run(m, b) == Run(Next(m, b).next, b[Next(m, b).n..])
    ensures Rest(m, b) == Rest(Next(m, b).next, b[Next(m, b).n..])
  {
    hide Next, Proper;
    NextProper(m, b);
    assert b[0..] == b;
  }

  /** Feeding a stream in two parts is feeding it whole. */
  lemma {:induction false} RunInParts(m: Machine, b: seq<bool>, c: seq<bool>)
    requires Proper(m) && |c| % 8 == 0
    ensures Run(m, b + c) == Run(Run(m, b), Rest(m, b) + c)
    ensures Rest(m, b + c) == Rest(Run(m, b), Rest(m, b) + c)
    decreases |b|, Rank(m.mode), m.length
  {
    hide Next, Proper;
    if Next(m, b).Take? {
      NextProper(m, b);
      NextStable(m, b, c);
      RunStep(m, b);
      RunStep(m, b + c);
      var n := Next(m, b).n;
      assert (b + c)[n..] == b[n..] + c;
      if n == 0 {
        NextDescends(m, b);
        assert b[0..] == b;
      }
      RunInParts(Next(m, b).next, b[n..], c);
    } else {
      RunWaits(m, b);
    }
  }

  lemma RunWaits(m: Machine, b: seq<bool>)
    requires Proper(m) && Next(m, b).Wait?
    ensures Run(m, b) == m && Rest(m, b) == b
  {
    hide Next, Proper;
  }

  /** The step of each state. */
  lemma NextIs(m: Machine, b: seq<bool>)
    requires Proper(m)
    ensures m.mode == HEAD ==> Next(m, b) == HeadStep(m, b)
    ensures m.mode == TYPE ==> Next(m, b) == TypeStep(m, b)
    ensures m.mode == STORED ==> Next(m, b) == StoredStep(m, b)
    ensures m.mode == COPY ==> Next(m, b) == CopyStep(m, b)
    ensures m.mode == TABLE ==> Next(m, b) == TableStep(m, b)
    ensures m.mode == LENLENS ==> Next(m, b) == LenLensStep(m, b)
    ensures m.mode == CODELENS ==> Next(m, b) == CodeLensStep(m, b)
    ensures m.mode == LEN ==> Next(m, b) == LenStep(m, b)
    ensures m.mode == LENEXT ==> Next(m, b) == LenExtStep(m, b)
    ensures m.mode == DIST ==> Next(m, b) == DistStep(m, b)
    ensures m.mode == DISTEXT ==> Next(m, b) == DistExtStep(m, b)
    ensures m.mode == MATCH ==> Next(m, b) == MatchStep(m)
    ensures m.mode == LIT ==> Next(m, b) == LitStep(m)
    ensures m.mode == CHECK ==> Next(m, b) == CheckStep(m, b)
  {
    hide Proper, HeadStep, TypeStep, StoredStep, CopyStep, TableStep, LenLensStep, CodeLensStep, LenStep, LenExtStep, DistStep,
         DistExtStep, MatchStep, LitStep, CheckStep;
  }
}
