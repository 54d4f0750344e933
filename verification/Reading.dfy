/** Reading one symbol of a prefix code off the front of a bit stream, and how the decoding tables of inflate_table do it. */
module Reading {
  import opened Bits
  import opened PairTree
  import opened LengthLimit
  import opened CodeLengths
  import opened Canonical
  import opened Reversal
  import opened Streams
  import opened DecodeTables
  import opened InfTrees

  /** Lengths that do not over-subscribe. */
  ghost predicate Sound(lens: seq<nat>) {
    Lengths(lens) && KraftSum(lens) <= Pow2(15)
  }

  /** The code of symbol s, first bit first. */
  ghost function Bitstring(lens: seq<nat>, s: nat): (r: seq<bool>)
    requires s < |lens| && lens[s] <= 15
    ensures |r| == lens[s]
  {
    CodeBits(lens, Counts(lens), s)
  }

  /** The stream b begins with the code of symbol s. */
  ghost predicate Leads(lens: seq<nat>, s: nat, b: seq<bool>) {
    s < |lens| && 0 < lens[s] <= 15 && Bitstring(lens, s) <= b
  }

  /** The stream b is too short to tell, but may begin with the code of s. */
  ghost predicate MayLead(lens: seq<nat>, s: nat, b: seq<bool>) {
    s < |lens| && 0 < lens[s] <= 15 && b <= Bitstring(lens, s)
  }

  datatype Read = Short | Symbol(s: nat) | NoSymbol

  /** What the front of a stream says: a symbol, none whatever follows, or too little. */
  ghost function ReadSymbol(lens: seq<nat>, b: seq<bool>): (r: Read)
    ensures r.Symbol? ==> Leads(lens, r.s, b)
  {
    if exists s: nat :: Leads(lens, s, b) then
      var s: nat :| Leads(lens, s, b);
      Symbol(s)
    else if |b| > 0 && forall s: nat :: !MayLead(lens, s, b) then NoSymbol
    else Short
  }

  lemma AcceptableIsSound(kind: CodeType, lens: seq<nat>)
    requires Lengths(lens) && Acceptable(kind, lens)
    ensures Sound(lens)
  {
    hide Sum;
    if forall s | 0 <= s < |lens| :: lens[s] == 0 {
      SumZero(Shares(lens, 15, 15));
    }
  }

  lemma SoundIsCodable(lens: seq<nat>)
    requires Sound(lens)
    ensures Codable(lens, Counts(lens), 15)
  {
    hide KraftSum, Count, KraftUpTo;
    KraftSumIs(lens, Counts(lens));
  }

  /** At most one code leads. */
  lemma LeadsOnce(lens: seq<nat>, s: nat, t: nat, b: seq<bool>)
    requires Sound(lens) && Leads(lens, s, b) && Leads(lens, t, b)
    ensures s == t
  {
    hide Codable, CodeBits, Counts, Sound;
    SoundIsCodable(lens);
    SoundLengths(lens);
    SamePrefix(Bitstring(lens, s), Bitstring(lens, t), b);
    if s != t {
      CanonicalIsPrefixFree(lens, Counts(lens), 15, s, t);
      CanonicalIsPrefixFree(lens, Counts(lens), 15, t, s);
    }
  }

  lemma SamePrefix(c: seq<bool>, d: seq<bool>, b: seq<bool>)
    requires c <= b && d <= b
    ensures c <= d || d <= c
  {
    if |c| <= |d| {
      assert c == b[..|c|] == d[..|c|];
    } else {
      assert d == b[..|d|] == c[..|d|];
    }
  }

  lemma SoundLengths(lens: seq<nat>)
    requires Sound(lens)
    ensures Lengths(lens)
  {
  }

  lemma ReadIs(lens: seq<nat>, s: nat, b: seq<bool>)
    requires Sound(lens) && Leads(lens, s, b)
    ensures ReadSymbol(lens, b) == Symbol(s)
  {
    hide Sound, Bitstring;
    LeadsOnce(lens, s, ReadSymbol(lens, b).s, b);
  }

  /** More input does not change what has been read. */
  lemma ReadStable(lens: seq<nat>, b: seq<bool>, c: seq<bool>)
    requires Sound(lens) && ReadSymbol(lens, b) != Short
    ensures ReadSymbol(lens, b + c) == ReadSymbol(lens, b)
  {
    hide Sound, Bitstring;
    if ReadSymbol(lens, b).Symbol? {
      ReadIs(lens, ReadSymbol(lens, b).s, b + c);
    } else {
      forall s: nat ensures !Leads(lens, s, b + c) && !MayLead(lens, s, b + c) {
        assert !Leads(lens, s, b) && !MayLead(lens, s, b);
        if Leads(lens, s, b + c) || MayLead(lens, s, b + c) {
          PrefixOfSum(lens, s, b, c);
        }
      }
    }
  }

  lemma PrefixOfSum(lens: seq<nat>, s: nat, b: seq<bool>, c: seq<bool>)
    requires Leads(lens, s, b + c) || MayLead(lens, s, b + c)
    ensures Leads(lens, s, b) || MayLead(lens, s, b)
  {
    hide Bitstring;
    var d := Bitstring(lens, s);
    assert (b + c)[..|b|] == b;
    if d <= b + c && |d| <= |b| {
      assert d == (b + c)[..|d|] == b[..|d|];
    }
  }

  // ---------------------------------------------------------------- the table reads symbols

  /** A code leads exactly when the low bits of the accumulator are its reversal, and all of them are there. */
  lemma BeginsIsLeads(lens: seq<nat>, s: nat, b: seq<bool>)
    requires s < |lens| && 0 < lens[s] <= 15
    ensures Leads(lens, s, b) <==> Begins(lens, s, ValueOf(b)) && lens[s] <= |b|
    ensures MayLead(lens, s, b) && lens[s] <= |b| ==> Leads(lens, s, b)
    ensures Begins(lens, s, ValueOf(b)) && lens[s] > |b| ==> MayLead(lens, s, b)
  {
    hide Code, Counts, Reversed, LsbBits, MsbBits, Low, ValueOf, Pow2;
    var l, c, x := lens[s], Code(lens, Counts(lens), s), ValueOf(b);
    CodeOfBits(c, l, x);
    LsbOfValue(b);
    if l <= |b| {
      LsbSplit(x, l, |b| - l);
      assert b[..l] == LsbBits(x, l);
    } else {
      LsbSplit(x, |b|, l - |b|);
    }
  }

  /** Holding a reversed code in the low bits is starting with the code. */
  lemma CodeOfBits(c: nat, l: nat, x: nat)
    ensures Low(x, l) == Reversed(c, l) <==> LsbBits(x, l) == MsbBits(c, l)
  {
    hide Reversed, LsbBits, MsbBits, Low, Pow2, ValueOf;
    ReversedBits(c, l);
    ReversedBound(c, l);
    LsbOfLow(x, l);
    ValueOfLsb(x, l);
    ValueOfLsb(Reversed(c, l), l);
    LowSmall(Reversed(c, l), l);
  }

  /** What a decoding table finds for the bits in the accumulator, when the entry is covered by them, is what the stream
      says; and when it is not covered, the stream is too short. */
  lemma TableReads(t: seq<Entry>, start: nat, root: nat, kind: CodeType, lens: seq<nat>, b: seq<bool>)
    requires |lens| <= Symbols(kind) && Lengths(lens) && Acceptable(kind, lens) && TableFor(t, start, root, kind, lens)
    ensures InRange(t, start, root, ValueOf(b))
    ensures var e := Decode(t, start, root, ValueOf(b));
      && e.bits >= 1
      && (e.bits > |b| <==> ReadSymbol(lens, b) == Short)
      && (ReadSymbol(lens, b) == NoSymbol ==> e == INVALID)
      && (ReadSymbol(lens, b).Symbol? ==>
           ReadSymbol(lens, b).s < |lens| && e == EntryFor(kind, ReadSymbol(lens, b).s, lens[ReadSymbol(lens, b).s]))
  {
    hide Acceptable, Leads, MayLead, Begins, Decode, InRange, EntryFor, Bitstring, KraftSum, Pow2;
    AcceptableIsSound(kind, lens);
    var x := ValueOf(b);
    assert Answers(t, start, root, kind, lens, x);
    if s: nat :| Begins(lens, s, x) {
      BeginsBound(lens, s, x);
      BeginsIsLeads(lens, s, b);
      if lens[s] <= |b| {
        ReadIs(lens, s, b);
      } else {
        NoneLeads(lens, s, b);
      }
    } else {
      NothingBegins(kind, lens, b);
    }
  }

  lemma BeginsBound(lens: seq<nat>, s: nat, x: nat)
    requires Begins(lens, s, x)
    ensures s < |lens| && 0 < lens[s] <= 15
  {
  }

  lemma LeadsBound(lens: seq<nat>, s: nat, b: seq<bool>)
    requires Leads(lens, s, b) || MayLead(lens, s, b)
    ensures s < |lens| && 0 < lens[s] <= 15
    ensures Leads(lens, s, b) ==> lens[s] <= |b|
  {
  }

  /** While the only code that the input can begin with is incomplete, nothing can be read. */
  lemma NoneLeads(lens: seq<nat>, s: nat, b: seq<bool>)
    requires Sound(lens) && s < |lens| && 0 < lens[s] <= 15 && Begins(lens, s, ValueOf(b)) && lens[s] > |b|
    ensures ReadSymbol(lens, b) == Short
  {
    hide Sound, Bitstring, Begins, Leads, MayLead;
    BeginsIsLeads(lens, s, b);
    forall t: nat ensures !Leads(lens, t, b) {
      MayNotLead(lens, s, t, b);
    }
  }

  lemma MayNotLead(lens: seq<nat>, s: nat, t: nat, b: seq<bool>)
    requires Sound(lens) && MayLead(lens, s, b) && lens[s] > |b|
    ensures !Leads(lens, t, b)
  {
    hide Sound, Bitstring;
    var d := Bitstring(lens, s);
    if Leads(lens, t, b) {
      assert b == d[..|b|];
      LeadsOnce(lens, s, t, d);
    }
  }

  lemma NothingBegins(kind: CodeType, lens: seq<nat>, b: seq<bool>)
    requires Lengths(lens) && Acceptable(kind, lens) && forall s: nat :: !Begins(lens, s, ValueOf(b))
    requires KraftSum(lens) == Pow2(15) ==> forall x: nat :: Known(lens, x)
    ensures ReadSymbol(lens, b) == if |b| == 0 then Short else NoSymbol
  {
    hide Bitstring, Begins, Leads, MayLead, KraftSum, Pow2;
    forall s: nat ensures !Leads(lens, s, b) && (|b| > 0 ==> !MayLead(lens, s, b)) {
      if Leads(lens, s, b) || MayLead(lens, s, b) {
        LeadsBound(lens, s, b);
        BeginsIsLeads(lens, s, b);
        OneBitOnly(kind, lens, ValueOf(b), s);
      }
    }
  }

  lemma OneBitOnly(kind: CodeType, lens: seq<nat>, x: nat, s: nat)
    requires Lengths(lens) && Acceptable(kind, lens) && forall s: nat :: !Begins(lens, s, x)
    requires KraftSum(lens) == Pow2(15) ==> forall x: nat :: Known(lens, x)
    requires s < |lens| && lens[s] > 0
    ensures lens[s] == 1
  {
    hide Begins, KraftSum, Pow2;
    assert Known(lens, x) ==> exists s: nat :: Begins(lens, s, x);
  }

  // ---------------------------------------------------------------- reading looks at no more than the code

  /** A symbol is read as soon as its code is there. */
  lemma ReadLocal(lens: seq<nat>, b: seq<bool>, c: seq<bool>)
    requires Sound(lens) && b <= c && ReadSymbol(lens, c).Symbol?
    ensures var s := ReadSymbol(lens, c).s; s < |lens| && (lens[s] <= |b| ==> ReadSymbol(lens, b) == Symbol(s))
  {
    hide Sound, Bitstring;
    var s := ReadSymbol(lens, c).s;
    var d := Bitstring(lens, s);
    if |d| <= |b| {
      assert d == c[..|d|] == b[..|d|];
      ReadIs(lens, s, b);
    }
  }

  /** That there is no symbol shows in the first bit. */
  lemma NoSymbolLocal(kind: CodeType, lens: seq<nat>, b: seq<bool>, c: seq<bool>)
    requires Lengths(lens) && Acceptable(kind, lens) && b <= c && |b| > 0 && ReadSymbol(lens, c) == NoSymbol
    requires KraftSum(lens) == Pow2(15) ==> forall x: nat :: Known(lens, x)
    ensures ReadSymbol(lens, b) == NoSymbol
  {
    hide Bitstring, Begins, KraftSum, Pow2, Leads, MayLead, Acceptable, Lengths;
    NoSymbolBegins(lens, c);
    forall s: nat ensures !Leads(lens, s, b) && !MayLead(lens, s, b) {
      if Leads(lens, s, b) || MayLead(lens, s, b) {
        LeadsBound(lens, s, b);
        OneBitOnly(kind, lens, ValueOf(c), s);
        LongerLeads(lens, s, b, c);
      }
    }
  }

  lemma NoSymbolBegins(lens: seq<nat>, c: seq<bool>)
    requires ReadSymbol(lens, c) == NoSymbol
    ensures forall s: nat :: !Begins(lens, s, ValueOf(c))
  {
    hide Bitstring, Begins, Leads, MayLead;
    forall s: nat ensures !Begins(lens, s, ValueOf(c)) {
      if Begins(lens, s, ValueOf(c)) {
        BeginsBound(lens, s, ValueOf(c));
        BeginsIsLeads(lens, s, c);
      }
    }
  }

  lemma LongerLeads(lens: seq<nat>, s: nat, b: seq<bool>, c: seq<bool>)
    requires b <= c && |b| > 0 && s < |lens| && lens[s] == 1 && (Leads(lens, s, b) || MayLead(lens, s, b))
    ensures Leads(lens, s, c)
  {
    hide Bitstring;
    var d := Bitstring(lens, s);
    assert d == b[..1] == c[..1];
  }
}
