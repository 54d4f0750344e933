/** The fixed codes as section 3.2.6 of RFC 1951 lists them, in numbers: that the canonical codes for the fixed lengths are those,
    and that a block of type 1 is read with them. */
module FixedCodes {
  import opened Bits
  import opened CodeLengths
  import opened Canonical
  import opened Streams
  import opened DecodeTables
  import opened InfTrees
  import opened Reading
  import opened Inflation
  import opened Blocks

  /** The bits of a literal or length symbol, in the order in which they come. */
  function FixedText(s: nat): (t: seq<bool>)
    requires s < 288
    ensures 7 <= |t| <= 9
  {
    if s < 144 then MsbBits(48 + s, 8)
    else if s < 256 then MsbBits(400 + (s - 144), 9)
    else if s < 280 then MsbBits(s - 256, 7)
    else MsbBits(192 + (s - 280), 8)
  }

  /** How many of the symbols below n have codes of 7, 8 and 9 bits. */
  lemma {:induction false} FixedCounts(n: nat)
    requires n <= 288
    ensures var l := FixedLengths()[..n];
      && Count(l, 7) == (if n <= 256 then 0 else if n <= 280 then n - 256 else 24)
      && Count(l, 8) == (if n <= 144 then n else if n <= 280 then 144 else n - 136)
      && Count(l, 9) == (if n <= 144 then 0 else if n <= 256 then n - 144 else 112)
  {
    hide Count;
    var l := FixedLengths();
    if n == 0 {
      CountNone(l[..0], 7);
      CountNone(l[..0], 8);
      CountNone(l[..0], 9);
    } else {
      FixedCounts(n - 1);
      assert l[..n] == l[..n - 1] + [l[n - 1]];
      CountAppend(l[..n - 1], l[n - 1], 7);
      CountAppend(l[..n - 1], l[n - 1], 8);
      CountAppend(l[..n - 1], l[n - 1], 9);
    }
  }

  lemma {:induction false} NoneShorter(bl: seq<nat>, b: nat)
    requires b <= |bl| && forall i | 0 <= i < b :: bl[i] == 0
    ensures First(bl, b) == 0
  {
    if b > 0 {
      NoneShorter(bl, b - 1);
    }
  }

  /** The first codes of 7, 8 and 9 bits. */
  lemma FixedFirsts()
    ensures var bl := Counts(FixedLengths()); First(bl, 7) == 0 && First(bl, 8) == 48 && First(bl, 9) == 400
  {
    hide Count;
    var l := FixedLengths();
    var bl := Counts(l);
    FixedCounts(288);
    assert l[..288] == l;
    forall b | 0 <= b < 7 ensures bl[b] == 0 {
      CountNone(l, b);
    }
    NoneShorter(bl, 7);
  }

  lemma FixedCodeIs(s: nat)
    requires s < 288
    ensures var l := FixedLengths(); var c := Code(l, Counts(l), s);
      && (s < 144 ==> l[s] == 8 && c == 48 + s)
      && (144 <= s < 256 ==> l[s] == 9 && c == 400 + (s - 144))
      && (256 <= s < 280 ==> l[s] == 7 && c == s - 256)
      && (280 <= s ==> l[s] == 8 && c == 192 + (s - 280))
  {
    hide Count, First;
    FixedFirsts();
    FixedCounts(s);
  }

  lemma FixedTextIs(s: nat)
    requires s < 288
    ensures FixedLengths()[s] == |FixedText(s)| && Bitstring(FixedLengths(), s) == FixedText(s)
  {
    hide Code, Counts, MsbBits;
    FixedCodeIs(s);
  }

  lemma FixedDistanceIs(d: nat)
    requires d < 32
    ensures FixedDistances()[d] == 5 && Code(FixedDistances(), Counts(FixedDistances()), d) == d
  {
    hide Count, First;
    FivesOnly(d);
    var bl := Counts(FixedDistances());
    forall b | 0 <= b < 5 ensures bl[b] == 0 {
      CountNone(FixedDistances(), b);
    }
    NoneShorter(bl, 5);
  }

  lemma {:induction false} FivesOnly(n: nat)
    requires n <= 32
    ensures Count(FixedDistances()[..n], 5) == n
  {
    hide Count;
    if n == 0 {
      CountNone(FixedDistances()[..0], 5);
    } else {
      FivesOnly(n - 1);
      assert FixedDistances()[..n] == FixedDistances()[..n - 1] + [5];
      CountAppend(FixedDistances()[..n - 1], 5, 5);
    }
  }

  // ---------------------------------------------------------------- reading them

  /** The machine at the beginning of a block of type 1, and at its symbols. */
  lemma FixedBegins(m: Machine, eof: bool, rest: seq<bool>) returns (n: Machine)
    requires Proper(m) && m.mode == TYPE && !m.last
    ensures n == m.(mode := LEN, last := eof, ll := n.ll, dd := n.dd) && Proper(n) && n.ll == FixedLengths() && n.dd == FixedDistances()
    ensures Next(m, [eof, true, false] + rest) == Take(3, n)
  {
    hide Proper, FixedLengths, FixedDistances;
    var b := [eof, true, false] + rest;
    NextIs(m, b);
    NextProper(m, b);
    assert b[1..][..2] == [true, false];
    TypeOne();
    n := m.(last := eof, mode := LEN, ll := FixedLengths(), dd := FixedDistances());
  }

  lemma TypeOne()
    ensures ValueOf([true, false]) == 1
  {
    assert [true, false][1..] == [false] && [false][1..] == [];
  }

  lemma FixedReads(s: nat, rest: seq<bool>)
    requires s < 288
    ensures ReadSymbol(FixedLengths(), FixedText(s) + rest) == Symbol(s)
  {
    hide ReadSymbol, FixedText, FixedLengths, Usable, Bitstring;
    FixedTextIs(s);
    FixedLengthsUsable();
    ReadsSymbol(LENS, FixedLengths(), s, rest);
  }

  lemma FixedNext(n: Machine, s: nat, rest: seq<bool>)
    requires Proper(n) && n.mode == LEN && n.ll == FixedLengths() && s < 288
    ensures Next(n, FixedText(s) + rest) ==
         Take(|FixedText(s)|, if s < 256 then n.(mode := LIT, length := s)
                              else if s == 256 then n.(mode := TYPE)
                              else if s < 286 then n.(mode := LENEXT, length := LBase(s), extra := LExt(s) - 16)
                              else n.(mode := BAD))
  {
    hide Proper, Next, ReadSymbol, FixedText, FixedLengths, LBase, LExt;
    FixedTextIs(s);
    FixedReads(s, rest);
    NextIs(n, FixedText(s) + rest);
  }

  /** Behind the three bits of a block of type 1 a symbol with the bits of section 3.2.6 is read as a literal byte, the end of the
      block or a length, and what cannot be a length is refused. */
  lemma FixedSymbol(m: Machine, eof: bool, s: nat, rest: seq<bool>)
    requires Proper(m) && m.mode == TYPE && !m.last && s < 288
    ensures var a := Next(m, [eof, true, false] + (FixedText(s) + rest));
      && a.Take? && a.n == 3 && a.next.mode == LEN && a.next.last == eof && a.next.history == m.history && Proper(a.next)
      && Next(a.next, FixedText(s) + rest) ==
         Take(|FixedText(s)|, if s < 256 then a.next.(mode := LIT, length := s)
                              else if s == 256 then a.next.(mode := TYPE)
                              else if s < 286 then a.next.(mode := LENEXT, length := LBase(s), extra := LExt(s) - 16)
                              else a.next.(mode := BAD))
  {
    hide Proper, Next, ReadSymbol, FixedText, FixedLengths, FixedDistances, LBase, LExt;
    var n := FixedBegins(m, eof, FixedText(s) + rest);
    FixedNext(n, s, rest);
  }

  /** In the same block a distance symbol is five bits, first bit highest. */
  lemma FixedDistance(m: Machine, eof: bool, k: Machine, d: nat, rest: seq<bool>)
    requires Proper(m) && m.mode == TYPE && !m.last && d < 32
    requires Next(m, [eof, true, false]).Take? && k.dd == Next(m, [eof, true, false]).next.dd && k.mode == DIST && Proper(k)
    ensures Next(k, MsbBits(d, 5) + rest) ==
      Take(5, if d < 30 then k.(mode := DISTEXT, offset := DBase(d), extra := DExt(d) - 16) else k.(mode := BAD))
  {
    hide Proper, Next, ReadSymbol, FixedLengths, FixedDistances, DBase, DExt, Usable, Code, Counts;
    var n := FixedBegins(m, eof, []);
    assert [eof, true, false] + [] == [eof, true, false];
    FixedDistanceIs(d);
    FixedDistancesUsable();
    ReadsSymbol(DISTS, FixedDistances(), d, rest);
    NextIs(k, MsbBits(d, 5) + rest);
  }

  /** The decoding table of the fixed codes finds, whatever bits follow, the symbol that the input begins with. */
  lemma FixedTable(t: seq<Entry>, start: nat, root: nat, s: nat, x: nat)
    requires TableFor(t, start, root, LENS, FixedLengths()) && s < 288
    requires LsbBits(x, |FixedText(s)|) == FixedText(s)
    ensures InRange(t, start, root, x) && Decode(t, start, root, x) == EntryFor(LENS, s, |FixedText(s)|)
  {
    hide Code, Counts, Reversed, Decode, InRange, FixedText, FixedLengths, EntryFor, Low, KraftSum, Bitstring, LsbBits;
    FixedTextIs(s);
    assert Answers(t, start, root, LENS, FixedLengths(), x);
    BeginsBits(FixedLengths(), s, x);
  }

  lemma BeginsBits(lens: seq<nat>, s: nat, x: nat)
    requires s < |lens| && 0 < lens[s] <= 15 && LsbBits(x, lens[s]) == Bitstring(lens, s)
    ensures Begins(lens, s, x)
  {
    hide Code, Counts, Reversed, LsbBits, MsbBits, Low;
    var l, c := lens[s], Code(lens, Counts(lens), s);
    ReversedBits(c, l);
    ReversedBound(c, l);
    ValueOfLsb(x, l);
    ValueOfLsb(Reversed(c, l), l);
    LowSmall(Reversed(c, l), l);
  }

  lemma FixedDistanceTable(t: seq<Entry>, start: nat, root: nat, d: nat, x: nat)
    requires TableFor(t, start, root, DISTS, FixedDistances()) && d < 32
    requires LsbBits(x, 5) == MsbBits(d, 5)
    ensures InRange(t, start, root, x) && Decode(t, start, root, x) == EntryFor(DISTS, d, 5)
  {
    hide Code, Counts, Reversed, Decode, InRange, FixedDistances, EntryFor, Low, KraftSum, LsbBits, MsbBits;
    FixedDistanceIs(d);
    assert Answers(t, start, root, DISTS, FixedDistances(), x);
    BeginsBits(FixedDistances(), d, x);
  }

  /** Two tables that find the fixed codes: whatever the input goes on with, the symbol that it begins with. */
  ghost predicate FindsFixed(t: seq<Entry>, root: nat, dist: nat, distRoot: nat) {
    && (forall s: nat, x: nat {:trigger LsbBits(x, |FixedText(s)|)} | s < 288 && LsbBits(x, |FixedText(s)|) == FixedText(s) ::
          InRange(t, 0, root, x) && Decode(t, 0, root, x) == EntryFor(LENS, s, |FixedText(s)|))
    && (forall d: nat, x: nat {:trigger LsbBits(x, 5), MsbBits(d, 5)} | d < 32 && LsbBits(x, 5) == MsbBits(d, 5) ::
          InRange(t, dist, distRoot, x) && Decode(t, dist, distRoot, x) == EntryFor(DISTS, d, 5))
  }

  lemma FixedIsFound(t: seq<Entry>, root: nat, dist: nat, distRoot: nat)
    requires TableFor(t, 0, root, LENS, FixedLengths()) && TableFor(t, dist, distRoot, DISTS, FixedDistances())
    ensures FindsFixed(t, root, dist, distRoot)
  {
    hide TableFor, FixedText, FixedLengths, FixedDistances, InRange, Decode, EntryFor, LsbBits, MsbBits;
    forall s: nat, x: nat {:trigger LsbBits(x, |FixedText(s)|)} | s < 288 && LsbBits(x, |FixedText(s)|) == FixedText(s)
      ensures InRange(t, 0, root, x) && Decode(t, 0, root, x) == EntryFor(LENS, s, |FixedText(s)|)
    {
      FixedTable(t, 0, root, s, x);
    }
    forall d: nat, x: nat {:trigger LsbBits(x, 5), MsbBits(d, 5)} | d < 32 && LsbBits(x, 5) == MsbBits(d, 5)
      ensures InRange(t, dist, distRoot, x) && Decode(t, dist, distRoot, x) == EntryFor(DISTS, d, 5)
    {
      FixedDistanceTable(t, dist, distRoot, d, x);
    }
  }
}
