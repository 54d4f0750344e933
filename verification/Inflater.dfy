/** The inflate state of src/ext/zlib/inflate.c as an object, and calls of inflate() with whatever input and output space. */
module Inflater {
  import opened Bits
  import opened Canonical
  import opened Reversal
  import opened Streams
  import opened DecodeTables
  import opened InfTrees
  import opened Reading
  import opened Inflation
  import opened Simulation
  import opened Window
  import opened Checking
  import opened Inflate
  import opened InfFast
  import opened Wrapper
  import opened FixedCodes
  import Adler32

  lemma FixedRoom()
    ensures Usable(LENS, FixedLengths()) && Usable(DISTS, FixedDistances())
    ensures Room(9, FixedLengths()) == 512 && Room(5, FixedDistances()) == 32
  {
    FixedLengthsUsable();
    FixedDistancesUsable();
    Pow2Values();
  }

  /** fixedtables: the decoding tables of the fixed codes. */
  method MakeFixed(work: array<nat>) returns (fixed: array<Entry>, lenBits: nat, dist: nat, distBits: nat)
    requires work.Length >= 288
    modifies work
    ensures fresh(fixed) && TableFor(fixed[..], 0, lenBits, LENS, FixedLengths())
    ensures TableFor(fixed[..], dist, distBits, DISTS, FixedDistances())
    ensures FindsFixed(fixed[..], lenBits, dist, distBits)
  {
    hide FindsFixed, TableFor, FixedLengths, FixedDistances, Room, Acceptable, Lengths, AtMost;
    FixedRoom();
    fixed := new Entry[544];
    var ret;
    ret, dist, lenBits := InflateTable(LENS, FixedLengths(), fixed, 0, 9, work);
    ghost var t := fixed[..dist];
    var next;
    ret, next, distBits := InflateTable(DISTS, FixedDistances(), fixed, dist, 5, work);
    assert t == fixed[..][..dist] && fixed[..next] == fixed[..][..next];
    TableStays(t, fixed[..], 0, lenBits, LENS, FixedLengths());
    TableStays(fixed[..next], fixed[..], dist, distBits, DISTS, FixedDistances());
    FixedIsFound(fixed[..], lenBits, dist, distBits);
  }

  lemma StartIsProper(wrap: bool)
    ensures Proper(Start(wrap)) && Check([]) == 1 && Holds(0, 0)
  {
  }

  /** Why a call returns. */
  datatype Status = OK | StreamEnd | NeedDict | DataError | BufError

  class State {
    var mode: Mode
    var last: bool
    const wrap: bool
    var check: Adler32.word
    var hold: nat
    var bits: nat
    var length: nat
    var offset: nat
    var extra: nat
    var have: nat
    var nlen: nat
    var ndist: nat
    var ncode: nat
    const lens: array<nat>
    const work: array<nat>
    const codes: array<Entry>
    const fixed: array<Entry>
    const fixedLenBits: nat
    const fixedDist: nat
    const fixedDistBits: nat
    var lencode: array<Entry>
    var lenbits: nat
    var distcode: array<Entry>
    var distStart: nat
    var distbits: nat
    const window: CircularWindow
    /** The machine this state stands for, and the input of all calls. */
    ghost var machine: Machine
    ghost var consumed: seq<byte>

    // -------------------------------------------------------------- what holds

    ghost predicate Arrays() {
      && lens != work && lens.Length >= 320 && work.Length >= 288 && codes != fixed && codes.Length >= ENOUGH
      && window.wbits == 15
    }

    /** The tables of the fixed codes. */
    ghost predicate FixedTables()
      reads fixed
    {
      && TableFor(fixed[..], 0, fixedLenBits, LENS, FixedLengths())
      && TableFor(fixed[..], fixedDist, fixedDistBits, DISTS, FixedDistances())
    }

    /** The tables in use decode these codes. */
    ghost predicate Decodes(ll: seq<nat>, dd: seq<nat>)
      reads this`lencode, this`lenbits, this`distcode, this`distStart, this`distbits, lencode, distcode
    {
      && (lencode == codes || lencode == fixed) && (distcode == codes || distcode == fixed)
      && |ll| <= Symbols(LENS) && |dd| <= Symbols(DISTS) && TableFor(lencode[..], 0, lenbits, LENS, ll)
      && TableFor(distcode[..], distStart, distbits, DISTS, dd)
    }

    /** The table in use decodes the code length code. */
    ghost predicate DecodesLengths(cl: seq<nat>)
      reads this`lencode, this`lenbits, lencode
    {
      lencode == codes && |cl| <= 19 && TableFor(lencode[..], 0, lenbits, CODES, cl) && AtMost(cl, lenbits)
    }

    ghost predicate InPlace(read: seq<nat>)
      reads lens
    {
      Permuting(lens[..], read)
    }

    ghost predicate InFront(read: seq<nat>)
      reads lens
    {
      AtFront(lens[..], read)
    }

    /** The state stands for m, given the bits in the accumulator. */
    ghost predicate Ready(m: Machine, bits: nat)
      reads this`mode, this`last, this`length, this`offset, this`extra, this`have, this`nlen, this`ndist, this`ncode
      reads this`lencode, this`lenbits, this`distcode, this`distStart, this`distbits, lens, lencode, distcode
    {
      && mode == m.mode && last == m.last && Matched(m, bits, have, nlen, ndist, ncode, length, offset, extra)
      && (m.mode == LENLENS ==> InPlace(m.lens))
      && (m.mode == CODELENS ==> InFront(m.lens) && DecodesLengths(m.ll))
      && (Coding(m.mode) ==> Decodes(m.ll, m.dd))
    }

    /** Between calls, when `seen` is the input of all calls. */
    ghost predicate Settled(m: Machine, seen: seq<byte>, hold: nat, bits: nat)
      reads this`mode, this`last, this`length, this`offset, this`extra, this`have, this`nlen, this`ndist, this`ncode, this`check
      reads this`lencode, this`lenbits, this`distcode, this`distStart, this`distbits
      reads lens, lencode, distcode, fixed, window, window.window
    {
      && Arrays() && FixedTables() && window.Valid() && Ready(m, bits) && Fine(wrap, m, seen, hold, bits) && Snug(m, hold, bits)
      && (Early(mode) ==> window.done == m.history) && (wrap && mode != DICT ==> check == Check(m.history))
    }

    ghost predicate Valid()
      reads this, lens, lencode, distcode, fixed, window, window.window
    {
      Settled(machine, consumed, hold, bits)
    }

    constructor (wrap: bool)
      ensures Valid() && machine == Start(wrap) && consumed == [] && this.wrap == wrap
      ensures fresh(lens) && fresh(work) && fresh(codes) && fresh(fixed) && fresh(window) && window.window == null
      ensures lencode == codes && distcode == codes
    {
      hide FixedLengths, FixedDistances, TableFor, Synced, Proper, Pow2, Records, Check, LsbBits;
      this.wrap := wrap;
      mode, last, check, hold, bits := HEAD, false, 1, 0, 0;
      length, offset, extra, have, nlen, ndist, ncode := 0, 0, 0, 0, 0, 0, 0;
      lens := new nat[320];
      var wk := new nat[288];
      work := wk;
      var cs := new Entry[ENOUGH](i => INVALID);
      codes := cs;
      var f, lb, d, db := MakeFixed(wk);
      fixed, fixedLenBits, fixedDist, fixedDistBits := f, lb, d, db;
      lencode, lenbits, distcode, distStart, distbits := cs, 0, cs, 0, 0;
      var w := new CircularWindow(15);
      window := w;
      machine, consumed := Start(wrap), [];
      new;
      SyncedStart(wrap);
      StartIsProper(wrap);
    }

    lemma ReadyIs(m: Machine, bits: nat)
      requires Ready(m, bits)
      ensures mode == m.mode && last == m.last
      ensures m.mode == CODELENS ==> nlen == m.nlen && ndist == m.ndist && have == |m.lens|
      ensures m.mode == CODELENS ==> InFront(m.lens) && DecodesLengths(m.ll)
      ensures Coding(m.mode) ==> Decodes(m.ll, m.dd)
    {
      hide Decodes, InFront, DecodesLengths;
    }

    /** The states that need nothing but the tables. */
    lemma PlainReady(m: Machine, bits: nat)
      requires mode == m.mode && last == m.last
      requires m.mode == TYPE || m.mode == STORED || m.mode == TABLE || m.mode == DONE || m.mode == BAD
        || (m.mode == DICT && m.history == []) || (m.mode == CHECK && bits % 8 == 0) || (m.mode == LEN && Decodes(m.ll, m.dd))
      ensures Ready(m, bits)
    {
      hide Decodes, InFront, DecodesLengths;
    }

    /** While a block is being decoded. */
    lemma CodingReady(m: Machine, bits: nat)
      requires mode == m.mode && last == m.last && Coding(m.mode) && Decodes(m.ll, m.dd)
      requires m.mode == LENEXT || m.mode == DIST || m.mode == DISTEXT || m.mode == MATCH || m.mode == LIT ==> length == m.length
      requires m.mode == DISTEXT || m.mode == MATCH ==> offset == m.offset
      requires m.mode == LENEXT || m.mode == DISTEXT ==> extra == m.extra
      ensures Ready(m, bits)
    {
      hide Decodes, InFront, DecodesLengths;
    }

    lemma CodingIs(m: Machine, bits: nat)
      requires Ready(m, bits) && Coding(m.mode)
      ensures mode == m.mode && last == m.last && Decodes(m.ll, m.dd)
      ensures m.mode == LENEXT || m.mode == DIST || m.mode == DISTEXT || m.mode == MATCH || m.mode == LIT ==> length == m.length
      ensures m.mode == DISTEXT || m.mode == MATCH ==> offset == m.offset
      ensures m.mode == LENEXT || m.mode == DISTEXT ==> extra == m.extra
    {
      hide Decodes, InFront, DecodesLengths;
    }

    /** While code lengths are being read. */
    lemma LengthsReady(m: Machine, bits: nat)
      requires mode == m.mode && last == m.last && nlen == m.nlen && ndist == m.ndist && have == |m.lens|
      requires (m.mode == LENLENS && ncode == m.ncode && InPlace(m.lens))
        || (m.mode == CODELENS && InFront(m.lens) && DecodesLengths(m.ll))
      ensures Ready(m, bits)
    {
      hide Decodes, InFront, DecodesLengths, InPlace;
    }

    lemma LengthsAre(m: Machine, bits: nat)
      requires Ready(m, bits) && (m.mode == LENLENS || m.mode == CODELENS)
      ensures mode == m.mode && last == m.last && nlen == m.nlen && ndist == m.ndist && have == |m.lens|
      ensures m.mode == LENLENS ==> ncode == m.ncode && InPlace(m.lens)
      ensures m.mode == CODELENS ==> InFront(m.lens) && DecodesLengths(m.ll)
    {
      hide Decodes, InFront, DecodesLengths, InPlace;
    }

    lemma DecodesIs(ll: seq<nat>, dd: seq<nat>)
      requires Decodes(ll, dd)
      ensures TableFor(lencode[..], 0, lenbits, LENS, ll) && TableFor(distcode[..], distStart, distbits, DISTS, dd)
    {
      hide TableFor;
    }

    // -------------------------------------------------------------- turns that only read input

    method DoHead(input: seq<byte>, next0: nat, hold0: nat, bits0: nat, ghost seen: seq<byte>, ghost m0: Machine)
      returns (go: bool, next: nat, hold: nat, bits: nat, ghost m: Machine)
      requires mode == HEAD && Ready(m0, bits0) && Arrays() && next0 <= |input|
        && Fine(wrap, m0, seen + input[..next0], hold0, bits0)
      requires Snug(m0, hold0, bits0)
      modifies this`mode, this`check
      ensures Turned(go, wrap, m0, next0, bits0, m, seen, input, next, hold, bits) && Ready(m, bits) && m.history == []
      ensures check == old(check) || check == 1
    {
      hide Fine, Pow2, Proper, Goes, Halts;
      var mode';
      go, next, hold, bits, mode', m := StepHead(wrap, window.wbits, input, next0, hold0, bits0, seen, m0);
      mode := mode';
      if wrap && mode != HEAD && mode != BAD {
        check := 1;
      }
    }

    method DoDictId(input: seq<byte>, next0: nat, hold0: nat, bits0: nat, ghost seen: seq<byte>, ghost m0: Machine)
      returns (go: bool, next: nat, hold: nat, bits: nat, ghost m: Machine)
      requires mode == DICTID && Ready(m0, bits0) && next0 <= |input| && Fine(wrap, m0, seen + input[..next0], hold0, bits0)
      requires Snug(m0, hold0, bits0)
      modifies this`mode, this`check
      ensures Turned(go, wrap, m0, next0, bits0, m, seen, input, next, hold, bits) && Ready(m, bits)
      ensures check == old(check) || mode == DICT
    {
      hide Fine, Pow2, Proper, Goes, Halts;
      var id;
      go, next, hold, bits, id, m := StepDictId(input, next0, hold0, bits0, wrap, seen, m0);
      if go {
        check := id;
        mode := DICT;
      }
    }

    method DoType(input: seq<byte>, next0: nat, hold0: nat, bits0: nat, ghost seen: seq<byte>, ghost m0: Machine)
      returns (go: bool, next: nat, hold: nat, bits: nat, ghost m: Machine)
      requires mode == TYPE && Ready(m0, bits0) && next0 <= |input| && Fine(wrap, m0, seen + input[..next0], hold0, bits0)
      requires Snug(m0, hold0, bits0)
      requires FixedTables()
      modifies this`mode, this`last, this`lencode, this`lenbits, this`distcode, this`distStart, this`distbits
      ensures Turned(go, wrap, m0, next0, bits0, m, seen, input, next, hold, bits) && Ready(m, bits)
    {
      hide Fine, Pow2, Proper, Goes, Halts, TableFor, FixedLengths, FixedDistances, Ready;
      ReadyIs(m0, bits0);
      var mode', last';
      go, next, hold, bits, last', mode', m := StepType(input, next0, hold0, bits0, last, wrap, seen, m0);
      last, mode := last', mode';
      if mode == LEN {
        lencode, lenbits := fixed, fixedLenBits;
        distcode, distStart, distbits := fixed, fixedDist, fixedDistBits;
      }
      PlainReady(m, bits);
    }

    method DoStored(input: seq<byte>, next0: nat, hold0: nat, bits0: nat, ghost seen: seq<byte>, ghost m0: Machine)
      returns (go: bool, next: nat, hold: nat, bits: nat, ghost m: Machine)
      requires mode == STORED && Ready(m0, bits0) && next0 <= |input| && Fine(wrap, m0, seen + input[..next0], hold0, bits0)
      requires Snug(m0, hold0, bits0)
      modifies this`mode, this`length
      ensures next0 <= next <= |input| && Fine(wrap, m, seen + input[..next], hold, bits) && m.history == m0.history
        && Ready(m, bits)
      ensures Snug(m, hold, bits)
      ensures if go then Goes(m0, Todo(input, next0, bits0), m, Todo(input, next, bits)) else Halts(m, hold, bits, input, next, 1)
    {
      hide Pow2, Proper, Synced, Goes, Halts;
      var mode', length';
      go, next, hold, bits, mode', length', m := StepStored(input, next0, hold0, bits0, wrap, seen, m0);
      mode := mode';
      if mode == COPY {
        length := length';
      }
    }

    method DoTable(input: seq<byte>, next0: nat, hold0: nat, bits0: nat, ghost seen: seq<byte>, ghost m0: Machine)
      returns (go: bool, next: nat, hold: nat, bits: nat, ghost m: Machine)
      requires mode == TABLE && Ready(m0, bits0) && Arrays() && next0 <= |input|
        && Fine(wrap, m0, seen + input[..next0], hold0, bits0)
      requires Snug(m0, hold0, bits0)
      modifies this`mode, this`nlen, this`ndist, this`ncode, this`have
      ensures Turned(go, wrap, m0, next0, bits0, m, seen, input, next, hold, bits) && Ready(m, bits)
    {
      hide Fine, Pow2, Proper, Goes, Halts, Snug, Ready;
      ReadyIs(m0, bits0);
      var mode', nlen', ndist', ncode';
      go, next, hold, bits, mode', nlen', ndist', ncode', m := StepTable(input, next0, hold0, bits0, wrap, seen, m0);
      if go {
        mode, nlen, ndist, ncode, have := mode', nlen', ndist', ncode', 0;
      }
      if mode == LENLENS {
        LengthsReady(m, bits);
      } else {
        PlainReady(m, bits);
      }
    }
  
    method DoLenLens(input: seq<byte>, next0: nat, hold0: nat, bits0: nat, ghost seen: seq<byte>, ghost m0: Machine)
      returns (go: bool, next: nat, hold: nat, bits: nat, ghost m: Machine)
      requires mode == LENLENS && Ready(m0, bits0) && Arrays() && next0 <= |input|
        && Fine(wrap, m0, seen + input[..next0], hold0, bits0)
      requires Snug(m0, hold0, bits0)
      modifies this`mode, this`have, this`lencode, this`lenbits, lens, codes, work
      ensures next0 <= next <= |input| && Fine(wrap, m, seen + input[..next], hold, bits) && m.history == m0.history
        && Ready(m, bits)
      ensures Snug(m, hold, bits)
      ensures if go then Goes(m0, Todo(input, next0, bits0), m, Todo(input, next, bits)) else Halts(m, hold, bits, input, next, 1)
    {
      hide Fine, Pow2, Proper, Halts, Permuting, TableFor, AtFront, AtMost, Ready;
      ReadyIs(m0, bits0);
      LengthsAre(m0, bits0);
      var have';
      go, have', next, hold, bits, m := StepLenLens(lens, have, ncode, input, next0, hold0, bits0, wrap, seen, m0);
      have := have';
      LengthsReady(m, bits);
      if !go {
        return;
      }
      m := BuildLengthTable(input, next, hold, bits, seen, m);
    }

    method BuildLengthTable(ghost input: seq<byte>, ghost next: nat, ghost hold: nat, ghost bits: nat, ghost seen: seq<byte>,
                            ghost m0: Machine)
      returns (ghost m: Machine)
      requires mode == LENLENS && Ready(m0, bits) && Arrays() && next <= |input|
        && Fine(wrap, m0, seen + input[..next], hold, bits)
      requires Snug(m0, hold, bits) && have == m0.ncode
      modifies this`mode, this`have, this`lencode, this`lenbits, lens, codes, work
      ensures Fine(wrap, m, seen + input[..next], hold, bits) && m.history == m0.history && Ready(m, bits)
        && Goes(m0, 0, m, 0)
      ensures Snug(m, hold, bits)
    {
      hide Fine, Pow2, Proper, Halts, Permuting, TableFor, AtFront, AtMost, Goes, Ready;
      ReadyIs(m0, bits);
      LengthsAre(m0, bits);
      var mode', lb;
      mode', lb, m := FinishLenLens(lens, have, codes, work, input, next, hold, bits, wrap, seen, m0);
      mode, lencode, lenbits, have := mode', codes, lb, 0;
      FrontNone(lens[..]);
      if mode == CODELENS {
        LengthsReady(m, bits);
      } else {
        PlainReady(m, bits);
      }
    }

    lemma FrontNone(l: seq<nat>)
      ensures AtFront(l, [])
    {
      assert l[..0] == [];
    }

    method DoCodeLens(input: seq<byte>, next0: nat, hold0: nat, bits0: nat, ghost seen: seq<byte>, ghost m0: Machine)
      returns (go: bool, next: nat, hold: nat, bits: nat, ghost m: Machine)
      requires mode == CODELENS && Ready(m0, bits0) && Arrays() && next0 <= |input|
      requires Fine(wrap, m0, seen + input[..next0], hold0, bits0)
      requires Snug(m0, hold0, bits0)
      modifies this`mode, this`have, this`lencode, this`lenbits, this`distcode, this`distStart, this`distbits, lens, codes, work
      ensures next0 <= next <= |input| && Fine(wrap, m, seen + input[..next], hold, bits) && m.history == m0.history
        && Ready(m, bits)
      ensures Snug(m, hold, bits)
      ensures if go then Goes(m0, Todo(input, next0, bits0), m, Todo(input, next, bits)) else Halts(m, hold, bits, input, next, 1)
    {
      hide Fine, Pow2, Proper, Halts, TableFor, AtFront, AtMost, Ready;
      ReadyIs(m0, bits0);
      LengthsAre(m0, bits0);
      var have', mode';
      go, mode', have', next, hold, bits, m :=
        StepCodeLens(lencode, lenbits, lens, have, nlen, ndist, input, next0, hold0, bits0, wrap, seen, m0);
      assert lencode[..] == old(lencode[..]);
      mode := mode';
      if mode == BAD {
        go := true;
        PlainReady(m, bits);
        return;
      }
      have := have';
      LengthsReady(m, bits);
      if !go {
        return;
      }
      m := BuildTables(input, next, hold, bits, seen, m);
    }

    method BuildTables(ghost input: seq<byte>, ghost next: nat, ghost hold: nat, ghost bits: nat, ghost seen: seq<byte>,
                       ghost m0: Machine)
      returns (ghost m: Machine)
      requires mode == CODELENS && Ready(m0, bits) && Arrays() && next <= |input|
        && Fine(wrap, m0, seen + input[..next], hold, bits)
      requires Snug(m0, hold, bits) && have == nlen + ndist
      modifies this`mode, this`lencode, this`lenbits, this`distcode, this`distStart, this`distbits, codes, work
      ensures Fine(wrap, m, seen + input[..next], hold, bits) && m.history == m0.history && Ready(m, bits)
      ensures Goes(m0, 0, m, 0) && Snug(m, hold, bits)
    {
      hide Fine, Pow2, Proper, Halts, TableFor, AtFront, AtMost, Goes, Ready;
      ReadyIs(m0, bits);
      var mode', lb, ds, db;
      mode', lb, ds, db, m := FinishCodeLens(lens, nlen, ndist, codes, work, input, next, hold, bits, wrap, seen, m0);
      mode, lencode, lenbits, distcode, distStart, distbits := mode', codes, lb, codes, ds, db;
      PlainReady(m, bits);
    }

    method DoLen(input: seq<byte>, next0: nat, hold0: nat, bits0: nat, ghost seen: seq<byte>, ghost m0: Machine)
      returns (go: bool, next: nat, hold: nat, bits: nat, ghost m: Machine)
      requires mode == LEN && Ready(m0, bits0) && next0 <= |input| && Fine(wrap, m0, seen + input[..next0], hold0, bits0)
      requires Snug(m0, hold0, bits0)
      modifies this`mode, this`length, this`extra
      ensures Turned(go, wrap, m0, next0, bits0, m, seen, input, next, hold, bits) && Ready(m, bits)
    {
      hide Fine, Pow2, Proper, Goes, Halts, Snug, TableFor, Usable, EndOfBlock, Invalid, Ready, Decodes;
      ReadyIs(m0, bits0);
      CodingIs(m0, bits0);
      FineIs(wrap, m0, seen + input[..next0], hold0, bits0);
      CodesIn(m0);
      DecodesIs(m0.ll, m0.dd);
      var op, val;
      go, next, hold, bits, op, val, m := StepLen(lencode, lenbits, input, next0, hold0, bits0, wrap, seen, m0);
      if !go {
        CodingReady(m, bits);
        return;
      }
      length := val;
      if op == 0 {
        mode := LIT;
      } else if EndOfBlock(op) {
        mode := TYPE;
      } else if Invalid(op) {
        mode := BAD;
      } else {
        extra := op % 16;
        mode := LENEXT;
      }
      if Coding(mode) {
        CodingReady(m, bits);
      } else {
        PlainReady(m, bits);
      }
    }

    method DoLenExt(input: seq<byte>, next0: nat, hold0: nat, bits0: nat, ghost seen: seq<byte>, ghost m0: Machine)
      returns (go: bool, next: nat, hold: nat, bits: nat, ghost m: Machine)
      requires mode == LENEXT && Ready(m0, bits0) && next0 <= |input| && Fine(wrap, m0, seen + input[..next0], hold0, bits0)
      requires Snug(m0, hold0, bits0)
      modifies this`mode, this`length
      ensures Turned(go, wrap, m0, next0, bits0, m, seen, input, next, hold, bits) && Ready(m, bits)
    {
      hide Fine, Pow2, Proper, Goes, Halts, TableFor, Ready;
      ReadyIs(m0, bits0);
      CodingIs(m0, bits0);
      var v;
      go, next, hold, bits, v, m := StepExtra(extra, input, next0, hold0, bits0, wrap, seen, m0);
      if go {
        length := length + v;
        mode := DIST;
      }
      CodingReady(m, bits);
    }

    method DoDist(input: seq<byte>, next0: nat, hold0: nat, bits0: nat, ghost seen: seq<byte>, ghost m0: Machine)
      returns (go: bool, next: nat, hold: nat, bits: nat, ghost m: Machine)
      requires mode == DIST && Ready(m0, bits0) && next0 <= |input| && Fine(wrap, m0, seen + input[..next0], hold0, bits0)
      requires Snug(m0, hold0, bits0)
      modifies this`mode, this`offset, this`extra
      ensures Turned(go, wrap, m0, next0, bits0, m, seen, input, next, hold, bits) && Ready(m, bits)
    {
      hide Fine, Pow2, Proper, Goes, Halts, Snug, TableFor, Usable, Invalid, Ready, Decodes;
      ReadyIs(m0, bits0);
      CodingIs(m0, bits0);
      FineIs(wrap, m0, seen + input[..next0], hold0, bits0);
      CodesIn(m0);
      DecodesIs(m0.ll, m0.dd);
      var op, val;
      go, next, hold, bits, op, val, m := StepDist(distcode, distStart, distbits, input, next0, hold0, bits0, wrap, seen, m0);
      if !go {
        CodingReady(m, bits);
        return;
      }
      if Invalid(op) {
        mode := BAD;
        PlainReady(m, bits);
        return;
      }
      offset, extra := val, op % 16;
      mode := DISTEXT;
      CodingReady(m, bits);
    }

    /** `reach` is how far the window and this call's output go back. */
    method DoDistExt(reach: nat, input: seq<byte>, next0: nat, hold0: nat, bits0: nat, ghost seen: seq<byte>, ghost m0: Machine)
      returns (go: bool, next: nat, hold: nat, bits: nat, ghost m: Machine)
      requires mode == DISTEXT && Ready(m0, bits0) && next0 <= |input|
        && Fine(wrap, m0, seen + input[..next0], hold0, bits0)
      requires Snug(m0, hold0, bits0)
      requires reach == |m0.history| || (reach >= 32768 && |m0.history| >= 32768)
      modifies this`mode, this`offset
      ensures Turned(go, wrap, m0, next0, bits0, m, seen, input, next, hold, bits) && Ready(m, bits)
    {
      hide Fine, Pow2, Proper, Goes, Halts, TableFor, Low, Ready;
      ReadyIs(m0, bits0);
      CodingIs(m0, bits0);
      var v;
      go, next, hold, bits, v, m := StepExtra(extra, input, next0, hold0, bits0, wrap, seen, m0);
      if go {
        offset := offset + v;
        mode := if offset > reach then BAD else MATCH;
      }
      if mode == BAD {
        PlainReady(m, bits);
      } else {
        CodingReady(m, bits);
      }
    }

    // -------------------------------------------------------------- turns that write output

    method DoCopy(input: seq<byte>, next0: nat, hold0: nat, output: array<byte>, put0: nat, left0: nat, ghost seen: seq<byte>,
                  ghost m0: Machine)
      returns (go: bool, next: nat, put: nat, left: nat, ghost m: Machine)
      requires mode == COPY && Ready(m0, 0) && next0 <= |input| && Fine(wrap, m0, seen + input[..next0], hold0, 0)
      requires put0 + left0 <= output.Length
      modifies this`mode, this`length, output
      ensures next0 <= next <= |input| && Fine(wrap, m, seen + input[..next], hold0, 0) && Snug(m, hold0, 0) && Ready(m, 0)
      ensures Wrote(m0.history, old(output[..]), put0, left0, m.history, output[..], put, left)
      ensures if go then Goes(m0, Todo(input, next0, 0), m, Todo(input, next, 0)) else Halts(m, hold0, 0, input, next, left)
    {
      hide Fine, Pow2, Proper, Goes, Halts, Snug, Wrote;
      var mode', length';
      go, next, length', mode', put, left, m := StepCopy(length, input, next0, hold0, output, put0, left0, wrap, seen, m0);
      mode, length := mode', length';
    }

    method DoLit(output: array<byte>, put0: nat, left0: nat, ghost input: seq<byte>, ghost next: nat, ghost hold: nat,
                 ghost bits: nat, ghost seen: seq<byte>, ghost m0: Machine)
      returns (go: bool, put: nat, left: nat, ghost m: Machine)
      requires mode == LIT && Ready(m0, bits) && next <= |input| && Fine(wrap, m0, seen + input[..next], hold, bits)
      requires put0 + left0 <= output.Length && Snug(m0, hold, bits)
      modifies this`mode, output
      ensures Fine(wrap, m, seen + input[..next], hold, bits) && Snug(m, hold, bits) && Ready(m, bits)
      ensures Wrote(m0.history, old(output[..]), put0, left0, m.history, output[..], put, left)
      ensures if go then Goes(m0, Todo(input, next, bits), m, Todo(input, next, bits)) else Halts(m, hold, bits, input, next, left)
    {
      hide Fine, Pow2, Proper, Goes, Snug, Wrote, TableFor, Ready;
      ReadyIs(m0, bits);
      CodingIs(m0, bits);
      FineIs(wrap, m0, seen + input[..next], hold, bits);
      LitShape(m0);
      go, put, left, m := StepLit(length, output, put0, left0, input, next, hold, bits, wrap, seen, m0);
      FineIs(wrap, m, seen + input[..next], hold, bits);
      if go {
        mode := LEN;
        PlainReady(m, bits);
      } else {
        CodingReady(m, bits);
      }
    }

    lemma LitShape(m: Machine)
      requires Proper(m) && m.mode == LIT
      ensures m.length < 256
    {
      hide Usable, Pow2;
    }

    method DoMatch(output: array<byte>, put0: nat, left0: nat, out: nat, ghost base: seq<byte>, ghost input: seq<byte>,
                   ghost next: nat, ghost hold: nat, ghost bits: nat, ghost seen: seq<byte>, ghost m0: Machine)
      returns (go: bool, put: nat, left: nat, ghost m: Machine)
      requires mode == MATCH && Ready(m0, bits) && next <= |input| && Fine(wrap, m0, seen + input[..next], hold, bits)
      requires Follows(m0.history, base, output[..], put0, left0, out) && Snug(m0, hold, bits)
      requires window.Valid() && window.done == base && window.wbits == 15 && output != window.window
      modifies this`mode, this`length, output
      ensures Fine(wrap, m, seen + input[..next], hold, bits) && Snug(m, hold, bits) && Ready(m, bits)
      ensures Wrote(m0.history, old(output[..]), put0, left0, m.history, output[..], put, left)
      ensures if go then Goes(m0, Todo(input, next, bits), m, Todo(input, next, bits)) else Halts(m, hold, bits, input, next, left)
    {
      hide Fine, Pow2, Proper, Goes, Snug, Wrote, TableFor, Ready, Follows, Records;
      ReadyIs(m0, bits);
      CodingIs(m0, bits);
      var length', mode';
      go, length', mode', put, left, m :=
        StepMatch(window, length, offset, output, put0, left0, out, base, input, next, hold, bits, wrap, seen, m0);
      length, mode := length', mode';
      FineIs(wrap, m, seen + input[..next], hold, bits);
      CodingReady(m, bits);
    }

    method DoCheck(input: seq<byte>, next0: nat, hold0: nat, bits0: nat, output: array<byte>, put: nat, left: nat, out0: nat,
                   ghost base: seq<byte>, ghost seen: seq<byte>, ghost m0: Machine)
      returns (go: bool, next: nat, hold: nat, bits: nat, out: nat, ghost m: Machine)
      requires mode == CHECK && Ready(m0, bits0) && next0 <= |input| && Fine(wrap, m0, seen + input[..next0], hold0, bits0)
      requires Snug(m0, hold0, bits0) && Follows(m0.history, base, output[..], put, left, out0)
        && (wrap ==> check == Check(base))
      modifies this`mode, this`check
      ensures Turned(go, wrap, m0, next0, bits0, m, seen, input, next, hold, bits) && Ready(m, bits) && !Early(mode)
        && (go ==> Final(mode))
      ensures if go && wrap then out == left && check == Check(m0.history) else out == out0 && check == old(check)
    {
      hide Fine, Pow2, Proper, Goes, Halts, Snug, Follows, Check;
      var mode', check';
      go, next, hold, bits, mode', check', out, m :=
        StepCheck(wrap, check, output, put, left, out0, base, input, next0, hold0, bits0, seen, m0);
      mode, check := mode', check';
    }

    /** LEN, with input and output space for inflate_fast. */
    method DoFast(input: seq<byte>, next0: nat, hold0: nat, bits0: nat, output: array<byte>, put0: nat, left0: nat, out: nat,
                  ghost base: seq<byte>, ghost seen: seq<byte>, ghost m0: Machine)
      returns (next: nat, hold: nat, bits: nat, put: nat, left: nat, ghost m: Machine)
      requires mode == LEN && Ready(m0, bits0) && next0 + 6 <= |input| && left0 >= 258
      requires Fine(wrap, m0, seen + input[..next0], hold0, bits0) && Snug(m0, hold0, bits0)
      requires Follows(m0.history, base, output[..], put0, left0, out)
      requires window.Valid() && window.done == base && window.wbits == 15 && output != window.window
      modifies this`mode, output
      ensures next0 <= next <= |input| && Fine(wrap, m, seen + input[..next], hold, bits) && Snug(m, hold, bits)
        && Ready(m, bits)
      ensures Wrote(m0.history, old(output[..]), put0, left0, m.history, output[..], put, left)
      ensures Goes(m0, Todo(input, next0, bits0), m, Todo(input, next, bits)) && mode != DICT && mode != CHECK
    {
      hide Fine, Pow2, Proper, Snug, Wrote, TableFor, Ready, Follows, Records;
      ReadyIs(m0, bits0);
      CodingIs(m0, bits0);
      var mode';
      mode', next, hold, bits, put, left, m :=
        InflateFast(window, lencode, lenbits, distcode, distStart, distbits, input, next0, hold0, bits0, output, put0, left0, out,
                    base, wrap, m0, seen);
      mode := mode';
      PlainReady(m, bits);
    }

    // -------------------------------------------------------------- inflate

    /** During a call that has used `next` bytes of input and has room for `left` bytes of output of the `out` it counts from. */
    ghost predicate Underway(m: Machine, base: seq<byte>, seen: seq<byte>, input: seq<byte>, next: nat, hold: nat, bits: nat,
                             output: seq<byte>, put: nat, left: nat, out: nat)
      reads this, lens, lencode, distcode, fixed, window, window.window
    {
      && Arrays() && FixedTables() && window.Valid() && Ready(m, bits) && next <= |input|
      && Fine(wrap, m, seen + input[..next], hold, bits) && Snug(m, hold, bits) && Follows(m.history, base, output, put, left, out)
      && (Early(mode) ==> window.done == base) && (wrap && mode != DICT ==> check == Check(base))
    }

    /** What a turn that only reads input leaves. */
    ghost predicate ReadOn(go: bool, m0: Machine, next0: nat, bits0: nat, m: Machine, seen: seq<byte>, input: seq<byte>, next: nat,
                         hold: nat, bits: nat)
      reads this, lens, lencode, distcode
    {
      && next0 <= next <= |input| && Fine(wrap, m, seen + input[..next], hold, bits) && Snug(m, hold, bits) && Ready(m, bits)
      && m.history == m0.history
      && (if go then Goes(m0, Todo(input, next0, bits0), m, Todo(input, next, bits)) else Halts(m, hold, bits, input, next, 1))
    }

    lemma TurnedIsRead(go: bool, m0: Machine, next0: nat, bits0: nat, m: Machine, seen: seq<byte>, input: seq<byte>, next: nat,
                       hold: nat, bits: nat)
      requires Turned(go, wrap, m0, next0, bits0, m, seen, input, next, hold, bits) && Ready(m, bits)
      ensures ReadOn(go, m0, next0, bits0, m, seen, input, next, hold, bits)
    {
      hide Proper, Synced, Snug, Goes, Halts, Ready, Pow2;
    }

    /** The states before and between blocks. */
    method TurnHeader(input: seq<byte>, next0: nat, hold0: nat, bits0: nat, ghost seen: seq<byte>, ghost m0: Machine)
      returns (go: bool, next: nat, hold: nat, bits: nat, ghost m: Machine)
      requires Arrays() && FixedTables() && Ready(m0, bits0) && next0 <= |input|
      requires Fine(wrap, m0, seen + input[..next0], hold0, bits0) && Snug(m0, hold0, bits0)
      requires mode == HEAD || mode == DICTID || mode == TYPE || mode == STORED || mode == TABLE
      modifies this`mode, this`check, this`last, this`lencode, this`lenbits, this`distcode, this`distStart, this`distbits,
               this`length, this`nlen, this`ndist, this`ncode, this`have
      ensures ReadOn(go, m0, next0, bits0, m, seen, input, next, hold, bits)
      ensures check == old(check) || mode == DICT || (m.history == [] && check == 1)
    {
      hide Fine, Pow2, Proper, Goes, Halts, Snug, TableFor, Ready, FixedLengths, FixedDistances, Turned;
      if mode == HEAD {
        go, next, hold, bits, m := DoHead(input, next0, hold0, bits0, seen, m0);
      } else if mode == DICTID {
        go, next, hold, bits, m := DoDictId(input, next0, hold0, bits0, seen, m0);
      } else if mode == TYPE {
        go, next, hold, bits, m := DoType(input, next0, hold0, bits0, seen, m0);
      } else if mode == STORED {
        go, next, hold, bits, m := DoStored(input, next0, hold0, bits0, seen, m0);
        return;
      } else {
        go, next, hold, bits, m := DoTable(input, next0, hold0, bits0, seen, m0);
      }
      TurnedIsRead(go, m0, next0, bits0, m, seen, input, next, hold, bits);
    }

    /** The states that read the code lengths. */
    method TurnLengths(input: seq<byte>, next0: nat, hold0: nat, bits0: nat, ghost seen: seq<byte>, ghost m0: Machine)
      returns (go: bool, next: nat, hold: nat, bits: nat, ghost m: Machine)
      requires Arrays() && FixedTables() && Ready(m0, bits0) && next0 <= |input|
      requires Fine(wrap, m0, seen + input[..next0], hold0, bits0) && Snug(m0, hold0, bits0)
      requires mode == LENLENS || mode == CODELENS
      modifies this`mode, this`have, this`lencode, this`lenbits, this`distcode, this`distStart, this`distbits, lens, codes, work
      ensures ReadOn(go, m0, next0, bits0, m, seen, input, next, hold, bits) && FixedTables()
    {
      hide Fine, Pow2, Proper, Goes, Halts, Snug, TableFor, Ready, FixedLengths, FixedDistances;
      ghost var f := fixed[..];
      if mode == LENLENS {
        go, next, hold, bits, m := DoLenLens(input, next0, hold0, bits0, seen, m0);
      } else {
        go, next, hold, bits, m := DoCodeLens(input, next0, hold0, bits0, seen, m0);
      }
      assert fixed[..] == f;
    }

    /** The states that decode symbols. */
    method TurnSymbols(input: seq<byte>, next0: nat, hold0: nat, bits0: nat, reach: nat, ghost seen: seq<byte>, ghost m0: Machine)
      returns (go: bool, next: nat, hold: nat, bits: nat, ghost m: Machine)
      requires Ready(m0, bits0) && next0 <= |input|
      requires Fine(wrap, m0, seen + input[..next0], hold0, bits0) && Snug(m0, hold0, bits0)
      requires mode == LEN || mode == LENEXT || mode == DIST || mode == DISTEXT
      requires mode == DISTEXT ==> reach == |m0.history| || (reach >= 32768 && |m0.history| >= 32768)
      modifies this`mode, this`length, this`extra, this`offset
      ensures ReadOn(go, m0, next0, bits0, m, seen, input, next, hold, bits)
    {
      hide Fine, Pow2, Proper, Goes, Halts, Snug, TableFor, Ready, FixedLengths, FixedDistances, Turned;
      if mode == LEN {
        go, next, hold, bits, m := DoLen(input, next0, hold0, bits0, seen, m0);
      } else if mode == LENEXT {
        go, next, hold, bits, m := DoLenExt(input, next0, hold0, bits0, seen, m0);
      } else if mode == DIST {
        go, next, hold, bits, m := DoDist(input, next0, hold0, bits0, seen, m0);
      } else {
        go, next, hold, bits, m := DoDistExt(reach, input, next0, hold0, bits0, seen, m0);
      }
      TurnedIsRead(go, m0, next0, bits0, m, seen, input, next, hold, bits);
    }

    /** How far a distance may reach. */
    lemma ReachIs(h: seq<byte>, base: seq<byte>, o: seq<byte>, put: nat, left: nat, out: nat, reach: nat)
      requires window.Valid() && window.done == base && window.wbits == 15 && Follows(h, base, o, put, left, out)
      requires reach == window.whave + (out - left)
      ensures reach == |h| || (reach >= 32768 && |h| >= 32768)
    {
      hide Records;
      HaveIs(window);
      FollowsTail(h, base, o, put, left, out, 0);
    }

    lemma CheckNothing(h: seq<byte>, base: seq<byte>, o: seq<byte>, put: nat, left: nat, out: nat)
      requires Follows(h, base, o, put, left, out) && h == []
      ensures Check(base) == 1
    {
      assert base == [];
      StartIsProper(true);
    }

    lemma HaltsAny(m: Machine, hold: nat, bits: nat, input: seq<byte>, next: nat, left: nat)
      requires Proper(m) && Halts(m, hold, bits, input, next, 1)
      ensures Halts(m, hold, bits, input, next, left)
    {
      hide Proper, Next, LsbBits, Final;
    }

    method TurnInput(input: seq<byte>, next0: nat, hold0: nat, bits0: nat, ghost output: seq<byte>, ghost put: nat, left: nat,
                     out: nat, ghost base: seq<byte>, ghost seen: seq<byte>, ghost m0: Machine)
      returns (go: bool, next: nat, hold: nat, bits: nat, ghost m: Machine)
      requires Underway(m0, base, seen, input, next0, hold0, bits0, output, put, left, out)
      requires !Final(mode) && Early(mode) && mode != COPY && mode != MATCH && mode != LIT
      modifies this, lens, codes, work
      ensures Underway(m, base, seen, input, next, hold, bits, output, put, left, out) && next0 <= next
      ensures m.history == m0.history && machine == old(machine) && consumed == old(consumed)
      ensures if go then Goes(m0, Todo(input, next0, bits0), m, Todo(input, next, bits))
              else Halts(m, hold, bits, input, next, left)
    {
      hide Fine, Pow2, Proper, Goes, Halts, Snug, TableFor, Ready, FixedLengths, FixedDistances, Follows, Records, Check;
      var reach := 0;
      if mode == HEAD || mode == DICTID || mode == TYPE || mode == STORED || mode == TABLE {
        go, next, hold, bits, m := TurnHeader(input, next0, hold0, bits0, seen, m0);
        if m.history == [] {
          CheckNothing(m.history, base, output, put, left, out);
        }
      } else if mode == LENLENS || mode == CODELENS {
        go, next, hold, bits, m := TurnLengths(input, next0, hold0, bits0, seen, m0);
      } else {
        if mode == DISTEXT {
          FollowsRoom(m0.history, base, output, put, left, out);
          reach := window.whave + (out - left);
          ReachIs(m0.history, base, output, put, left, out, reach);
        }
        go, next, hold, bits, m := TurnSymbols(input, next0, hold0, bits0, reach, seen, m0);
      }
      FineIs(wrap, m, seen + input[..next], hold, bits);
      if !go {
        HaltsAny(m, hold, bits, input, next, left);
      }
    }

    method TurnOutput(input: seq<byte>, next0: nat, hold0: nat, bits0: nat, output: array<byte>, put0: nat, left0: nat,
                      out: nat, ghost base: seq<byte>, ghost seen: seq<byte>, ghost m0: Machine)
      returns (go: bool, next: nat, hold: nat, bits: nat, put: nat, left: nat, ghost m: Machine)
      requires Underway(m0, base, seen, input, next0, hold0, bits0, output[..], put0, left0, out) && output != window.window
      requires mode == COPY || mode == MATCH || mode == LIT || (mode == LEN && next0 + 6 <= |input| && left0 >= 258)
      modifies this`mode, this`length, output
      ensures Underway(m, base, seen, input, next, hold, bits, output[..], put, left, out) && next0 <= next
      ensures Wrote(m0.history, old(output[..]), put0, left0, m.history, output[..], put, left)
      ensures if go then Goes(m0, Todo(input, next0, bits0), m, Todo(input, next, bits))
              else Halts(m, hold, bits, input, next, left)
    {
      hide Fine, Pow2, Proper, Goes, Halts, Snug, TableFor, Ready, FixedLengths, FixedDistances, Follows, Records, Check, Wrote;
      next, hold, bits := next0, hold0, bits0;
      FollowsRoom(m0.history, base, output[..], put0, left0, out);
      ghost var o0 := output[..];
      if mode == COPY {
        CopyIs(m0, bits);
        bits := 0;
        go, next, put, left, m := DoCopy(input, next, hold, output, put0, left0, seen, m0);
      } else if mode == LIT {
        go, put, left, m := DoLit(output, put0, left0, input, next, hold, bits, seen, m0);
      } else if mode == MATCH {
        go, put, left, m := DoMatch(output, put0, left0, out, base, input, next, hold, bits, seen, m0);
      } else {
        go := true;
        next, hold, bits, put, left, m := DoFast(input, next, hold, bits, output, put0, left0, out, base, seen, m0);
      }
      FollowsMore(m0.history, base, o0, put0, left0, out, m.history, output[..], put, left);
    }

    lemma CopyIs(m: Machine, bits: nat)
      requires Ready(m, bits) && mode == COPY
      ensures bits == 0
    {
      hide Decodes, InFront, DecodesLengths, InPlace;
    }

    method TurnCheck(input: seq<byte>, next0: nat, hold0: nat, bits0: nat, output: array<byte>, put: nat, left: nat, out0: nat,
                     ghost base0: seq<byte>, ghost seen: seq<byte>, ghost m0: Machine)
      returns (go: bool, next: nat, hold: nat, bits: nat, out: nat, ghost base: seq<byte>, ghost m: Machine)
      requires Underway(m0, base0, seen, input, next0, hold0, bits0, output[..], put, left, out0) && mode == CHECK
      modifies this`mode, this`check
      ensures Underway(m, base, seen, input, next, hold, bits, output[..], put, left, out) && next0 <= next && !Early(mode)
      ensures m.history == m0.history && (out == out0 || (out == left && Final(mode)))
      ensures if go then Goes(m0, Todo(input, next0, bits0), m, Todo(input, next, bits))
              else Halts(m, hold, bits, input, next, left)
    {
      hide Fine, Pow2, Proper, Goes, Halts, Snug, TableFor, Ready, FixedLengths, FixedDistances, Follows, Records, Check;
      go, next, hold, bits, out, m := DoCheck(input, next0, hold0, bits0, output, put, left, out0, base0, seen, m0);
      base := if go && wrap then m0.history else base0;
      FollowsRoom(m0.history, base0, output[..], put, left, out0);
      FollowsNothing(m0.history, output[..], put, left);
      FineIs(wrap, m, seen + input[..next], hold, bits);
      if !go {
        HaltsAny(m, hold, bits, input, next, left);
      }
    }

    lemma FollowsNothing(h: seq<byte>, o: seq<byte>, put: nat, left: nat)
      requires put + left <= |o|
      ensures Follows(h, h, o, put, left, left)
    {
      assert h + o[put..put] == h;
    }

    /** One turn of the loop of inflate. */
    method Turn(input: seq<byte>, next0: nat, hold0: nat, bits0: nat, output: array<byte>, put0: nat, left0: nat, out0: nat,
                ghost base0: seq<byte>, ghost seen: seq<byte>, ghost m0: Machine)
      returns (go: bool, next: nat, hold: nat, bits: nat, put: nat, left: nat, out: nat, ghost base: seq<byte>, ghost m: Machine)
      requires Underway(m0, base0, seen, input, next0, hold0, bits0, output[..], put0, left0, out0)
        && output != window.window
      requires !Final(mode)
      modifies this, lens, codes, work, output
      ensures Underway(m, base, seen, input, next, hold, bits, output[..], put, left, out) && next0 <= next
      ensures machine == old(machine) && consumed == old(consumed) && (Final(mode) || out == out0)
      ensures Wrote(m0.history, old(output[..]), put0, left0, m.history, output[..], put, left)
      ensures if go then Goes(m0, Todo(input, next0, bits0), m, Todo(input, next, bits))
              else Halts(m, hold, bits, input, next, left)
    {
      hide Fine, Pow2, Proper, Goes, Halts, Snug, TableFor, Ready, FixedLengths, FixedDistances, Follows, Records, Check, Wrote;
      put, left, out, base := put0, left0, out0, base0;
      FollowsRoom(m0.history, base, output[..], put, left, out);
      WroteNothing(m0.history, output[..], put, left);
      ReadyIs(m0, bits0);
      if mode == CHECK {
        go, next, hold, bits, out, base, m := TurnCheck(input, next0, hold0, bits0, output, put, left, out, base, seen, m0);
      } else if mode == COPY || mode == MATCH || mode == LIT || (mode == LEN && |input| - next0 >= 6 && left >= 258) {
        go, next, hold, bits, put, left, m := TurnOutput(input, next0, hold0, bits0, output, put, left, out, base, seen, m0);
      } else {
        ghost var o := output[..];
        go, next, hold, bits, m := TurnInput(input, next0, hold0, bits0, o, put, left, out, base, seen, m0);
        assert output[..] == o;
      }
    }

    lemma UnderwayIs(m: Machine, base: seq<byte>, seen: seq<byte>, input: seq<byte>, next: nat, hold: nat, bits: nat,
                     output: seq<byte>, put: nat, left: nat, out: nat)
      requires Underway(m, base, seen, input, next, hold, bits, output, put, left, out)
      ensures mode == m.mode && next <= |input| && Fine(wrap, m, seen + input[..next], hold, bits) && Proper(m)
    {
      hide TableFor, Synced, Pow2, Records, Check, Snug, Follows;
    }

    /** The turns of one call, until the stream is at an end or input or output space is. */
    method TakeTurns(input: seq<byte>, output: array<byte>, put0: nat, avail: nat)
      returns (next: nat, hold': nat, bits': nat, put: nat, left: nat, out: nat, ghost base: seq<byte>, ghost m: Machine)
      requires Valid() && put0 + avail <= output.Length && output != window.window
      modifies this, lens, codes, work, output
      ensures Underway(m, base, consumed, input, next, hold', bits', output[..], put, left, out)
      ensures machine == old(machine) && consumed == old(consumed) && (Final(mode) || out == avail)
      ensures Wrote(machine.history, old(output[..]), put0, avail, m.history, output[..], put, left)
      ensures Proper(m) && Halts(m, hold', bits', input, next, left)
    {
      hide Underway, Proper, Wrote, LsbBits, Next, Fine, Valid, Synced, Records, Pow2;
      next, hold', bits', put, left, out, m, base := 0, hold, bits, put0, avail, avail, machine, machine.history;
      ghost var h0, o0 := machine.history, output[..];
      SetOut(input, output[..], put, left);
      WroteNothing(m.history, output[..], put, left);
      UnderwayIs(m, base, consumed, input, next, hold', bits', output[..], put, left, out);
      var go := true;
      while go && !Final(mode)
        invariant Underway(m, base, consumed, input, next, hold', bits', output[..], put, left, out) && mode == m.mode
        invariant Wrote(h0, o0, put0, avail, m.history, output[..], put, left) && next <= |input| && Proper(m)
        invariant machine == old(machine) && consumed == old(consumed) && (Final(mode) || out == avail)
        invariant go || Halts(m, hold', bits', input, next, left)
        decreases go, if Final(m.mode) then 0 else 1, Todo(input, next, bits'), Inflation.Rank(m.mode), m.length
      {
        ghost var h1, o1, p1, left1 := m.history, output[..], put, left;
        go, next, hold', bits', put, left, out, base, m := Turn(input, next, hold', bits', output, put, left, out, base, consumed, m);
        UnderwayIs(m, base, consumed, input, next, hold', bits', output[..], put, left, out);
        WroteMore(h0, o0, put0, avail, h1, o1, p1, left1, m.history, output[..], put, left);
      }
    }

    /** A call begins. */
    lemma SetOut(input: seq<byte>, o: seq<byte>, put: nat, left: nat)
      requires Valid() && put + left <= |o|
      ensures Underway(machine, machine.history, consumed, input, 0, hold, bits, o, put, left, left)
    {
      hide TableFor, Synced, Pow2, Records, Check, Snug, Follows, Ready, Proper, FixedLengths, FixedDistances;
      assert consumed + input[..0] == consumed;
      FollowsNothing(machine.history, o, put, left);
    }

    /** The window and the check value are brought up to date. */
    method Record(output: array<byte>, put: nat, left: nat, out: nat, ghost base: seq<byte>, ghost h: seq<byte>)
      requires window.Valid() && window.wbits == 15 && output != window.window
        && Follows(h, base, output[..], put, left, out)
      requires (Early(mode) ==> window.done == base) && (wrap ==> check == Check(base)) && mode != DICT
      modifies this`check, window, window.window
      ensures window.Valid() && (Early(mode) ==> window.done == h) && (wrap ==> check == Check(h))
      ensures window.window == old(window.window) || fresh(window.window)
    {
      hide Records, Check, Pow2;
      FollowsEnds(h, base, output[..], put, left, out);
      assert output[..][put - (out - left)..put] == output[put - (out - left)..put];
      if window.wsize != 0 || (Early(mode) && out != left) {
        window.UpdateWindow(output, put, out - left);
      }
      if wrap && out != left {
        check := UpdateCheck(check, output[put - (out - left)..put], base);
      }
    }

    /** inf_leave */
    method Leave(ghost input: seq<byte>, ghost next: nat, hold': nat, bits': nat, output: array<byte>, put: nat, left: nat, out: nat,
                 ghost base: seq<byte>, ghost m: Machine)
      requires Underway(m, base, consumed, input, next, hold', bits', output[..], put, left, out) && output != window.window
      modifies this`hold, this`bits, this`check, this`machine, this`consumed, window, window.window
      ensures Valid() && machine == m && consumed == old(consumed) + input[..next] && hold == hold' && bits == bits'
      ensures window.window == old(window.window) || fresh(window.window)
    {
      hide TableFor, Synced, Pow2, Records, Check, Snug, Ready, Proper, FixedLengths, FixedDistances, Fine, Follows, Coding,
           FixedTables, Settled, LsbBits, Decodes, DecodesLengths, InFront, InPlace, Early;
      if mode == DICT {
        DictIs(m, bits');
        FollowsEnds(m.history, base, output[..], put, left, out);
      } else {
        Record(output, put, left, out, base, m.history);
      }
      Settle(m, consumed + input[..next], hold', bits');
      hold, bits, machine, consumed := hold', bits', m, consumed + input[..next];
    }

    lemma Settle(m: Machine, seen: seq<byte>, hold: nat, bits: nat)
      requires Arrays() && FixedTables() && window.Valid() && Ready(m, bits) && Fine(wrap, m, seen, hold, bits)
      requires Snug(m, hold, bits) && (Early(mode) ==> window.done == m.history)
      requires wrap && mode != DICT ==> check == Check(m.history)
      ensures Settled(m, seen, hold, bits)
    {
      hide TableFor, Synced, Pow2, Records, Check, Snug, Ready, Proper, FixedLengths, FixedDistances, Fine, Coding, FixedTables;
    }

    lemma DictIs(m: Machine, bits: nat)
      requires Ready(m, bits) && mode == DICT
      ensures m.history == []
    {
      hide Decodes, InFront, DecodesLengths, InPlace;
    }

    lemma FollowsEnds(h: seq<byte>, base: seq<byte>, o: seq<byte>, put: nat, left: nat, out: nat)
      requires Follows(h, base, o, put, left, out)
      ensures out - left <= put <= |o| && h == base + o[put - (out - left)..put] && (out == left ==> h == base)
    {
    }

    lemma WroteIs(h0: seq<byte>, o0: seq<byte>, p0: nat, left0: nat, h1: seq<byte>, o1: seq<byte>, p1: nat, left1: nat)
      requires Wrote(h0, o0, p0, left0, h1, o1, p1, left1)
      ensures p0 <= p1 <= |o1| == |o0| && o1[..p0] == o0[..p0] && h1 == h0 + o1[p0..p1]
    {
    }

    /** A decoder that was given two bytes that are no header has come to an error. */
    lemma RefusedIsBad(c0: seq<byte>, input: seq<byte>, next: nat, left: nat)
      requires Valid() && wrap && next <= |input| && consumed == c0 + input[..next] && Refused(c0 + input)
      requires Proper(machine) && Halts(machine, hold, bits, input, next, left)
      ensures machine.mode == BAD && machine.history == []
    {
      hide Valid, Proper, LsbBits, Next, Refused, Synced;
      SettledIs(this);
      var more := input[next..];
      assert c0 + input == consumed + more;
      RefusedEnds(machine, hold, bits, consumed, more);
    }

    /** inflate */
    method Inflate(input: seq<byte>, output: array<byte>, put0: nat, avail: nat, finish: bool)
      returns (status: Status, next: nat, put: nat)
      requires Valid() && put0 + avail <= output.Length && output != window.window
      modifies this, lens, codes, work, output, window, window.window
      ensures Valid() && (window.window == old(window.window) || fresh(window.window))
      ensures next <= |input| && consumed == old(consumed) + input[..next]
      ensures put0 <= put <= put0 + avail && output[..put0] == old(output[..put0])
      ensures machine.history == old(machine.history) + output[put0..put]
      ensures Halts(machine, hold, bits, input, next, put0 + avail - put)
      ensures status == match machine.mode
                        case DONE => StreamEnd
                        case BAD => DataError
                        case DICT => NeedDict
                        case _ => if finish || (next == 0 && put == put0) then BufError else OK
      ensures wrap && Refused(old(consumed) + input) ==> status == DataError && put == put0
    {
      hide Underway, Valid, Wrote, Proper, LsbBits, Next, Fine;
      var hold', bits', left, out;
      ghost var base, m;
      next, hold', bits', put, left, out, base, m := TakeTurns(input, output, put0, avail);
      UnderwayIs(m, base, consumed, input, next, hold', bits', output[..], put, left, out);
      WroteLeft(machine.history, old(output[..]), put0, avail, m.history, output[..], put, left);
      WroteIs(machine.history, old(output[..]), put0, avail, m.history, output[..], put, left);
      status := OK;
      match mode {
        case DONE => status := StreamEnd;
        case BAD => status := DataError;
        case DICT => status := NeedDict;
        case _ =>
      }
      ghost var c0 := consumed;
      Leave(input, next, hold', bits', output, put, left, out, base, m);
      if wrap && Refused(c0 + input) {
        RefusedIsBad(c0, input, next, left);
      }
      if status == OK && (finish || (next == 0 && out == left)) {
        status := BufError;
      }
    }
  }

  // ---------------------------------------------------------------- nothing depends on the cuts

  lemma SettledIs(s: State)
    requires s.Valid()
    ensures Proper(s.machine) && s.machine.wrap == s.wrap && Synced(s.wrap, s.consumed, s.machine, s.hold, s.bits)
    ensures s.mode == s.machine.mode && Proper(Start(s.wrap))
  {
    hide TableFor, Simulates, Pow2, Records, Check, FixedLengths, FixedDistances, Usable;
    s.ReadyIs(s.machine, s.bits);
  }

  /** Whatever the calls were, the output is a beginning of what the input determines, and an end that has been reached is the
      one that the input determines. */
  lemma Determined(s: State, more: seq<byte>)
    requires s.Valid()
    ensures Proper(Start(s.wrap)) && s.machine.history <= Run(Start(s.wrap), BitsOf(s.consumed + more)).history
    ensures Final(s.mode) ==> s.machine == Run(Start(s.wrap), BitsOf(s.consumed + more))
  {
    hide State.Valid, Run, Synced, Proper, Final, BitsOf;
    SettledIs(s);
    SyncedPrefix(s.wrap, s.consumed, s.machine, s.hold, s.bits, more);
    if Final(s.mode) {
      SyncedDone(s.wrap, s.consumed, s.machine, s.hold, s.bits, more);
    }
  }

  /** A call that returns with output space left has done all that its input allows. */
  lemma Complete(s: State, input: seq<byte>, next: nat, left: nat)
    requires s.Valid() && next <= |input| && left > 0 && Proper(s.machine)
      && Halts(s.machine, s.hold, s.bits, input, next, left)
    ensures Proper(Start(s.wrap)) && s.machine == Run(Start(s.wrap), BitsOf(s.consumed + input[next..]))
  {
    hide State.Valid, Run, Synced, Proper, Final, BitsOf, Next, LsbBits;
    SettledIs(s);
    if Final(s.machine.mode) {
      SyncedDone(s.wrap, s.consumed, s.machine, s.hold, s.bits, input[next..]);
    } else {
      assert s.consumed + input[next..] == s.consumed;
      SyncedEnd(s.wrap, s.consumed, s.machine, s.hold, s.bits);
    }
  }

  /** Two decoders that are fed the same stream in different pieces: when both have come to an end it is the same one, with the
      same output; and until then the output of each is a beginning of that. */
  lemma CutsDoNotMatter(s: State, t: State, a: seq<byte>, b: seq<byte>)
    requires s.Valid() && t.Valid() && s.wrap == t.wrap && s.consumed + a == t.consumed + b
    ensures Final(s.mode) && Final(t.mode) ==> s.machine == t.machine
    ensures Final(s.mode) ==> t.machine.history <= s.machine.history
    ensures s.machine.history <= t.machine.history || t.machine.history <= s.machine.history
  {
    hide State.Valid, Run, Synced, Proper, Final, BitsOf;
    Determined(s, a);
    Determined(t, b);
    var h := Run(Start(s.wrap), BitsOf(s.consumed + a)).history;
    var x, y := s.machine.history, t.machine.history;
    if |x| <= |y| {
      assert x == h[..|x|] == y[..|x|];
    } else {
      assert y == h[..|y|] == x[..|y|];
    }
  }
}
