/** The part of deflate_state that src/ext/zlib/deflate.c works on: the window, the hash chains and the match that is waiting. */
module Searching {
  import opened Bits
  import opened Inflation
  import opened Checking
  import opened Hashing
  import opened Matching
  import opened Sliding
  import opened Advancing
  import opened Looking
  import opened Reasons
  import Adler32

  class Matcher {
    const p: Params
    const limits: Limits
    const strategy: Strategy
    const level: nat
    const wrap: bool
    const window: array<byte>
    const prev: array<nat>
    const head: array<nat>
    var insH: nat
    var strstart: nat
    var lookahead: nat
    var blockStart: int
    var matchStart: int
    var matchLength: nat
    var prevMatch: int
    var prevLength: nat
    var matchAvailable: bool
    var adler: Adler32.word
    /** The caller's input: next_in and avail_in. */
    var input: seq<byte>
    var next: nat
    /** All input read so far; the window shows it from byte `base` on. */
    ghost var data: seq<byte>
    ghost var base: nat
    /** The window positions that have been inserted, and the slots of `prev` that have been written. */
    ghost var ins: set<nat>
    ghost var slots: set<nat>
    /** The last search, and the one before; and the first byte of the data that is not forgotten. */
    ghost var look: Look
    ghost var prevLook: Look
    ghost var mark: nat
    /** The bytes of the data whose strings have been inserted, and those whose strings were passed by without that. */
    ghost var inserted: set<nat>
    ghost var excused: set<nat>
    /** The lengths of the data at which the caller's input came to an end, and those at which the history was forgotten. */
    ghost var ends: set<nat>
    ghost var forgets: set<nat>

    ghost predicate Shaped() {
      && p.Good() && (level > 0 ==> limits.Good()) && prev != head && window.Length == 2 * p.wSize
    }

    /** The window and the hash chains. */
    ghost predicate Tracking()
      reads this`insH, this`strstart, this`lookahead, this`data, this`base, this`ins, this`slots, window, prev, head
    {
      Tracks(p, window[..], head[..], prev[..], ins, slots, insH, strstart, lookahead, base, data)
    }

    /** The same, once the string at strstart has been inserted. */
    ghost predicate Standing()
      reads this`insH, this`strstart, this`lookahead, this`data, this`base, this`ins, this`slots, window, prev, head
    {
      Inserted(p, window[..], head[..], prev[..], ins, slots, insH, strstart, lookahead, base, data)
    }

    /** What a search goes by. */
    ghost function Rule(): Rules {
      Rules(p.MaxDist(), limits, strategy, level > 3)
    }

    ghost function History(): Past
      reads this`inserted, this`ends, this`forgets
    {
      Past(inserted, ends, forgets)
    }

    /** The strings on the chains are those inserted since the history was last forgotten; every string up to strstart was inserted or is
        excused. */
    ghost predicate Kept()
      reads this`strstart, this`base, this`ins, this`mark, this`inserted, this`excused, this`forgets
    {
      && Deep(p.MaxDist(), strstart, base) && Shown(ins, base, mark, inserted) && mark <= base + strstart && mark in forgets
      && Complete(inserted, excused, base + strstart)
    }

    /** The string at strstart, too. */
    ghost predicate Stood()
      reads this`strstart, this`base, this`inserted, this`excused
    {
      base + strstart in inserted || base + strstart in excused
    }

    /** The search l has led to a match of this length at `start`, if any, that is better than the one before. */
    ghost predicate Led(l: Look, at: int, length: nat, start: int)
      reads this`data, this`mark, this`inserted, this`ends, this`forgets
    {
      && LookedAt(data, Rule(), History(), l, at, l.least) && length == Answer(Rule(), l) && l.from == mark
      && (length >= MIN_MATCH ==> start == l.start)
    }

    /** The match that is waiting, and what the match fields hold in general. */
    ghost predicate Waiting()
      reads this`strstart, this`base, this`matchAvailable, this`matchLength, this`matchStart, this`data, this`prevLength,
            this`look, this`mark, this`inserted, this`ends, this`forgets
    {
      if level <= 3 then !matchAvailable && matchLength < MIN_MATCH && prevLength == MIN_MATCH - 1
      else
        && 1 <= matchLength <= MAX_MATCH && (matchAvailable ==> strstart >= 1)
        && (matchLength >= MIN_MATCH ==>
              matchAvailable && MatchAt(data, base + strstart - 1, base + matchStart, matchLength, p.MaxDist()))
        && (matchAvailable ==> Led(look, base + strstart - 1, matchLength, base + matchStart) && Better(look, matchLength))
    }

    /** A match that is longer than the one before it. */
    ghost predicate Better(l: Look, length: nat) {
      l.least >= MIN_MATCH ==> length > l.least
    }

    ghost predicate Reading()
      reads this`adler, this`data, this`next, this`input, this`ends
    {
      next <= |input| && (wrap ==> adler == Check(data)) && |data| + |input| - next in ends
    }

    ghost predicate Valid()
      reads this, window, prev, head
    {
      Shaped() && Tracking() && Waiting() && Reading() && 0 <= base + blockStart && blockStart <= strstart && Kept()
    }

    /** Where in the data strstart is. */
    ghost function At(): nat
      reads this`strstart, this`base
    {
      base + strstart
    }

    /** deflateInit2, deflateReset and lm_init, as far as they concern these fields. */
    constructor (p: Params, limits: Limits, strategy: Strategy, level: nat, wrap: bool)
      requires p.Good() && (level > 0 ==> limits.Good())
      ensures Valid() && data == [] && input == [] && strstart == lookahead == base == blockStart == 0 && !matchAvailable
        && mark == 0 && History() == Past({}, {0}, {0}) && excused == {}
      ensures this.p == p && this.level == level && this.strategy == strategy && this.wrap == wrap && this.limits == limits
      ensures fresh(window) && fresh(prev) && fresh(head) && Plain()
    {
      hide Tracks, Check, Pow2;
      this.p, this.limits, this.strategy, this.level, this.wrap := p, limits, strategy, level, wrap;
      window := new byte[2 * p.wSize];
      prev := new nat[p.wSize];
      var h := new nat[Pow2(p.hashBits)](i => 0);
      head := h;
      insH, strstart, lookahead, blockStart, matchAvailable, adler := 0, 0, 0, 0, false, 1;
      matchLength, prevLength := MIN_MATCH - 1, MIN_MATCH - 1;
      input, next, data, base, ins, slots, mark := [], 0, [], 0, {}, {}, 0;
      inserted, excused, ends, forgets := {}, {}, {0}, {0};
      new;
      TracksNothing(p, window[..], head[..], prev[..], insH);
      TracksPlain();
    }

    lemma IsShaped()
      requires Valid()
      ensures Shaped()
    {
      hide Tracks, MatchAt, Check;
    }

    lemma ShowsNow()
      requires Valid()
      ensures Shows(p, window[..], strstart, lookahead, base, data) && blockStart <= strstart && 0 <= base + blockStart
    {
      hide Chained, Slotted, Rolled, MatchAt, Check, Shows;
    }

    lemma IsReading()
      requires Valid()
      ensures Reading()
    {
      hide Tracks, Check, MatchAt;
    }

    lemma InputIs()
      requires Valid()
      ensures next <= |input| && strstart + lookahead <= 2 * p.wSize && base + strstart + lookahead == |data|
    {
      hide MatchAt, Check, Waiting, Tracks;
      Positions();
    }

    lemma NotWaiting()
      requires Valid() && level <= 3
      ensures !matchAvailable
    {
      hide MatchAt, Check, Tracks;
    }

    /** Valid does not depend on where the block began. */
    twostate lemma BlockMoved()
      requires old(Valid()) && strstart == blockStart
      requires window[..] == old(window[..]) && prev[..] == old(prev[..]) && head[..] == old(head[..])
      requires strstart == old(strstart) && lookahead == old(lookahead) && base == old(base) && data == old(data)
      requires insH == old(insH) && ins == old(ins) && slots == old(slots) && matchAvailable == old(matchAvailable)
      requires matchLength == old(matchLength) && matchStart == old(matchStart) && prevLength == old(prevLength)
      requires adler == old(adler) && next == old(next) && input == old(input) && look == old(look) && mark == old(mark)
      requires History() == old(History()) && excused == old(excused)
      ensures Valid()
    {
      hide Tracks, MatchAt, Check, LookedAt, Shown, Complete;
    }

    lemma Positions()
      requires Tracking()
      ensures |window[..]| == 2 * p.wSize && strstart + lookahead <= 2 * p.wSize && base + strstart + lookahead == |data|
    {
      hide Chained, Slotted, Rolled;
    }

    lemma ByteAt()
      requires Standing() && lookahead >= 1
      ensures strstart < window.Length && base + strstart < |data| && window[strstart] == data[base + strstart]
    {
      hide Chained, Slotted, Rolled, Shows;
      ShowsAt(p, window[..], strstart, lookahead, base, data, strstart);
    }

    lemma Positioned()
      requires Standing()
      ensures |window[..]| == 2 * p.wSize && strstart + lookahead <= 2 * p.wSize && base + strstart + lookahead == |data|
    {
      hide Chained, Slotted, Rolled;
    }

    lemma WaitingIs()
      requires Waiting()
      ensures level <= 3 ==> !matchAvailable && matchLength < MIN_MATCH && prevLength == MIN_MATCH - 1
      ensures level > 3 ==> 1 <= matchLength <= MAX_MATCH && (matchAvailable ==> strstart >= 1)
      ensures level > 3 && matchLength >= MIN_MATCH ==> base + strstart >= 1
      ensures level > 3 && matchLength >= MIN_MATCH ==>
        matchAvailable && MatchAt(data, base + strstart - 1, base + matchStart, matchLength, p.MaxDist())
      ensures level > 3 && matchAvailable ==> Led(look, base + strstart - 1, matchLength, base + matchStart) && Better(look, matchLength)
    {
      hide MatchAt, Led;
    }

    lemma IsWaiting()
      requires level <= 3 ==> !matchAvailable && matchLength < MIN_MATCH && prevLength == MIN_MATCH - 1
      requires level > 3 ==> 1 <= matchLength <= MAX_MATCH && (matchAvailable ==> strstart >= 1)
      requires level > 3 && matchLength >= MIN_MATCH ==> base + strstart >= 1
      requires level > 3 && matchLength >= MIN_MATCH ==>
        matchAvailable && MatchAt(data, base + strstart - 1, base + matchStart, matchLength, p.MaxDist())
      requires level > 3 && matchAvailable ==> Led(look, base + strstart - 1, matchLength, base + matchStart) && Better(look, matchLength)
      ensures Waiting()
    {
      hide MatchAt, Led;
    }

    /** Later searches know no more than is kept. */
    twostate lemma KeptLater()
      requires old(Kept()) && SameInserted(old(ins), old(base), ins, base) && mark == old(mark)
      requires History() == old(History()) && excused == old(excused)
      requires base + strstart == old(base + strstart) && (base == old(base) || strstart >= p.MaxDist())
      ensures Kept()
    {
      hide Shown, Complete, SameInserted;
      ShownSlide(old(ins), old(base), ins, base, mark, inserted);
    }

    lemma LedIs(l: Look, at: int, length: nat, start: int)
      requires Led(l, at, length, start)
      ensures LookedAt(data, Rule(), History(), l, at, l.least) && length == Answer(Rule(), l) && l.from == mark
        && (length >= MIN_MATCH ==> start == l.start)
    {
      hide LookedAt;
    }

    /** More data, and more that has happened. */
    lemma LedMore(l: Look, at: int, length: nat, start: int, data0: seq<byte>, h0: Past)
      requires data0 <= data && LookedAt(data0, Rule(), h0, l, at, l.least) && length == Answer(Rule(), l) && l.from == mark
      requires Later(h0, History(), at) && (length >= MIN_MATCH ==> start == l.start)
      ensures Led(l, at, length, start)
    {
      hide LookedAt, Later;
      assert data == data0 + data[|data0|..];
      LookedMore(data0, Rule(), h0, l, at, l.least, data[|data0|..], History(), at);
    }

    method Store(strstart: nat, lookahead: nat, insH: nat, blockStart: int, matchStart: int, next: nat, adler: Adler32.word,
                 ghost base: nat, ghost data: seq<byte>, ghost ins: set<nat>)
      modifies this`insH, this`strstart, this`lookahead, this`blockStart, this`matchStart, this`next, this`adler, this`data,
               this`base, this`ins
      ensures this.strstart == strstart && this.lookahead == lookahead && this.insH == insH && this.blockStart == blockStart
      ensures this.matchStart == matchStart && this.next == next && this.adler == adler
      ensures this.base == base && this.data == data && this.ins == ins
    {
      this.strstart, this.lookahead, this.insH, this.blockStart, this.matchStart := strstart, lookahead, insH, blockStart, matchStart;
      this.next, this.adler, this.base, this.data, this.ins := next, adler, base, data, ins;
    }

    /** fill_window, but for the match that is waiting. */
    method FillAll()
      requires Shaped() && Tracking() && Reading() && lookahead < MIN_LOOKAHEAD
      modifies this`insH, this`strstart, this`lookahead, this`blockStart, this`matchStart, this`next, this`adler, this`data,
               this`base, this`ins, window, prev, head
      ensures old(next) <= next <= |input| && Tracking() && Reading() && data == old(data) + input[old(next)..next]
      ensures lookahead == old(lookahead) + (next - old(next)) && (lookahead >= MIN_LOOKAHEAD || next == |input|)
      ensures strstart + MIN_LOOKAHEAD <= 2 * p.wSize && base + strstart == old(base + strstart)
      ensures base + blockStart == old(base + blockStart) && base + matchStart == old(base + matchStart)
      ensures base == old(base) || (strstart >= p.MaxDist() && old(strstart) >= p.wSize + p.MaxDist())
      ensures SameInserted(old(ins), old(base), ins, base)
    {
      hide Tracks, Check, Pow2, SameInserted;
      var a, b, c, d, e, f, g;
      ghost var h, i, j;
      a, b, c, d, e, f, g, h, i, j :=
        FillWindow(p, window, prev, head, strstart, lookahead, insH, blockStart, matchStart, input, next, wrap, adler, base, data,
                   ins, slots);
      Store(a, b, c, d, e, f, g, h, i, j);
    }

    /** fill_window */
    method Fill()
      requires Valid() && lookahead < MIN_LOOKAHEAD
      modifies this`insH, this`strstart, this`lookahead, this`blockStart, this`matchStart, this`next, this`adler, this`data,
               this`base, this`ins, window, prev, head
      ensures old(next) <= next <= |input| && Valid() && data == old(data) + input[old(next)..next]
      ensures lookahead == old(lookahead) + (next - old(next)) && (lookahead >= MIN_LOOKAHEAD || next == |input|)
      ensures strstart + MIN_LOOKAHEAD <= 2 * p.wSize && At() == old(At()) && base + blockStart == old(base + blockStart)
      ensures base == old(base) || old(strstart) >= p.wSize + p.MaxDist()
    {
      hide Tracking, Reading, Waiting, MatchAt, Check, Pow2, Led, Kept, SameInserted, LookedAt, Answer;
      ghost var d0, at, from := data, base + strstart - 1, base + matchStart;
      WaitingIs();
      if level > 3 && matchAvailable {
        LedIs(look, at, matchLength, from);
      }
      FillAll();
      KeptLater();
      if level > 3 && matchAvailable {
        LedMore(look, at, matchLength, from, d0, History());
      }
      if level > 3 && matchLength >= MIN_MATCH {
        MatchLater(d0, at, from, matchLength, p.MaxDist(), input[old(next)..next]);
      }
      IsWaiting();
    }

    /** INSERT_STRING at strstart, if there are three bytes. */
    method Insert(hashHead0: nat) returns (hashHead: nat)
      requires Shaped() && Tracking() && Kept() && Stale(p.wSize, hashHead0, slots)
      modifies this`insH, this`ins, this`slots, this`inserted, this`excused, prev, head
      ensures Standing() && Usable(hashHead) && Kept() && Stood() && ins == old(ins) + if lookahead >= MIN_MATCH then {strstart} else {}
      ensures inserted == old(inserted) + (if lookahead >= MIN_MATCH then {At()} else {})
      ensures excused == old(excused) + if lookahead >= MIN_MATCH then {} else {At()}
    {
      hide Tracks, Inserted, Hash3, Complete, Shown;
      InsertShown(ins, inserted, excused, base, mark, strstart);
      insH, hashHead, ins, slots := InsertNow(p, window, prev, head, insH, strstart, lookahead, hashHead0, ins, slots, base, data);
      if lookahead >= MIN_MATCH {
        inserted := inserted + {base + strstart};
      } else {
        excused := excused + {base + strstart};
      }
    }

    /** The head of the chain for the string at strstart; with fewer than three bytes ahead, an old one. */
    ghost predicate Usable(hashHead: nat)
      reads this`strstart, this`lookahead, this`ins, this`slots, window, prev
    {
      && p.wSize > 0 && Stale(p.wSize, hashHead, slots)
      && (lookahead >= MIN_MATCH ==> strstart in ins && prev.Length == p.wSize && prev[strstart % p.wSize] == hashHead)
      && (lookahead >= MIN_MATCH && hashHead != 0 ==>
            hashHead in ins && hashHead < strstart && hashHead + 3 <= window.Length && strstart + 3 <= window.Length
            && HashAt(p, window[..], hashHead) == HashAt(p, window[..], strstart))
    }

    /** There is enough lookahead for the longest match and the string after it, or all input has been read. */
    ghost predicate Supplied()
      reads this`lookahead, this`next, this`input
    {
      lookahead >= MIN_LOOKAHEAD || next == |input|
    }

    /** The search of deflate_fast. */
    method SearchFast(hashHead: nat)
      requires Shaped() && 0 < level <= 3 && Standing() && Kept() && Supplied() && Reading() && Usable(hashHead) && matchLength < MIN_MATCH
        && prevLength == MIN_MATCH - 1
      requires strstart + MIN_LOOKAHEAD <= 2 * p.wSize && lookahead >= 1
      modifies this`matchLength, this`matchStart, this`look
      ensures Led(look, At(), matchLength, base + matchStart) && look.least == MIN_MATCH - 1
      ensures matchLength >= MIN_MATCH ==>
        matchLength <= lookahead && matchLength <= MAX_MATCH && MatchAt(data, At(), base + matchStart, matchLength, p.MaxDist())
    {
      hide Inserted, Hash3, MatchAt, Stale, Sought, Thorough, Deep, Shown, Complete, Check;
      ghost var seen;
      Positioned();
      matchLength, matchStart, seen :=
        FindFast(p, limits, strategy, window, prev, strstart, lookahead, hashHead, prevLength, matchLength, matchStart, head[..],
                 ins, slots, insH, base, data);
      look := LookOf(strstart, lookahead, base, prevLength, matchLength, matchStart, seen, mark);
      SoughtIsThorough(p, limits, strategy, window[..], head[..], prev[..], ins, slots, insH, strstart, lookahead, base, data,
                       prevLength, hashHead, matchLength, matchStart, seen, mark, inserted);
      if matchLength >= MIN_MATCH {
        FoundInData(matchLength, matchStart);
      }
    }

    /** A match in the window is one in the data. */
    lemma FoundInData(length: nat, start: int)
      requires Standing() && Found(p, window[..], strstart, lookahead, length, start)
      ensures MatchAt(data, At(), base + start, length, p.MaxDist())
    {
      hide Chained, Slotted, Rolled, MatchAt;
      MatchWithin(window[..], data, base, strstart + lookahead, strstart, start, length, p.MaxDist());
    }

    /** The lazy search of deflate_slow: the match found before, if any, is the one to beat. */
    method SearchSlow(hashHead: nat)
      requires Shaped() && level > 3 && Standing() && Kept() && Supplied() && Reading() && Usable(hashHead) && 1 <= matchLength <= MAX_MATCH
      requires strstart + MIN_LOOKAHEAD <= 2 * p.wSize && lookahead >= 1
      modifies this`matchLength, this`matchStart, this`prevLength, this`prevMatch, this`look, this`prevLook
      ensures prevLength == old(matchLength) && prevMatch == old(matchStart) && 1 <= matchLength <= MAX_MATCH
      ensures prevLook == old(look) && Led(look, At(), matchLength, base + matchStart) && look.least == prevLength
      ensures matchLength >= MIN_MATCH && matchLength > prevLength ==>
        MatchAt(data, At(), base + matchStart, matchLength, p.MaxDist())
    {
      hide Inserted, Hash3, MatchAt, Stale, LookedFor, Kept, Led, Reading;
      prevLength, prevMatch, prevLook := matchLength, matchStart, look;
      ghost var longest, seen := FindBetter(hashHead);
      look := SlowLook(hashHead, longest, seen);
    }

    /** The search itself, for a match longer than prevLength. */
    method FindBetter(hashHead: nat) returns (ghost longest: nat, ghost seen: seq<nat>)
      requires Shaped() && level > 3 && Standing() && Usable(hashHead) && 1 <= prevLength <= MAX_MATCH
      requires strstart + MIN_LOOKAHEAD <= 2 * p.wSize && lookahead >= 1
      modifies this`matchLength, this`matchStart
      ensures 1 <= matchLength <= MAX_MATCH && LookedFor(hashHead, longest, seen)
      ensures matchLength >= MIN_MATCH && matchLength > prevLength ==>
        MatchAt(data, At(), base + matchStart, matchLength, p.MaxDist())
    {
      hide Inserted, Hash3, MatchAt, Stale, Sought, Accepted;
      matchLength, matchStart, longest, seen :=
        FindSlow(p, limits, strategy, window, prev, strstart, lookahead, hashHead, prevLength, matchStart, head[..],
                 ins, slots, insH, base, data);
      if matchLength >= MIN_MATCH && matchLength > prevLength {
        FoundInData(matchLength, matchStart);
      }
    }

    /** What it has found. */
    ghost predicate LookedFor(hashHead: nat, longest: nat, seen: seq<nat>)
      reads this`strstart, this`lookahead, this`prevLength, this`matchLength, this`matchStart, window, prev
    {
      && matchLength == Accepted(strategy, longest, strstart - matchStart)
      && if prevLength < limits.lazy
         then Sought(p, limits, strategy, window[..], prev[..], strstart, lookahead, prevLength, hashHead, longest, matchStart, seen)
         else seen == [] && longest == MIN_MATCH - 1
    }

    /** The record of a lazy search. */
    ghost method SlowLook(hashHead: nat, longest: nat, seen: seq<nat>) returns (l: Look)
      requires Shaped() && level > 3 && Standing() && Kept() && Supplied() && Reading() && Usable(hashHead) && lookahead >= 1
      requires LookedFor(hashHead, longest, seen)
      ensures Led(l, At(), matchLength, base + matchStart) && l.least == prevLength
    {
      hide Inserted, Hash3, MatchAt, Stale, Sought, Thorough, Deep, Shown, Complete, Accepted, Check;
      Positioned();
      if prevLength < limits.lazy {
        l := LookOf(strstart, lookahead, base, prevLength, longest, matchStart, seen, mark);
        SoughtIsThorough(p, limits, strategy, window[..], head[..], prev[..], ins, slots, insH, strstart, lookahead, base, data,
                         prevLength, hashHead, longest, matchStart, seen, mark, inserted);
      } else {
        l := NoLook(strstart, lookahead, base, prevLength, matchStart, mark);
        NoLookIsThorough(p.MaxDist(), limits, strategy, strstart, lookahead, base, data, prevLength, matchStart, mark, inserted);
      }
    }

    /** How far the strings of a match at strstart are inserted, in deflate_fast: all, or only the first. */
    function FastUpto(): int
      reads this`strstart, this`lookahead, this`matchLength
    {
      strstart + if matchLength <= limits.lazy && lookahead - matchLength >= MIN_MATCH then matchLength else 1
    }

    /** And in deflate_slow, where the match began one string before: those that have three bytes. */
    function SlowUpto(): int
      reads this`strstart, this`lookahead, this`prevLength
    {
      var last := strstart + lookahead - MIN_MATCH;
      if last + 1 <= strstart then strstart + 1 else if last + 1 <= strstart + prevLength - 1 then last + 1 else strstart + prevLength - 1
    }

    /** The strings after old strstart up to k are inserted, the others passed by. */
    twostate predicate Passed(k: int)
      reads this`ins, this`inserted, this`excused, this`strstart, this`base
    {
      && old(strstart) < k <= strstart && Adds(old(ins), ins, old(strstart), k - 1)
      && inserted == old(inserted) + Interval(old(At()) + 1, base + k) && excused == old(excused) + Interval(base + k, At())
    }

    /** Past the match of deflate_fast. */
    method PastFast(hashHead0: nat) returns (hashHead: nat)
      requires Shaped() && Standing() && MIN_MATCH <= matchLength <= lookahead && matchLength <= MAX_MATCH
      requires Stale(p.wSize, hashHead0, slots) && strstart + MIN_LOOKAHEAD <= 2 * p.wSize
      modifies this`insH, this`strstart, this`lookahead, this`matchLength, this`ins, this`slots, prev, head
      ensures Tracking() && Stale(p.wSize, hashHead, slots) && matchLength == 0
      ensures strstart == old(strstart + matchLength) && lookahead == old(lookahead - matchLength)
      ensures old(strstart) < old(FastUpto()) <= strstart && Adds(old(ins), ins, old(strstart), old(FastUpto()) - 1)
    {
      hide Tracks, Inserted, Adds;
      AddsNone(ins, strstart);
      insH, strstart, lookahead, hashHead, ins, slots :=
        PassFast(p, window, prev, head, insH, strstart, lookahead, matchLength, limits.lazy, hashHead0, ins, slots, base, data);
      matchLength := 0;
    }

    /** Keeping account of the strings of a match. */
    ghost method Note(ins0: set<nat>, s0: nat, k: nat)
      requires Deep(p.MaxDist(), s0, base) && Shown(ins0, base, mark, inserted) && mark <= base + s0 && mark in forgets
      requires Complete(inserted, excused, base + s0) && (base + s0 in inserted || base + s0 in excused)
      requires s0 < k <= strstart && Adds(ins0, ins, s0, k - 1)
      modifies this`inserted, this`excused
      ensures Kept() && inserted == old(inserted) + Interval(base + s0 + 1, base + k)
        && excused == old(excused) + Interval(base + k, base + strstart)
    {
      hide Shown, Complete, Adds;
      PassShown(ins0, inserted, ins, base, mark, s0, k);
      PassComplete(inserted, excused, base, s0, k, strstart);
      inserted, excused := inserted + Interval(base + s0 + 1, base + k), excused + Interval(base + k, base + strstart);
    }

    /** In deflate_fast, with the string at strstart looked up: a match for it, if its length says so. */
    ghost predicate LookedFast(hashHead: nat)
      reads this, window, prev, head
    {
      && Shaped() && 0 < level <= 3 && Standing() && Reading() && 0 <= base + blockStart && blockStart <= strstart
      && strstart + MIN_LOOKAHEAD <= 2 * p.wSize && lookahead >= 1 && Stale(p.wSize, hashHead, slots)
      && !matchAvailable && prevLength == MIN_MATCH - 1
      && (matchLength >= MIN_MATCH ==>
            matchLength <= lookahead && matchLength <= MAX_MATCH && MatchAt(data, At(), base + matchStart, matchLength, p.MaxDist()))
      && Kept() && Stood() && Supplied() && Led(look, At(), matchLength, base + matchStart) && look.least == MIN_MATCH - 1
    }

    method LookFast(hashHead0: nat) returns (hashHead: nat)
      requires Valid() && 0 < level <= 3 && lookahead >= 1 && Supplied() && strstart + MIN_LOOKAHEAD <= 2 * p.wSize
      requires Stale(p.wSize, hashHead0, slots)
      modifies this`insH, this`ins, this`slots, this`matchLength, this`matchStart, this`look, this`inserted, this`excused, prev, head
      ensures LookedFast(hashHead) && ins == old(ins) + if lookahead >= MIN_MATCH then {strstart} else {}
      ensures inserted == old(inserted) + if lookahead >= MIN_MATCH then {At()} else {}
      ensures excused == old(excused) + if lookahead >= MIN_MATCH then {} else {At()}
    {
      hide Tracks, Inserted, Hash3, MatchAt, Check, Led, Kept;
      hashHead := Insert(hashHead0);
      SearchFast(hashHead);
    }

    method PassMatchFast(hashHead0: nat) returns (hashHead: nat)
      requires LookedFast(hashHead0) && matchLength >= MIN_MATCH
      modifies this`insH, this`strstart, this`lookahead, this`matchLength, this`ins, this`slots, this`inserted, this`excused, prev, head
      ensures Valid() && Stale(p.wSize, hashHead, slots)
      ensures strstart == old(strstart + matchLength) && lookahead == old(lookahead - matchLength)
      ensures Passed(old(FastUpto()))
    {
      hide Tracks, Inserted, MatchAt, Check, Led, Adds, Shown, Complete;
      ghost var i0, s0, k := ins, strstart, FastUpto();
      hashHead := PastFast(hashHead0);
      Note(i0, s0, k);
    }

    method PassByteFast(ghost hashHead: nat)
      requires LookedFast(hashHead) && matchLength < MIN_MATCH
      modifies this`strstart, this`lookahead
      ensures Valid() && Stale(p.wSize, hashHead, slots)
      ensures strstart == old(strstart) + 1 && lookahead == old(lookahead) - 1
    {
      hide Tracks, Inserted, MatchAt, Check, Stale, Led, Kept;
      Advance();
    }

    lemma LookedFastIs(hashHead: nat)
      requires LookedFast(hashHead)
      ensures strstart < window.Length == 2 * p.wSize && At() < |data| && window[strstart] == data[At()] && !matchAvailable
      ensures strstart + MIN_LOOKAHEAD <= 2 * p.wSize && lookahead >= 1
      ensures matchLength >= MIN_MATCH ==>
        matchLength <= lookahead && matchLength <= MAX_MATCH && MatchAt(data, At(), base + matchStart, matchLength, p.MaxDist())
    {
      hide Tracks, Inserted, MatchAt, Check, Stale, Led, Kept;
      ByteAt();
    }

    lemma FastComplete(hashHead: nat)
      requires LookedFast(hashHead)
      ensures Complete(inserted, excused, At())
    {
      hide Inserted, MatchAt, Check, Stale, Led;
    }

    lemma LevelFast(hashHead: nat)
      requires LookedFast(hashHead)
      ensures level <= 3 && (matchLength >= MIN_MATCH ==> matchLength <= lookahead && matchLength <= MAX_MATCH)
    {
      hide Inserted, MatchAt, Check, Stale, Led, Kept;
    }

    /** With little ahead, all of the input has been read. */
    lemma FastAhead(hashHead: nat)
      requires LookedFast(hashHead)
      ensures base + strstart + lookahead == |data| && lookahead >= 1 && (lookahead < MIN_LOOKAHEAD ==> |data| in ends)
    {
      hide Inserted, MatchAt, Check, Stale, Led, Kept;
      Positioned();
    }

    lemma LookedFastLed(hashHead: nat)
      requires LookedFast(hashHead)
      ensures level <= 3 && Led(look, At(), matchLength, base + matchStart) && look.least == MIN_MATCH - 1
    {
      hide Inserted, MatchAt, Check, Stale, Led, Kept;
    }

    /** Past the match of deflate_slow, which began one byte back. */
    method PastSlow(hashHead0: nat) returns (hashHead: nat)
      requires Shaped() && Standing() && MIN_MATCH <= prevLength <= lookahead + 1 && strstart >= 1
      requires Stale(p.wSize, hashHead0, slots)
      modifies this`insH, this`strstart, this`lookahead, this`prevLength, this`matchAvailable, this`matchLength, this`ins,
               this`slots, prev, head
      ensures Tracking() && Stale(p.wSize, hashHead, slots) && matchLength == MIN_MATCH - 1 && !matchAvailable
        && prevLength == 0
      ensures strstart == old(strstart + prevLength) - 1 && lookahead == old(lookahead - prevLength) + 1
      ensures old(strstart) < old(SlowUpto()) <= strstart && Adds(old(ins), ins, old(strstart), old(SlowUpto()) - 1)
    {
      hide Tracks, Inserted, Adds;
      ghost var i0, s0, k := ins, strstart, SlowUpto();
      ghost var last: int := strstart + lookahead - MIN_MATCH;
      insH, strstart, lookahead, prevLength, hashHead, ins, slots :=
        PassSlow(p, window, prev, head, insH, strstart, lookahead, prevLength, hashHead0, ins, slots, base, data);
      matchAvailable, matchLength := false, MIN_MATCH - 1;
      AddsUpto(i0, ins, s0, Smaller(strstart - 1, last), k);
    }

    /** On to the next byte. */
    method Advance()
      requires Standing() && lookahead >= 1
      modifies this`strstart, this`lookahead
      ensures Tracking() && strstart == old(strstart) + 1 && lookahead == old(lookahead) - 1
      ensures old(Kept() && Stood()) ==> Kept()
    {
      hide Tracks, Inserted;
      StepOne(p, window[..], head[..], prev[..], ins, slots, insH, strstart, lookahead, base, data);
      strstart, lookahead := strstart + 1, lookahead - 1;
    }

    // -------------------------------------------------------------- lazy evaluation

    /** In deflate_slow, with the string at strstart looked up: the match that was waiting, and a better one if there is one. */
    ghost predicate LookedSlow(hashHead: nat)
      reads this, window, prev, head
    {
      && Shaped() && level > 3 && Standing() && Reading() && 0 <= base + blockStart && blockStart <= strstart
      && strstart + MIN_LOOKAHEAD <= 2 * p.wSize && lookahead >= 1 && Stale(p.wSize, hashHead, slots)
      && 1 <= matchLength <= MAX_MATCH && 1 <= prevLength <= MAX_MATCH && (matchAvailable ==> strstart >= 1)
      && (prevLength >= MIN_MATCH ==>
            matchAvailable && MatchAt(data, At() - 1, base + prevMatch, prevLength, p.MaxDist()))
      && (matchLength >= MIN_MATCH && matchLength > prevLength ==>
            MatchAt(data, At(), base + matchStart, matchLength, p.MaxDist()))
      && Kept() && Stood() && Supplied() && Led(look, At(), matchLength, base + matchStart) && look.least == prevLength
      && (matchAvailable ==> Led(prevLook, At() - 1, prevLength, base + prevMatch) && Better(prevLook, prevLength))
    }

    method LookSlow(hashHead0: nat) returns (hashHead: nat)
      requires Valid() && level > 3 && lookahead >= 1 && Supplied() && strstart + MIN_LOOKAHEAD <= 2 * p.wSize
      requires Stale(p.wSize, hashHead0, slots)
      modifies this`insH, this`ins, this`slots, this`matchLength, this`matchStart, this`prevLength, this`prevMatch, this`look,
               this`prevLook, this`inserted, this`excused, prev, head
      ensures LookedSlow(hashHead) && ins == old(ins) + if lookahead >= MIN_MATCH then {strstart} else {}
      ensures inserted == old(inserted) + if lookahead >= MIN_MATCH then {At()} else {}
      ensures excused == old(excused) + if lookahead >= MIN_MATCH then {} else {At()}
    {
      hide Tracks, Inserted, Hash3, MatchAt, Check, Led, Kept, LookedAt, Answer;
      ghost var at, length, start, h0 := At() - 1, matchLength, base + matchStart, History();
      if matchAvailable {
        LedIs(look, at, length, start);
      }
      hashHead := Insert(hashHead0);
      if matchAvailable {
        LedMore(look, at, length, start, data, h0);
      }
      SearchSlow(hashHead);
    }

    lemma LookedSlowIs(hashHead: nat)
      requires LookedSlow(hashHead)
      ensures Shows(p, window[..], strstart, lookahead, base, data) && blockStart <= strstart && 0 <= base + blockStart
      ensures strstart + MIN_LOOKAHEAD <= 2 * p.wSize && lookahead >= 1 && window.Length == 2 * p.wSize
      ensures prevLength <= MAX_MATCH && prevLength >= MIN_MATCH ==>
        matchAvailable && MatchAt(data, At() - 1, base + prevMatch, prevLength, p.MaxDist())
      ensures matchAvailable ==> 1 <= strstart && At() - 1 < |data| && window[strstart - 1] == data[At() - 1]
      ensures prevLength <= MAX_MATCH
    {
      hide Led, Kept, Chained, Slotted, Rolled, Shows, MatchAt, Check, Stale;
      if matchAvailable {
        ShowsAt(p, window[..], strstart, lookahead, base, data, strstart - 1);
      }
    }

    /** The searches that decide about what is waiting. */
    lemma LookedSlowLed(hashHead: nat)
      requires LookedSlow(hashHead)
      ensures Led(look, At(), matchLength, base + matchStart) && look.least == prevLength
      ensures matchAvailable ==> Led(prevLook, At() - 1, prevLength, base + prevMatch) && Better(prevLook, prevLength)
    {
      hide Led, Kept, Inserted, MatchAt, Check, Stale;
    }

    lemma SlowComplete(hashHead: nat, n: int)
      requires LookedSlow(hashHead) && n <= At()
      ensures Complete(inserted, excused, n)
    {
      hide Inserted, MatchAt, Check, Stale, Led;
    }

    lemma AllComplete(n: int)
      requires Valid() && n <= At()
      ensures Complete(inserted, excused, n)
    {
      hide Tracks, MatchAt, Check, Stale, Led;
    }

    lemma SlowAhead(hashHead: nat)
      requires LookedSlow(hashHead)
      ensures base + strstart + lookahead == |data| && lookahead >= 1 && (lookahead < MIN_LOOKAHEAD ==> |data| in ends)
    {
      hide Inserted, MatchAt, Check, Stale, Led, Kept;
      Positioned();
    }

    /** Where the strings of the waiting match stop being inserted. */
    lemma SlowLimits(hashHead: nat)
      requires LookedSlow(hashHead) && prevLength >= MIN_MATCH
      ensures prevLength <= lookahead + 1 && strstart >= 1 && strstart < SlowUpto() <= strstart + prevLength - 1
      ensures SlowUpto() < strstart + prevLength - 1 ==> base + SlowUpto() + MIN_MATCH > |data| && |data| in ends
    {
      hide Inserted, MatchAt, Check, Stale, Led, Kept;
      WaitingFits(hashHead);
      SlowAhead(hashHead);
    }

    lemma LevelIs(hashHead: nat)
      requires LookedSlow(hashHead)
      ensures level > 3
    {
      hide Inserted, Check, MatchAt, Led, Kept;
    }

    lemma WaitingFits(hashHead: nat)
      requires LookedSlow(hashHead) && prevLength >= MIN_MATCH
      ensures prevLength <= lookahead + 1 && strstart >= 1
    {
      hide Inserted, Check, Led, Kept;
      Positioned();
    }

    method PassMatchSlow(hashHead0: nat) returns (hashHead: nat)
      requires LookedSlow(hashHead0) && prevLength >= MIN_MATCH
      modifies this`insH, this`strstart, this`lookahead, this`prevLength, this`matchAvailable, this`matchLength, this`ins,
               this`slots, this`inserted, this`excused, prev, head
      ensures Valid() && Stale(p.wSize, hashHead, slots) && !matchAvailable && prevLength == 0
      ensures strstart == old(strstart + prevLength) - 1 && lookahead == old(lookahead - prevLength) + 1
      ensures Passed(old(SlowUpto()))
    {
      hide Tracking, Standing, Waiting, MatchAt, Stale, Check, Shaped, Led, Shown, Complete, Adds;
      ghost var i0, s0, k := ins, strstart, SlowUpto();
      WaitingFits(hashHead0);
      hashHead := PastSlow(hashHead0);
      Note(i0, s0, k);
      IsWaiting();
    }

    /** On to the next byte, with this one waiting. */
    method PassByteSlow(ghost hashHead: nat)
      requires LookedSlow(hashHead) && !(prevLength >= MIN_MATCH && matchLength <= prevLength)
      modifies this`strstart, this`lookahead, this`matchAvailable
      ensures Valid() && Stale(p.wSize, hashHead, slots) && matchAvailable
      ensures strstart == old(strstart) + 1 && lookahead == old(lookahead) - 1
    {
      hide Tracks, Inserted, MatchAt, Check, Stale, Led, Kept;
      matchAvailable := true;
      Advance();
    }

    /** LookedSlow does not depend on where the block began. */
    twostate lemma BlockMovedSlow(hashHead: nat)
      requires old(LookedSlow(hashHead)) && strstart == blockStart
      requires window[..] == old(window[..]) && prev[..] == old(prev[..]) && head[..] == old(head[..])
      requires strstart == old(strstart) && lookahead == old(lookahead) && base == old(base) && data == old(data)
      requires insH == old(insH) && ins == old(ins) && slots == old(slots) && matchAvailable == old(matchAvailable)
      requires matchLength == old(matchLength) && matchStart == old(matchStart) && prevLength == old(prevLength)
      requires prevMatch == old(prevMatch) && adler == old(adler) && next == old(next) && input == old(input)
      requires look == old(look) && prevLook == old(prevLook) && mark == old(mark)
      requires History() == old(History()) && excused == old(excused)
      ensures LookedSlow(hashHead)
    {
      hide Inserted, MatchAt, Check, Stale, LookedAt, Shown, Complete;
    }

    /** With no input ahead, what was waiting was a byte only. */
    method StopWaiting()
      requires Valid() && lookahead == 0 && level > 3
      modifies this`matchAvailable
      ensures Valid() && !matchAvailable
    {
      hide Tracks, Check, Led, Kept;
      Positions();
      matchAvailable := false;
    }

    lemma LastByte()
      requires Valid() && matchAvailable && level > 3
      ensures 1 <= strstart && strstart - 1 < window.Length && 0 <= At() - 1 < |data|
        && window[strstart - 1] == data[At() - 1]
    {
      hide Chained, Slotted, Rolled, Shows, MatchAt, Check;
      ShowsAt(p, window[..], strstart, lookahead, base, data, strstart - 1);
    }

    /** next_in and avail_in of a call. */
    method Take(input: seq<byte>)
      requires if level == 0 then Plain() else Valid()
      modifies this`input, this`next, this`ends
      ensures (if level == 0 then Plain() else Valid()) && this.input == input && next == 0
      ensures ends == old(ends) + {|data| + |input|}
    {
      hide Tracks, Check, MatchAt, Led, Kept, LookedAt, Answer;
      ghost var at, h0 := At() - 1, History();
      if level > 3 && matchAvailable {
        LedIs(look, at, matchLength, base + matchStart);
      }
      this.input, next := input, 0;
      ends := ends + {|data| + |input|};
      if level > 3 && matchAvailable {
        LedMore(look, at, matchLength, base + matchStart, data, h0);
      }
    }

    // -------------------------------------------------------------- forgetting

    /** No string from strstart on has been inserted. */
    lemma NothingAhead()
      requires Tracking() && Kept()
      ensures forall y: nat {:trigger y in inserted} | y in inserted :: y < At()
    {
      hide Shows, Slotted, Rolled, HashAt, NoneBetween, Complete;
      forall y: nat {:trigger y in inserted} | y in inserted ensures y < At() {
        if y >= base && y >= mark {
          assert y - base in ins;
        }
      }
    }

    /** CLEAR_HASH */
    method ClearHash()
      requires if level == 0 then Plain() else Valid() && !matchAvailable
      modifies this`ins, this`mark, this`forgets, head
      ensures (if level == 0 then Plain() else Valid()) && mark == At() && forgets == old(forgets) + {At()}
    {
      hide Tracks, Check, MatchAt, Led, Complete;
      ghost var h0 := head[..];
      if level > 0 {
        NothingAhead();
      }
      ZeroHead();
      if level > 0 {
        TracksCleared(p, window[..], h0, prev[..], ins, slots, insH, strstart, lookahead, base, data, head[..]);
      }
      ins, mark, forgets := {}, base + strstart, forgets + {base + strstart};
    }

    method ZeroHead()
      modifies head
      ensures forall i | 0 <= i < head.Length :: head[i] == 0
    {
      for n := 0 to head.Length
        invariant forall i | 0 <= i < n :: head[i] == 0
      {
        head[n] := 0;
      }
    }

    // -------------------------------------------------------------- without compression

    /** At level 0 nothing is inserted. */
    ghost predicate Plain()
      reads this, window, prev, head
    {
      && Shaped() && Shows(p, window[..], strstart, lookahead, base, data) && Reading() && ins == {}
      && prev.Length == p.wSize && head.Length == Pow2(p.hashBits) && forall h | 0 <= h < head.Length :: head[h] == 0
    }

    lemma PlainShows()
      requires Plain()
      ensures Shows(p, window[..], strstart, lookahead, base, data) && 512 <= p.wSize <= 32768 && next <= |input|
      ensures strstart + lookahead <= window.Length == 2 * p.wSize && base + strstart + lookahead == |data|
    {
      hide Check, Pow2;
    }

    lemma PlainTracks()
      requires Plain() && lookahead < MIN_MATCH
      ensures Tracks(p, window[..], head[..], prev[..], {}, {}, insH, strstart, lookahead, base, data)
    {
      hide Check, Pow2, Shows, Rolled;
      PlainShows();
      ChainedNone(p, window[..], head[..], prev[..], strstart, strstart + lookahead);
    }

    lemma TracksPlain()
      requires Shaped() && Tracking() && Reading() && ins == {}
      ensures Plain()
    {
      hide Check, Pow2, Shows, Rolled;
      forall h | 0 <= h < head.Length ensures head[h] == 0 {
        assert head[..][h] == head[h];
      }
    }

    /** fill_window, at level 0. */
    method FillPlain()
      requires Plain() && lookahead < MIN_MATCH
      modifies this, window, prev, head
      ensures ends == old(ends) && forgets == old(forgets)
      ensures old(next) <= next <= |input| && Plain() && data == old(data) + input[old(next)..next] && input == old(input)
      ensures lookahead == old(lookahead) + (next - old(next)) && (lookahead >= MIN_LOOKAHEAD || next == |input|)
      ensures base + strstart == old(base + strstart) && base + blockStart == old(base + blockStart)
      ensures base == old(base) || strstart >= p.MaxDist()
    {
      hide Plain, Check, Tracks;
      PlainTracks();
      PlainParts();
      slots := {};
      assert Tracking();
      var a, b, c, d, e, f, g;
      ghost var h, i, j;
      a, b, c, d, e, f, g, h, i, j :=
        FillWindow(p, window, prev, head, strstart, lookahead, insH, blockStart, matchStart, input, next, wrap, adler, base, data,
                   ins, slots);
      Store(a, b, c, d, e, f, g, h, i, j);
      TracksPlain();
    }

    lemma PlainParts()
      requires Plain()
      ensures Shaped() && Reading() && ins == {}
    {
      hide Check, Shows;
    }

    /** The same bytes, divided otherwise at strstart. */
    method MoveTo(s: nat)
      requires Plain() && s <= strstart + lookahead
      modifies this`strstart, this`lookahead
      ensures Plain() && strstart == s && strstart + lookahead == old(strstart + lookahead)
        && base + strstart + lookahead == |data|
    {
      hide Check;
      strstart, lookahead := s, strstart + lookahead - s;
    }
  }

  /** With empty chains. */
  lemma TracksCleared(p: Params, win: seq<byte>, head: seq<nat>, prev: seq<nat>, ins: set<nat>, slots: set<nat>, insH: nat, s: nat,
                      lookahead: nat, base: nat, data: seq<byte>, head': seq<nat>)
    requires Tracks(p, win, head, prev, ins, slots, insH, s, lookahead, base, data) && |head'| == |head|
    requires forall i | 0 <= i < |head'| :: head'[i] == 0
    ensures Tracks(p, win, head', prev, {}, slots, insH, s, lookahead, base, data)
  {
    hide Chained, Slotted, Rolled, Shows;
    ChainedCleared(p, win, head, prev, ins, s, s + lookahead, head');
    SlottedCleared(p.wSize, head, prev, slots, s, head');
  }

  lemma TracksNothing(p: Params, win: seq<byte>, head: seq<nat>, prev: seq<nat>, insH: nat)
    requires |win| == 2 * p.wSize && p.wSize > 0 && |prev| == p.wSize && |head| == Pow2(p.hashBits)
    requires forall i | 0 <= i < |head| :: head[i] == 0
    ensures Tracks(p, win, head, prev, {}, {}, insH, 0, 0, 0, []) && Check([]) == 1
  {
    hide Pow2;
    ChainedNone(p, win, head, prev, 0, 0);
  }
}
