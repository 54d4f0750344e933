/** What one step of deflate_fast and deflate_slow of src/ext/zlib/deflate.c does with the window: the string at strstart is
    inserted, a match for it is looked for, and the strings that a match covers are inserted. */
module Advancing {
  import opened Bits
  import opened Inflation
  import opened Hashing
  import opened Matching
  import opened Sliding

  datatype Strategy = DefaultStrategy | Filtered | HuffmanOnly | Rle | Fixed

  const TOO_FAR := 4096

  /** Search limits, from the configuration table. */
  datatype Limits = Limits(good: nat, lazy: nat, nice: nat, chain: nat) {
    predicate Good() {
      3 <= lazy <= MAX_MATCH && 3 <= nice && chain >= 4
    }
  }

  /** As Tracks, with the string at `s` inserted, or too short for that. */
  ghost predicate Inserted(p: Params, win: seq<byte>, head: seq<nat>, prev: seq<nat>, ins: set<nat>, slots: set<nat>, insH: nat,
                           s: nat, lookahead: nat, base: nat, data: seq<byte>)
  {
    && Shows(p, win, s, lookahead, base, data)
    && Chained(p, win, head, prev, ins, s + 1, s + lookahead) && Slotted(p.wSize, head, prev, slots, s + 1)
    && (lookahead >= MIN_MATCH ==> Rolled(p, insH, win[s + 1], win[s + 2]))
  }

  /** A position that was the head of a chain, perhaps a while ago. */
  ghost predicate Stale(w: nat, q: nat, slots: set<nat>)
    requires w > 0
  {
    q == 0 || q % w in slots
  }

  lemma NotInserted(p: Params, win: seq<byte>, head: seq<nat>, prev: seq<nat>, ins: set<nat>, slots: set<nat>, insH: nat,
                    s: nat, lookahead: nat, base: nat, data: seq<byte>)
    requires Tracks(p, win, head, prev, ins, slots, insH, s, lookahead, base, data) && lookahead < MIN_MATCH
    ensures Inserted(p, win, head, prev, ins, slots, insH, s, lookahead, base, data)
  {
    hide Chained, Slotted, Rolled;
    ChainedShape(p, win, head, prev, ins, s, s + lookahead);
    assert win[..s + lookahead] == win[..s + lookahead];
    ChainedGrow(p, win, head, prev, ins, s, s + lookahead, win, s + 1, s + lookahead);
    SlottedMore(p.wSize, head, prev, slots, s, s + 1);
  }

  /** On to the next string. */
  lemma StepOne(p: Params, win: seq<byte>, head: seq<nat>, prev: seq<nat>, ins: set<nat>, slots: set<nat>, insH: nat,
                s: nat, lookahead: nat, base: nat, data: seq<byte>)
    requires Inserted(p, win, head, prev, ins, slots, insH, s, lookahead, base, data) && lookahead >= 1
    ensures Tracks(p, win, head, prev, ins, slots, insH, s + 1, lookahead - 1, base, data)
  {
    hide Chained, Slotted, Rolled;
  }

  /** Inserting the string at strstart, if there are three bytes. */
  method InsertNow(p: Params, window: array<byte>, prev: array<nat>, head: array<nat>, insH0: nat, s: nat, lookahead: nat,
                   hashHead0: nat, ghost ins0: set<nat>, ghost slots0: set<nat>, ghost base: nat, ghost data: seq<byte>)
    returns (insH: nat, hashHead: nat, ghost ins: set<nat>, ghost slots: set<nat>)
    requires p.Good() && prev != head && Stale(p.wSize, hashHead0, slots0)
    requires Tracks(p, window[..], head[..], prev[..], ins0, slots0, insH0, s, lookahead, base, data)
    modifies prev, head
    ensures Inserted(p, window[..], head[..], prev[..], ins, slots, insH, s, lookahead, base, data)
    ensures Stale(p.wSize, hashHead, slots) && slots0 <= slots && ins == (if lookahead >= MIN_MATCH then ins0 + {s} else ins0)
    ensures lookahead >= MIN_MATCH ==> prev.Length == p.wSize && prev[s % p.wSize] == hashHead
    ensures lookahead >= MIN_MATCH && hashHead != 0 ==>
      hashHead in ins && hashHead < s && hashHead + 3 <= |window[..]| && s + 3 <= |window[..]|
      && HashAt(p, window[..], hashHead) == HashAt(p, window[..], s)
  {
    hide Chained, Slotted, Rolled, HashAt, Shows;
    insH, hashHead, ins, slots := insH0, hashHead0, ins0, slots0;
    TracksShape(p, window[..], head[..], prev[..], ins, slots, insH, s, lookahead, base, data);
    if lookahead >= MIN_MATCH {
      ghost var win := window[..];
      insH, hashHead := InsertString(p, window, prev, head, insH, s, ins, slots, s, s + lookahead);
      ins, slots := ins + {s}, slots + {s % p.wSize};
      assert window[..] == win;
    } else {
      NotInserted(p, window[..], head[..], prev[..], ins, slots, insH, s, lookahead, base, data);
    }
  }

  /** When longest_match may be called. */
  lemma IsCandidate(p: Params, win: seq<byte>, head: seq<nat>, prev: seq<nat>, ins: set<nat>, slots: set<nat>, insH: nat,
                    s: nat, lookahead: nat, base: nat, data: seq<byte>, q: nat)
    requires p.Good() && Inserted(p, win, head, prev, ins, slots, insH, s, lookahead, base, data)
      && Stale(p.wSize, q, slots)
    requires q != 0 && q <= s && s - q <= p.MaxDist()
    requires lookahead >= MIN_MATCH ==> q in ins && q < s && s + 3 <= |win| && HashAt(p, win, q) == HashAt(p, win, s)
    ensures s + lookahead <= |win| == 2 * p.wSize && Candidate(p, win, ins, slots, s, lookahead, q)
    ensures Chained(p, win, head, prev, ins, s + 1, s + lookahead) && Slotted(p.wSize, head, prev, slots, s + 1)
  {
    hide Chained, Slotted, Rolled, HashAt;
  }

  // ---------------------------------------------------------------- looking for a match

  /** A match for the string at s, no longer than what is ahead. */
  ghost predicate Found(p: Params, win: seq<byte>, s: nat, lookahead: nat, length: nat, start: int) {
    length <= lookahead && length <= MAX_MATCH && MatchAt(win, s, start, length, p.MaxDist())
  }

  /** What a search for the string at s finds, where the head of its chain is hashHead and a match has to beat `least`. The positions
      `seen` are those on the chain, from its head on, as far as the distance and the number allowed go, unless the match is nice;
      with strategy Rle they are the position before s only. None of them has a longer match. */
  ghost predicate Sought(p: Params, l: Limits, strategy: Strategy, win: seq<byte>, prev: seq<nat>, s: nat, lookahead: nat, least: nat,
                         hashHead: nat, length: nat, start: int, seen: seq<nat>)
  {
    if hashHead == 0 || hashHead > s || s - hashHead > p.MaxDist() || strategy == HuffmanOnly || (strategy == Rle && s - hashHead != 1)
    then seen == [] && length < MIN_MATCH
    else
      && (length <= lookahead || length < MIN_MATCH) && (length < lookahead ==> NoneLonger(win, seen, s, length))
      && if strategy == Rle then seen == [hashHead] && (length >= MIN_MATCH ==> start == hashHead)
         else
           && Walked(prev, p.wSize, Limit(p, s), hashHead, seen) && |seen| <= ChainLimit(l.chain, least, l.good)
           && (length > least ==> start in seen)
           && (length < lookahead && length < l.nice ==>
                 WalkedOut(prev, p.wSize, Limit(p, s), seen, ChainLimit(l.chain, least, l.good)))
  }

  method FindFast(p: Params, l: Limits, strategy: Strategy, window: array<byte>, prev: array<nat>, s: nat, lookahead: nat,
                  hashHead: nat, prevLength: nat, length0: nat, start0: int, ghost head: seq<nat>, ghost ins: set<nat>,
                  ghost slots: set<nat>, ghost insH: nat, ghost base: nat, ghost data: seq<byte>)
    returns (length: nat, start: int, ghost seen: seq<nat>)
    requires p.Good() && l.Good() && s + MIN_LOOKAHEAD <= 2 * p.wSize && lookahead >= 1 && window.Length == 2 * p.wSize
    requires Inserted(p, window[..], head, prev[..], ins, slots, insH, s, lookahead, base, data)
    requires Stale(p.wSize, hashHead, slots) && length0 < MIN_MATCH && 1 <= prevLength < MIN_MATCH
    requires lookahead >= MIN_MATCH && hashHead != 0 ==>
      hashHead in ins && hashHead < s && hashHead + 3 <= |window[..]| && s + 3 <= |window[..]|
      && HashAt(p, window[..], hashHead) == HashAt(p, window[..], s)
    ensures length >= MIN_MATCH ==> Found(p, window[..], s, lookahead, length, start)
    ensures Sought(p, l, strategy, window[..], prev[..], s, lookahead, prevLength, hashHead, length, start, seen)
  {
    hide Chained, Slotted, Rolled, HashAt, Shows, Inserted, Candidate, MatchAt, Walked, WalkedOut, NoLonger, Limit, ChainLimit;
    length, start, seen := length0, start0, [];
    if hashHead != 0 && hashHead <= s && s - hashHead <= p.MaxDist() {
      IsCandidate(p, window[..], head, prev[..], ins, slots, insH, s, lookahead, base, data, hashHead);
      if strategy != HuffmanOnly && strategy != Rle {
        length, start, seen := LongestMatch(p, window, prev, s, lookahead, prevLength, l.chain, l.good, l.nice, hashHead, start, head,
                                            ins, slots);
      } else if strategy == Rle && s - hashHead == 1 {
        length, start := LongestMatchFast(p, window, s, lookahead, hashHead, start, ins, slots);
        seen := [hashHead];
      }
    }
  }

  /** Short matches are not worth their distance, or not with strategy Filtered. */
  function Accepted(strategy: Strategy, longest: nat, dist: int): nat {
    if longest <= 5 && (strategy == Filtered || (longest == MIN_MATCH && dist > TOO_FAR)) then MIN_MATCH - 1 else longest
  }

  /** The lazy search: only something better than prevLength counts, and there is none if that is good enough. */
  method FindSlow(p: Params, l: Limits, strategy: Strategy, window: array<byte>, prev: array<nat>, s: nat, lookahead: nat,
                  hashHead: nat, prevLength: nat, start0: int, ghost head: seq<nat>, ghost ins: set<nat>,
                  ghost slots: set<nat>, ghost insH: nat, ghost base: nat, ghost data: seq<byte>)
    returns (length: nat, start: int, ghost longest: nat, ghost seen: seq<nat>)
    requires p.Good() && l.Good() && s + MIN_LOOKAHEAD <= 2 * p.wSize && lookahead >= 1 && window.Length == 2 * p.wSize
    requires Inserted(p, window[..], head, prev[..], ins, slots, insH, s, lookahead, base, data)
    requires Stale(p.wSize, hashHead, slots) && 1 <= prevLength <= MAX_MATCH
    requires lookahead >= MIN_MATCH && hashHead != 0 ==>
      hashHead in ins && hashHead < s && hashHead + 3 <= |window[..]| && s + 3 <= |window[..]|
      && HashAt(p, window[..], hashHead) == HashAt(p, window[..], s)
    ensures 1 <= length <= MAX_MATCH && (length <= lookahead || length < MIN_MATCH)
    ensures length >= MIN_MATCH && length > prevLength ==> Found(p, window[..], s, lookahead, length, start)
    ensures length == Accepted(strategy, longest, s - start)
    ensures if prevLength < l.lazy
            then Sought(p, l, strategy, window[..], prev[..], s, lookahead, prevLength, hashHead, longest, start, seen)
            else seen == [] && longest == MIN_MATCH - 1
  {
    hide Chained, Slotted, Rolled, HashAt, Shows, Inserted, Candidate, MatchAt, Walked, WalkedOut, NoLonger, Limit, ChainLimit;
    length, start, longest, seen := MIN_MATCH - 1, start0, MIN_MATCH - 1, [];
    if hashHead != 0 && prevLength < l.lazy && hashHead <= s && s - hashHead <= p.MaxDist() {
      IsCandidate(p, window[..], head, prev[..], ins, slots, insH, s, lookahead, base, data, hashHead);
      if strategy != HuffmanOnly && strategy != Rle {
        length, start, seen := LongestMatch(p, window, prev, s, lookahead, prevLength, l.chain, l.good, l.nice, hashHead, start, head,
                                            ins, slots);
      } else if strategy == Rle && s - hashHead == 1 {
        length, start := LongestMatchFast(p, window, s, lookahead, hashHead, start, ins, slots);
        seen := [hashHead];
      }
      longest := length;
      if length <= 5 && (strategy == Filtered || (length == MIN_MATCH && s - start > TOO_FAR)) {
        length := MIN_MATCH - 1;
      }
    }
  }

  // ---------------------------------------------------------------- past a match

  /** One more string of a match. */
  method InsertNext(p: Params, window: array<byte>, prev: array<nat>, head: array<nat>, insH0: nat, s: nat, ghost lookahead: nat,
                    ghost ins0: set<nat>, ghost slots0: set<nat>, ghost base: nat, ghost data: seq<byte>)
    returns (insH: nat, hashHead: nat, ghost ins: set<nat>, ghost slots: set<nat>)
    requires p.Good() && prev != head && lookahead >= MIN_MATCH
    requires Tracks(p, window[..], head[..], prev[..], ins0, slots0, insH0, s, lookahead, base, data)
    modifies prev, head
    ensures Inserted(p, window[..], head[..], prev[..], ins, slots, insH, s, lookahead, base, data)
    ensures Stale(p.wSize, hashHead, slots) && ins == ins0 + {s}
  {
    hide Chained, Slotted, Rolled, HashAt, Shows;
    TracksShape(p, window[..], head[..], prev[..], ins0, slots0, insH0, s, lookahead, base, data);
    ghost var win := window[..];
    insH, hashHead := InsertString(p, window, prev, head, insH0, s, ins0, slots0, s, s + lookahead);
    ins, slots := ins0 + {s}, slots0 + {s % p.wSize};
    assert window[..] == win;
  }

  /** The window positions after a, up to b, are inserted too. */
  ghost predicate Adds(ins0: set<nat>, ins: set<nat>, a: nat, b: int) {
    forall q: nat {:trigger q in ins} :: q in ins <==> q in ins0 || a < q <= b
  }

  /** In deflate_fast: the strings of a short match are inserted, those of a long one are not. */
  method PassFast(p: Params, window: array<byte>, prev: array<nat>, head: array<nat>, insH0: nat, s0: nat, lookahead0: nat,
                  matchLength: nat, maxInsert: nat, hashHead0: nat, ghost ins0: set<nat>, ghost slots0: set<nat>, ghost base: nat,
                  ghost data: seq<byte>)
    returns (insH: nat, s: nat, lookahead: nat, hashHead: nat, ghost ins: set<nat>, ghost slots: set<nat>)
    requires p.Good() && prev != head && s0 + MIN_LOOKAHEAD <= 2 * p.wSize && window.Length == 2 * p.wSize
    requires MIN_MATCH <= matchLength <= lookahead0 && matchLength <= MAX_MATCH && Stale(p.wSize, hashHead0, slots0)
    requires Inserted(p, window[..], head[..], prev[..], ins0, slots0, insH0, s0, lookahead0, base, data)
    modifies prev, head
    ensures s == s0 + matchLength && lookahead == lookahead0 - matchLength
    ensures Tracks(p, window[..], head[..], prev[..], ins, slots, insH, s, lookahead, base, data)
    ensures Stale(p.wSize, hashHead, slots)
    ensures if matchLength <= maxInsert && lookahead0 - matchLength >= MIN_MATCH then Adds(ins0, ins, s0, s - 1) else ins == ins0
  {
    hide Inserted, Tracks;
    insH, s, lookahead, hashHead, ins, slots := insH0, s0, lookahead0 - matchLength, hashHead0, ins0, slots0;
    if matchLength <= maxInsert && lookahead >= MIN_MATCH {
      var left := matchLength - 1;
      while left != 0
        invariant 0 <= left && s + left == s0 + matchLength - 1
        invariant Inserted(p, window[..], head[..], prev[..], ins, slots, insH, s, lookahead0 - (s - s0), base, data)
        invariant Stale(p.wSize, hashHead, slots) && Adds(ins0, ins, s0, s)
        decreases left
      {
        StepOne(p, window[..], head[..], prev[..], ins, slots, insH, s, lookahead0 - (s - s0), base, data);
        s := s + 1;
        insH, hashHead, ins, slots :=
          InsertNext(p, window, prev, head, insH, s, lookahead0 - (s - s0), ins, slots, base, data);
        left := left - 1;
      }
      StepOne(p, window[..], head[..], prev[..], ins, slots, insH, s, lookahead0 - (s - s0), base, data);
      s := s + 1;
    } else {
      s := s + matchLength;
      insH := Update(p, window[s], window[s + 1]);
      PassedOver(p, window[..], head[..], prev[..], ins, slots, insH0, s0, lookahead0, base, data, matchLength, insH);
    }
  }

  lemma PassedOver(p: Params, win: seq<byte>, head: seq<nat>, prev: seq<nat>, ins: set<nat>, slots: set<nat>, insH0: nat, s: nat,
                   lookahead: nat, base: nat, data: seq<byte>, n: nat, insH: nat)
    requires p.Good() && Inserted(p, win, head, prev, ins, slots, insH0, s, lookahead, base, data) && 1 <= n <= lookahead
    requires s + n + 1 < |win| && insH == Update(p, win[s + n], win[s + n + 1])
    ensures Tracks(p, win, head, prev, ins, slots, insH, s + n, lookahead - n, base, data)
  {
    hide Chained, Slotted, Rolled, Update;
    assert win[..s + lookahead] == win[..s + lookahead];
    ChainedGrow(p, win, head, prev, ins, s + 1, s + lookahead, win, s + n, s + lookahead);
    SlottedMore(p.wSize, head, prev, slots, s + 1, s + n);
    RolledStart(p, win[s + n], win[s + n + 1]);
  }

  function Smaller(a: int, b: int): int {
    if a <= b then a else b
  }

  /** In deflate_slow, where the match began one string before s0: the strings that have three bytes are inserted. */
  method PassSlow(p: Params, window: array<byte>, prev: array<nat>, head: array<nat>, insH0: nat, s0: nat, lookahead0: nat,
                  prevLength0: nat, hashHead0: nat, ghost ins0: set<nat>, ghost slots0: set<nat>, ghost base: nat,
                  ghost data: seq<byte>)
    returns (insH: nat, s: nat, lookahead: nat, prevLength: nat, hashHead: nat, ghost ins: set<nat>, ghost slots: set<nat>)
    requires p.Good() && prev != head && MIN_MATCH <= prevLength0 <= lookahead0 + 1 && Stale(p.wSize, hashHead0, slots0)
    requires s0 >= 1
    requires Inserted(p, window[..], head[..], prev[..], ins0, slots0, insH0, s0, lookahead0, base, data)
    modifies prev, head
    ensures s == s0 + prevLength0 - 1 && lookahead == lookahead0 - (prevLength0 - 1) && prevLength == 0
    ensures Tracks(p, window[..], head[..], prev[..], ins, slots, insH, s, lookahead, base, data)
    ensures Stale(p.wSize, hashHead, slots) && Adds(ins0, ins, s0, Smaller(s - 1, s0 + lookahead0 - MIN_MATCH))
  {
    hide Inserted, Tracks;
    var maxInsert := s0 + lookahead0 - MIN_MATCH;
    insH, s, lookahead, hashHead, ins, slots := insH0, s0, lookahead0 - (prevLength0 - 1), hashHead0, ins0, slots0;
    prevLength := prevLength0 - 2;
    while prevLength != 0
      invariant s + prevLength == s0 + prevLength0 - 2
      invariant Inserted(p, window[..], head[..], prev[..], ins, slots, insH, s, lookahead0 - (s - s0), base, data)
      invariant Stale(p.wSize, hashHead, slots) && Adds(ins0, ins, s0, Smaller(s, maxInsert))
      decreases prevLength
    {
      StepOne(p, window[..], head[..], prev[..], ins, slots, insH, s, lookahead0 - (s - s0), base, data);
      s := s + 1;
      if s <= maxInsert {
        insH, hashHead, ins, slots :=
          InsertNext(p, window, prev, head, insH, s, lookahead0 - (s - s0), ins, slots, base, data);
      } else {
        NotInserted(p, window[..], head[..], prev[..], ins, slots, insH, s, lookahead0 - (s - s0), base, data);
      }
      prevLength := prevLength - 1;
    }
    StepOne(p, window[..], head[..], prev[..], ins, slots, insH, s, lookahead0 - (s - s0), base, data);
    s := s + 1;
  }
}
