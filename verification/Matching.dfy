/** longest_match and longest_match_fast of src/ext/zlib/deflate.c, and why a match stands for the bytes that it covers. */
module Matching {
  import opened Bits
  import opened Inflation
  import opened Simulation
  import opened Hashing

  // ---------------------------------------------------------------- what a match means

  /** The n bytes at `at` are those that begin at `from`, no further back than maxDist. */
  ghost predicate MatchAt(data: seq<byte>, at: nat, from: int, n: nat, maxDist: int) {
    && 0 <= from < at && at - from <= maxDist && at + n <= |data|
    && data[from..from + n] == data[at..at + n]
  }

  lemma MatchShorter(data: seq<byte>, at: nat, from: int, n: nat, m: nat, maxDist: int)
    requires MatchAt(data, at, from, n, maxDist) && m <= n
    ensures MatchAt(data, at, from, m, maxDist)
  {
    assert data[from..from + m] == data[from..from + n][..m];
    assert data[at..at + m] == data[at..at + n][..m];
  }

  /** The same in a part of the data. */
  lemma MatchWithin(win: seq<byte>, data: seq<byte>, base: nat, end: nat, at: nat, from: int, n: nat, maxDist: int)
    requires MatchAt(win, at, from, n, maxDist) && at + n <= end <= |win| && base + end == |data|
      && win[..end] == data[base..]
    ensures MatchAt(data, base + at, base + from, n, maxDist)
  {
    var part := data[base..];
    assert part[from..from + n] == win[from..from + n] && part[at..at + n] == win[at..at + n];
    assert part[from..from + n] == data[base + from..base + from + n] && part[at..at + n] == data[base + at..base + at + n];
  }

  lemma MatchLater(data: seq<byte>, at: nat, from: int, n: nat, maxDist: int, more: seq<byte>)
    requires MatchAt(data, at, from, n, maxDist)
    ensures MatchAt(data + more, at, from, n, maxDist)
  {
    assert (data + more)[from..from + n] == data[from..from + n] && (data + more)[at..at + n] == data[at..at + n];
  }

  /** Copying from a match's distance, byte by byte, gives the bytes that it covers, even where they overlap. */
  lemma {:induction false} MatchExpands(data: seq<byte>, at: nat, from: int, n: nat, maxDist: int)
    requires MatchAt(data, at, from, n, maxDist)
    ensures CopyBack(data[..at], n, at - from) == data[..at + n]
    decreases n
  {
    hide CopyBack;
    if n == 0 {
      NothingCopied(data[..at], at - from);
    } else {
      MatchShorter(data, at, from, n, n - 1, maxDist);
      MatchExpands(data, at, from, n - 1, maxDist);
      CopyBackNext(data[..at], n - 1, at - from);
      assert data[from + (n - 1)] == data[from..from + n][n - 1] == data[at..at + n][n - 1] == data[at + (n - 1)];
      assert data[..at + n - 1][at + (n - 1) - (at - from)] == data[from + (n - 1)];
      assert data[..at + n] == data[..at + n - 1] + [data[at + (n - 1)]];
    }
  }

  lemma NothingCopied(h: seq<byte>, d: nat)
    requires 1 <= d <= |h|
    ensures CopyBack(h, 0, d) == h
  {
  }

  // ---------------------------------------------------------------- comparing

  /** How far the bytes from offset 3 on agree, up to MAX_MATCH. The source looks at the end of the range only after every
      eighth comparison, which is at offset 258 exactly. */
  method MatchLength(window: array<byte>, scan: nat, match_: nat) returns (len: nat)
    requires match_ <= scan && scan + MAX_MATCH < window.Length
    ensures 3 <= len <= MAX_MATCH && window[match_ + 3..match_ + len] == window[scan + 3..scan + len]
    ensures len < MAX_MATCH ==> window[scan + len] != window[match_ + len]
  {
    len := 3;
    while len < MAX_MATCH && window[scan + len] == window[match_ + len]
      invariant 3 <= len <= MAX_MATCH && window[match_ + 3..match_ + len] == window[scan + 3..scan + len]
    {
      assert window[match_ + 3..match_ + len + 1] == window[match_ + 3..match_ + len] + [window[match_ + len]];
      assert window[scan + 3..scan + len + 1] == window[scan + 3..scan + len] + [window[scan + len]];
      len := len + 1;
    }
  }

  lemma SameFront(win: seq<byte>, q: nat, s: nat, len: nat, n: nat)
    requires q + len <= |win| && s + len <= |win| && win[q..q + len] == win[s..s + len] && n <= len
    ensures win[q..q + n] == win[s..s + n]
  {
    assert win[q..q + n] == win[q..q + len][..n];
    assert win[s..s + n] == win[s..s + len][..n];
  }

  /** Two equal bytes, an equal hash and the rest compared: a match as far as the input goes. */
  lemma FoundMatch(p: Params, win: seq<byte>, s: nat, q: nat, len: nat, n: nat)
    requires p.Good() && q < s && s + n <= |win| && n <= len && s + 3 <= |win| && 3 <= len
    requires win[q] == win[s] && win[q + 1] == win[s + 1] && HashAt(p, win, q) == HashAt(p, win, s) && s - q <= p.MaxDist()
    requires q + len <= |win| && s + len <= |win| && win[q + 3..q + len] == win[s + 3..s + len]
    ensures MatchAt(win, s, q, n, p.MaxDist())
  {
    hide Hash3;
    ThirdByte(p, win[s], win[s + 1], win[q + 2], win[s + 2]);
    assert win[q..q + len] == [win[q], win[q + 1], win[q + 2]] + win[q + 3..q + len];
    assert win[s..s + len] == [win[s], win[s + 1], win[s + 2]] + win[s + 3..s + len];
    SameFront(win, q, s, len, n);
  }

  function Min(a: nat, b: nat): nat {
    if a <= b then a else b
  }

  /** The place q may be compared with the string at s: it may be a stale one only if the result cannot matter. */
  ghost predicate Candidate(p: Params, win: seq<byte>, ins: set<nat>, slots: set<nat>, s: nat, lookahead: nat, q: nat)
    requires p.wSize > 0 && s + lookahead <= |win|
  {
    && 0 < q <= s && s - q <= p.MaxDist() && q % p.wSize in slots
    && (lookahead >= MIN_MATCH ==> q in ins && q < s && HashAt(p, win, q) == HashAt(p, win, s))
  }

  /** The best match so far, if it is longer than the one to beat, is a match. */
  ghost predicate BestSoFar(p: Params, win: seq<byte>, s: nat, lookahead: nat, prevLength: nat, best: nat, start: int) {
    && prevLength <= best <= MAX_MATCH
    && (best > prevLength && lookahead >= MIN_MATCH ==> MatchAt(win, s, start, Min(best, lookahead), p.MaxDist()))
  }

  /** The strings at q and s do not agree in more than n bytes, or in as many as a match may have. */
  ghost predicate NoLonger(win: seq<byte>, q: nat, s: nat, n: nat) {
    q <= s && s + n < |win| && (n < MAX_MATCH ==> win[q..q + n + 1] != win[s..s + n + 1])
  }

  lemma DifferentAt(win: seq<byte>, q: nat, s: nat, n: nat, i: nat)
    requires q <= s && s + n < |win| && i <= n && win[q + i] != win[s + i]
    ensures NoLonger(win, q, s, n)
  {
    assert win[q..q + n + 1][i] == win[q + i] && win[s..s + n + 1][i] == win[s + i];
  }

  lemma NoLongerStill(win: seq<byte>, q: nat, s: nat, n: nat, m: nat)
    requires NoLonger(win, q, s, n) && n <= m <= MAX_MATCH && s + m < |win|
    ensures NoLonger(win, q, s, m)
  {
    if m < MAX_MATCH && win[q..q + m + 1] == win[s..s + m + 1] {
      SameFront(win, q, s, m + 1, n + 1);
    }
  }

  /** Following the chain from `first` leads through these positions, all but perhaps the first above the limit. */
  ghost predicate Walked(prev: seq<nat>, w: nat, limit: nat, first: nat, qs: seq<nat>) {
    qs != [] && qs[0] == first && w > 0 && forall k | 0 < k < |qs| :: Leads(prev, w, limit, qs, k)
  }

  ghost predicate Leads(prev: seq<nat>, w: nat, limit: nat, qs: seq<nat>, k: nat)
    requires 0 < k < |qs| && w > 0
  {
    qs[k - 1] % w < |prev| && qs[k] == prev[qs[k - 1] % w] > limit
  }

  /** The walk ends after `chain` positions, or where the chain does. */
  ghost predicate WalkedOut(prev: seq<nat>, w: nat, limit: nat, qs: seq<nat>, chain: nat) {
    w > 0 && qs != [] && (|qs| == chain || qs[|qs| - 1] % w >= |prev| || prev[qs[|qs| - 1] % w] <= limit)
  }

  /** The k-th position of a walk from s is an inserted one with the same hash as s, and there is none between it and the one before. */
  lemma {:induction false} WalkedAt(p: Params, win: seq<byte>, head: seq<nat>, prev: seq<nat>, ins: set<nat>, s: nat, end: nat,
                                    qs: seq<nat>, k: nat)
    requires p.Good() && Chained(p, win, head, prev, ins, s + 1, end) && s in ins && s + 3 <= |win|
    requires Walked(prev, p.wSize, Limit(p, s), prev[s % p.wSize], qs) && 0 < prev[s % p.wSize] && s - prev[s % p.wSize] <= p.MaxDist() && k < |qs|
    ensures 0 < qs[k] < s && s - qs[k] <= p.MaxDist() && qs[k] in ins && qs[k] + 3 <= |win| && HashAt(p, win, qs[k]) == HashAt(p, win, s)
    ensures NoneBetween(p, win, ins, qs[k], if k == 0 then s else qs[k - 1], HashAt(p, win, s))
    ensures k > 0 ==> qs[k] < qs[k - 1]
    ensures NoneBetween(p, win, ins, prev[qs[k] % p.wSize], qs[k], HashAt(p, win, s))
  {
    hide Chained, HashAt, NoneBetween, Walked;
    ChainedShape(p, win, head, prev, ins, s + 1, end);
    WalkedStep(prev, p.wSize, Limit(p, s), prev[s % p.wSize], qs, k);
    if k == 0 {
      ChainNext(p, win, head, prev, ins, s + 1, end, s);
    } else {
      WalkedAt(p, win, head, prev, ins, s, end, qs, k - 1);
      ChainNext(p, win, head, prev, ins, s + 1, end, qs[k - 1]);
    }
    ChainNext(p, win, head, prev, ins, s + 1, end, qs[k]);
  }

  lemma WalkedStep(prev: seq<nat>, w: nat, limit: nat, first: nat, qs: seq<nat>, k: nat)
    requires w > 0 && |prev| == w && Walked(prev, w, limit, first, qs) && k < |qs|
    ensures qs[0] == first && (k > 0 ==> qs[k] == prev[qs[k - 1] % w] > limit)
  {
    assert k > 0 ==> Leads(prev, w, limit, qs, k);
  }

  /** What a walk from s has not visited, of the positions with the same hash, is further back. */
  lemma {:induction false} WalkedAll(p: Params, win: seq<byte>, head: seq<nat>, prev: seq<nat>, ins: set<nat>, s: nat, end: nat,
                                     qs: seq<nat>, k: nat, m: nat)
    requires p.Good() && Chained(p, win, head, prev, ins, s + 1, end) && s in ins && s + 3 <= |win|
    requires Walked(prev, p.wSize, Limit(p, s), prev[s % p.wSize], qs) && 0 < prev[s % p.wSize] && s - prev[s % p.wSize] <= p.MaxDist() && k < |qs|
    requires m in ins && m < s && m + 3 <= |win| && HashAt(p, win, m) == HashAt(p, win, s)
    ensures m in qs || m < qs[k]
  {
    hide Chained, HashAt, Walked;
    WalkedAt(p, win, head, prev, ins, s, end, qs, k);
    if k > 0 {
      WalkedAll(p, win, head, prev, ins, s, end, qs, k - 1, m);
    }
    if m > qs[k] {
      assert k > 0 ==> m < qs[k - 1] || m in qs;
    }
  }

  /** A walk that came to the end of the chain has visited all that are near enough. */
  lemma WalkedToTheEnd(p: Params, win: seq<byte>, head: seq<nat>, prev: seq<nat>, ins: set<nat>, s: nat, end: nat, qs: seq<nat>,
                       chain: nat, m: nat)
    requires p.Good() && Chained(p, win, head, prev, ins, s + 1, end) && s in ins && s + 3 <= |win|
    requires Walked(prev, p.wSize, Limit(p, s), prev[s % p.wSize], qs) && 0 < prev[s % p.wSize] && s - prev[s % p.wSize] <= p.MaxDist()
    requires WalkedOut(prev, p.wSize, Limit(p, s), qs, chain) && |qs| < chain
    requires m in ins && Limit(p, s) < m < s && m + 3 <= |win| && HashAt(p, win, m) == HashAt(p, win, s)
    ensures m in qs
  {
    hide Chained, HashAt, Walked;
    var last := |qs| - 1;
    ChainedShape(p, win, head, prev, ins, s + 1, end);
    WalkedAll(p, win, head, prev, ins, s, end, qs, last, m);
    WalkedAt(p, win, head, prev, ins, s, end, qs, last);
  }

  ghost predicate NoneLonger(win: seq<byte>, qs: seq<nat>, s: nat, n: nat) {
    forall k | 0 <= k < |qs| :: NoLonger(win, qs[k], s, n)
  }

  lemma NoneLongerStill(win: seq<byte>, qs: seq<nat>, s: nat, n: nat, m: nat)
    requires NoneLonger(win, qs, s, n) && n <= m <= MAX_MATCH && s + m < |win|
    ensures NoneLonger(win, qs, s, m)
  {
    hide NoLonger;
    forall k | 0 <= k < |qs| ensures NoLonger(win, qs[k], s, m) {
      NoLongerStill(win, qs[k], s, n, m);
    }
  }

  /** One candidate. */
  method TryMatch(p: Params, window: array<byte>, s: nat, lookahead: nat, best0: nat, start0: int, q: nat, ghost prevLength: nat,
                  ghost ins: set<nat>, ghost slots: set<nat>)
    returns (best: nat, start: int)
    requires p.Good() && window.Length == 2 * p.wSize && s + MIN_LOOKAHEAD <= window.Length
      && s + lookahead <= window.Length
    requires 1 <= prevLength && Candidate(p, window[..], ins, slots, s, lookahead, q)
    requires BestSoFar(p, window[..], s, lookahead, prevLength, best0, start0)
    ensures BestSoFar(p, window[..], s, lookahead, prevLength, best, start) && best >= best0
    ensures NoLonger(window[..], q, s, best) && if best > best0 then start == q else start == start0
  {
    hide Hash3, NoLonger;
    best, start := best0, start0;
    if window[q + best] == window[s + best] && window[q + best - 1] == window[s + best - 1] && window[q] == window[s]
       && window[q + 1] == window[s + 1] {
      var len := MatchLength(window, s, q);
      if len > best {
        if lookahead >= MIN_MATCH {
          assert window[..][q + 3..q + len] == window[q + 3..q + len] && window[..][s + 3..s + len] == window[s + 3..s + len];
          FoundMatch(p, window[..], s, q, len, Min(len, lookahead));
        }
        best, start := len, q;
      }
      if len < MAX_MATCH {
        DifferentAt(window[..], q, s, best, len);
      } else {
        NoLongerAtAll(window[..], q, s, best);
      }
    } else {
      DifferentAt(window[..], q, s, best, if window[q + best] != window[s + best] then best
                                          else if window[q + best - 1] != window[s + best - 1] then best - 1
                                          else if window[q] != window[s] then 0 else 1);
    }
  }

  lemma NoLongerAtAll(win: seq<byte>, q: nat, s: nat, n: nat)
    requires q <= s && s + n < |win| && n >= MAX_MATCH
    ensures NoLonger(win, q, s, n)
  {
  }

  /** The next candidate on the chain. */
  lemma NextCandidate(p: Params, win: seq<byte>, head: seq<nat>, prev: seq<nat>, ins: set<nat>, slots: set<nat>, s: nat,
                      lookahead: nat, q: nat)
    requires p.Good() && s + lookahead <= |win| && Candidate(p, win, ins, slots, s, lookahead, q)
    requires lookahead >= MIN_MATCH ==> Chained(p, win, head, prev, ins, s + 1, s + lookahead)
    requires Slotted(p.wSize, head, prev, slots, s + 1)
    ensures q % p.wSize < |prev|
    ensures var n := prev[q % p.wSize];
      n > 0 && s - n <= p.MaxDist() ==> Candidate(p, win, ins, slots, s, lookahead, n)
  {
    hide Chained, Slotted, HashAt;
    SlottedNext(p.wSize, head, prev, slots, s + 1, q);
    if lookahead >= MIN_MATCH {
      ChainNext(p, win, head, prev, ins, s + 1, s + lookahead, q);
    }
  }

  /** Positions up to here are too far away. */
  function Limit(p: Params, s: nat): nat {
    if s > p.MaxDist() then s - p.MaxDist() else 0
  }

  /** How many positions are looked at; fewer if the match to beat is good already. */
  function ChainLimit(maxChain: nat, prevLength: nat, goodMatch: nat): nat {
    if prevLength >= goodMatch then maxChain / 4 else maxChain
  }

  /** longest_match: the result is no longer than what is ahead, and a match if it beats prevLength. None of the positions `seen` on
      the chain has a longer one, and unless the match is nice enough they are all that the chain has, up to the allowed number. */
  method LongestMatch(p: Params, window: array<byte>, prev: array<nat>, s: nat, lookahead: nat, prevLength: nat, maxChain: nat,
                      goodMatch: nat, niceMatch: nat, curMatch: nat, matchStart: int, ghost head: seq<nat>,
                      ghost ins: set<nat>, ghost slots: set<nat>)
    returns (length: nat, start: int, ghost seen: seq<nat>)
    requires p.Good() && window.Length == 2 * p.wSize && s + MIN_LOOKAHEAD <= window.Length
      && s + lookahead <= window.Length
    requires 1 <= prevLength <= MAX_MATCH && maxChain >= 4 && lookahead >= 1
    requires lookahead >= MIN_MATCH ==> Chained(p, window[..], head, prev[..], ins, s + 1, s + lookahead)
    requires Slotted(p.wSize, head, prev[..], slots, s + 1) && Candidate(p, window[..], ins, slots, s, lookahead, curMatch)
    ensures 1 <= length <= lookahead && length <= MAX_MATCH
    ensures length > prevLength && length >= MIN_MATCH ==> MatchAt(window[..], s, start, length, p.MaxDist())
    ensures length > prevLength ==> start in seen
    ensures Walked(prev[..], p.wSize, Limit(p, s), curMatch, seen) && |seen| <= ChainLimit(maxChain, prevLength, goodMatch)
    ensures length < lookahead ==> length >= prevLength && NoneLonger(window[..], seen, s, length)
    ensures length < lookahead && length < niceMatch ==>
      WalkedOut(prev[..], p.wSize, Limit(p, s), seen, ChainLimit(maxChain, prevLength, goodMatch))
  {
    hide Chained, Slotted, HashAt, Candidate, MatchAt, NoneLonger, NoLonger, Walked;
    var chain := maxChain;
    var best: nat, q: nat := prevLength, curMatch;
    start := matchStart;
    seen := [];
    var limit := Limit(p, s);
    WalkStarts(prev[..], p.wSize, limit, q, window[..], s, best);
    if prevLength >= goodMatch {
      chain := chain / 4;
    }
    var nice := if niceMatch > lookahead then lookahead else niceMatch;
    while true
      invariant chain >= 1 && Candidate(p, window[..], ins, slots, s, lookahead, q)
      invariant BestSoFar(p, window[..], s, lookahead, prevLength, best, start)
      invariant |seen| + chain == ChainLimit(maxChain, prevLength, goodMatch)
      invariant Walked(prev[..], p.wSize, limit, curMatch, seen + [q]) && NoneLonger(window[..], seen, s, best)
      invariant best > prevLength ==> start in seen
      decreases chain
    {
      var best0 := best;
      best, start := TryMatch(p, window, s, lookahead, best, start, q, prevLength, ins, slots);
      NoneLongerStill(window[..], seen, s, best0, best);
      OneMoreSeen(window[..], seen, q, s, best);
      seen := seen + [q];
      if best > best0 && best >= nice {
        break;
      }
      NextCandidate(p, window[..], head, prev[..], ins, slots, s, lookahead, q);
      assert seen[|seen| - 1] == q;
      q := prev[q % p.wSize];
      if q <= limit {
        break;
      }
      WalkOn(prev[..], p.wSize, limit, curMatch, seen, q);
      chain := chain - 1;
      if chain == 0 {
        break;
      }
    }
    length := if best <= lookahead then best else lookahead;
  }

  lemma WalkStarts(prev: seq<nat>, w: nat, limit: nat, q: nat, win: seq<byte>, s: nat, n: nat)
    requires w > 0
    ensures Walked(prev, w, limit, q, [] + [q]) && NoneLonger(win, [], s, n)
  {
  }

  lemma OneMoreSeen(win: seq<byte>, qs: seq<nat>, q: nat, s: nat, n: nat)
    requires NoneLonger(win, qs, s, n) && NoLonger(win, q, s, n)
    ensures NoneLonger(win, qs + [q], s, n)
  {
    hide NoLonger;
  }

  lemma WalkOn(prev: seq<nat>, w: nat, limit: nat, first: nat, qs: seq<nat>, q: nat)
    requires Walked(prev, w, limit, first, qs) && qs[|qs| - 1] % w < |prev| && q == prev[qs[|qs| - 1] % w] > limit
    ensures Walked(prev, w, limit, first, qs + [q])
  {
    var now := qs + [q];
    forall k | 0 < k < |now| ensures Leads(prev, w, limit, now, k) {
      assert k < |qs| ==> Leads(prev, w, limit, qs, k);
    }
  }

  /** longest_match_fast: one candidate only. */
  method LongestMatchFast(p: Params, window: array<byte>, s: nat, lookahead: nat, curMatch: nat, matchStart: int,
                          ghost ins: set<nat>, ghost slots: set<nat>)
    returns (length: nat, start: int)
    requires p.Good() && window.Length == 2 * p.wSize && s + MIN_LOOKAHEAD <= window.Length
      && s + lookahead <= window.Length
    requires lookahead >= 1 && Candidate(p, window[..], ins, slots, s, lookahead, curMatch)
    ensures 1 <= length <= MAX_MATCH && (length <= lookahead || length == MIN_MATCH - 1)
    ensures length >= MIN_MATCH ==> MatchAt(window[..], s, start, length, p.MaxDist())
    ensures length < lookahead ==> NoLonger(window[..], curMatch, s, length)
    ensures length >= MIN_MATCH ==> start == curMatch
  {
    hide Hash3, NoLonger;
    start := matchStart;
    if window[curMatch] != window[s] || window[curMatch + 1] != window[s + 1] {
      DifferentAt(window[..], curMatch, s, MIN_MATCH - 1, if window[curMatch] != window[s] then 0 else 1);
      return MIN_MATCH - 1, start;
    }
    var len := MatchLength(window, s, curMatch);
    start := curMatch;
    length := if len <= lookahead then len else lookahead;
    if len < MAX_MATCH {
      DifferentAt(window[..], curMatch, s, len, len);
    } else {
      NoLongerAtAll(window[..], curMatch, s, len);
    }
    if length >= MIN_MATCH {
      assert window[..][curMatch + 3..curMatch + len] == window[curMatch + 3..curMatch + len];
      assert window[..][s + 3..s + len] == window[s + 3..s + len];
      FoundMatch(p, window[..], s, curMatch, len, length);
    }
  }
}
