/** Why deflate_fast and deflate_slow of src/ext/zlib/deflate.c tally a literal or a match: the searches that have led to it. */
module Reasons {
  import opened Inflation
  import opened Hashing
  import opened Matching
  import opened Advancing
  import opened Looking

  /** The search for the string at the token, and the one for the next string, if that was looked for too. */
  datatype Reason = Reason(own: Look, next: Look)

  /** The window's distance limit, the search limits, the strategy, and whether there is lazy evaluation. */
  datatype Rules = Rules(maxDist: int, limits: Limits, strategy: Strategy, lazy: bool)

  /** The length that counts after a search. */
  function Answer(u: Rules, look: Look): nat {
    if u.lazy then Accepted(u.strategy, look.longest, look.at - look.start) else look.longest
  }

  /** What has happened so far: the strings inserted, the ends of the input that was offered, and where the history was forgotten. */
  datatype Past = Past(inserted: set<nat>, ends: set<nat>, forgets: set<nat>)

  /** A search at byte `at` of the data for something longer than `least`; with lazy evaluation it is left out if that is long enough.
      Enough input was ahead, or the rest of it; and all strings were known that had been inserted since the history was forgotten. */
  ghost predicate LookedAt(data: seq<byte>, u: Rules, h: Past, look: Look, at: int, least: nat) {
    && Thorough(data, u.maxDist, u.limits, u.strategy, h.inserted, look) && look.at == at && look.least == least
    && (look.called <==> !u.lazy || least < u.limits.lazy) && (!look.called ==> look.longest == MIN_MATCH - 1)
    && (look.end >= at + MIN_LOOKAHEAD || look.end in h.ends) && look.from in h.forgets && look.from <= at
  }

  /** Without lazy evaluation: the longest match is taken, and a literal only where there is none. */
  ghost predicate Greedy(data: seq<byte>, u: Rules, h: Past, t: Token, at: int, r: Reason) {
    && LookedAt(data, u, h, r.own, at, MIN_MATCH - 1)
    && match t
       case Literal(c) => r.own.longest < MIN_MATCH
       case Match(length, dist) => length == r.own.longest && at - dist == r.own.start
  }

  /** With lazy evaluation: a match is taken if the next string has none that is longer, and given up only for a longer one. */
  ghost predicate Lazy(data: seq<byte>, u: Rules, h: Past, t: Token, at: int, r: Reason) {
    var n := Answer(u, r.own);
    && LookedAt(data, u, h, r.own, at, r.own.least) && (r.own.least >= MIN_MATCH ==> n > r.own.least)
    && match t
       case Literal(c) => n < MIN_MATCH || (LookedAt(data, u, h, r.next, at + 1, n) && Answer(u, r.next) > n)
       case Match(length, dist) =>
         && length == n && at - dist == r.own.start && length >= MIN_MATCH
         && LookedAt(data, u, h, r.next, at + 1, n) && Answer(u, r.next) <= n
  }

  ghost predicate ReasonFor(data: seq<byte>, u: Rules, h: Past, t: Token, at: int, r: Reason) {
    if u.lazy then Lazy(data, u, h, t, at, r) else Greedy(data, u, h, t, at, r)
  }

  function Span(t: Token): nat {
    if t.Match? then t.length else 1
  }

  /** How many bytes the tokens stand for. */
  function Place(ts: seq<Token>): nat {
    if ts == [] then 0 else Place(ts[..|ts| - 1]) + Span(ts[|ts| - 1])
  }

  /** Every token has its reason. */
  ghost predicate Reasoned(data: seq<byte>, u: Rules, h: Past, ts: seq<Token>, rs: seq<Reason>) {
    |rs| == |ts| && forall i | 0 <= i < |ts| :: Span(ts[i]) >= 1 && ReasonFor(data, u, h, ts[i], Place(ts[..i]), rs[i])
  }

  /** The searches since token `marked` have known no string before byte `from`. */
  ghost predicate Recent(rs: seq<Reason>, marked: nat, from: nat) {
    marked <= |rs| && forall i | marked <= i < |rs| :: rs[i].own.from == from
  }

  /** Fewer than three bytes of the string at y had been offered. */
  ghost predicate TooShort(ends: set<nat>, y: int) {
    exists e: nat {:trigger e in ends} :: e in ends && y < e < y + MIN_MATCH
  }

  /** y lies within the k-th token, a match that is too long for its strings to be inserted, or after which fewer than three bytes
      had been offered. */
  ghost predicate InLongMatch(u: Rules, ends: set<nat>, ts: seq<Token>, k: nat, y: int)
    requires k < |ts|
  {
    && Place(ts[..k]) < y < Place(ts[..k]) + Span(ts[k])
    && (Span(ts[k]) > u.limits.lazy
        || exists e: nat {:trigger e in ends} :: e in ends && Place(ts[..k]) + Span(ts[k]) <= e < Place(ts[..k]) + Span(ts[k]) + MIN_MATCH)
  }

  /** Why the string at y was not inserted: it was too short then; or, without lazy evaluation, it lies within such a match. */
  ghost predicate Excused(u: Rules, ends: set<nat>, ts: seq<Token>, y: int) {
    TooShort(ends, y) || (!u.lazy && exists k | 0 <= k < |ts| :: InLongMatch(u, ends, ts, k, y))
  }

  ghost predicate AllExcused(u: Rules, ends: set<nat>, ts: seq<Token>, ys: set<nat>) {
    forall y: nat {:trigger y in ys} | y in ys :: Excused(u, ends, ts, y)
  }

  lemma ExcusedMore(u: Rules, ends: set<nat>, ts: seq<Token>, ys: set<nat>, ends': set<nat>, t: Token)
    requires AllExcused(u, ends, ts, ys) && ends <= ends'
    ensures AllExcused(u, ends', ts, ys) && AllExcused(u, ends', ts + [t], ys)
  {
    hide Place;
    forall y: nat {:trigger y in ys} | y in ys ensures Excused(u, ends', ts, y) && Excused(u, ends', ts + [t], y) {
      OneExcused(u, ends, ts, y, ends', t);
    }
  }

  lemma OneExcused(u: Rules, ends: set<nat>, ts: seq<Token>, y: nat, ends': set<nat>, t: Token)
    requires Excused(u, ends, ts, y) && ends <= ends'
    ensures Excused(u, ends', ts, y) && Excused(u, ends', ts + [t], y)
  {
    hide Place;
    if TooShort(ends, y) {
      var e: nat :| e in ends && y < e < y + MIN_MATCH;
      assert e in ends';
    } else {
      var k :| 0 <= k < |ts| && InLongMatch(u, ends, ts, k, y);
      assert InLongMatch(u, ends', ts, k, y);
      assert (ts + [t])[..k] == ts[..k];
      assert InLongMatch(u, ends', ts + [t], k, y);
    }
  }

  lemma PlaceMore(ts: seq<Token>, t: Token)
    ensures Place(ts + [t]) == Place(ts) + Span(t)
  {
    assert (ts + [t])[..|ts|] == ts;
  }

  lemma LastPlaceIs(ts: seq<Token>, t: Token)
    ensures LastPlace(ts + [t]) == Place(ts)
  {
    hide Place;
    assert (ts + [t])[..|ts|] == ts;
  }

  lemma ReasonedNone(data: seq<byte>, u: Rules, h: Past)
    ensures Reasoned(data, u, h, [], []) && Recent([], 0, 0) && Place([]) == 0 && AllExcused(u, h.ends, [], {})
  {
  }

  lemma ReasonedOne(data: seq<byte>, u: Rules, h: Past, ts: seq<Token>, rs: seq<Reason>, t: Token, r: Reason)
    requires Reasoned(data, u, h, ts, rs) && ReasonFor(data, u, h, t, Place(ts), r) && Span(t) >= 1
    ensures Reasoned(data, u, h, ts + [t], rs + [r])
  {
    hide ReasonFor, Place, Span;
    var now, why := ts + [t], rs + [r];
    forall i | 0 <= i < |now| ensures Span(now[i]) >= 1 && ReasonFor(data, u, h, now[i], Place(now[..i]), why[i]) {
      if i < |ts| {
        assert now[..i] == ts[..i];
      } else {
        assert now[..i] == ts;
      }
    }
  }

  /** More has happened, but no string before byte n has been inserted. */
  ghost predicate Later(h: Past, h': Past, n: int) {
    && h.inserted <= h'.inserted && h.ends <= h'.ends && h.forgets <= h'.forgets
    && forall y: nat {:trigger y in h'.inserted} | y in h'.inserted && y !in h.inserted :: y >= n
  }

  lemma LookedMore(data: seq<byte>, u: Rules, h: Past, look: Look, at: int, least: nat, more: seq<byte>, h': Past, n: int)
    requires LookedAt(data, u, h, look, at, least) && Later(h, h', n) && at <= n
    ensures LookedAt(data + more, u, h', look, at, least)
  {
    hide Thorough;
    ThoroughMore(data, u.maxDist, u.limits, u.strategy, h.inserted, look, more, h'.inserted, n);
  }

  lemma ReasonMore(data: seq<byte>, u: Rules, h: Past, t: Token, at: int, r: Reason, more: seq<byte>, h': Past, n: int)
    requires ReasonFor(data, u, h, t, at, r) && Later(h, h', n) && at + 1 <= n
    ensures ReasonFor(data + more, u, h', t, at, r)
  {
    hide LookedAt, Answer, Later;
    LookedMore(data, u, h, r.own, at, if u.lazy then r.own.least else MIN_MATCH - 1, more, h', n);
    if u.lazy && LookedAt(data, u, h, r.next, at + 1, Answer(u, r.own)) {
      LookedMore(data, u, h, r.next, at + 1, Answer(u, r.own), more, h', n);
    }
  }

  lemma {:induction false} PlaceRises(ts: seq<Token>, i: nat)
    requires i < |ts| && forall k | 0 <= k < |ts| :: Span(ts[k]) >= 1
    ensures Place(ts[..i]) + 1 <= Place(ts)
    decreases |ts|
  {
    var n := |ts| - 1;
    if i < n {
      assert ts[..n][..i] == ts[..i];
      PlaceRises(ts[..n], i);
    }
  }

  /** Where the last token begins. */
  function LastPlace(ts: seq<Token>): nat {
    if ts == [] then 0 else Place(ts[..|ts| - 1])
  }

  lemma NoneAfterLast(ts: seq<Token>, i: nat)
    requires i < |ts| && forall k | 0 <= k < |ts| :: Span(ts[k]) >= 1
    ensures Place(ts[..i]) <= LastPlace(ts)
  {
    hide Place;
    var n := |ts| - 1;
    if i < n {
      assert ts[..n][..i] == ts[..i];
      PlaceRises(ts[..n], i);
    }
  }

  lemma ReasonedMore(data: seq<byte>, u: Rules, h: Past, ts: seq<Token>, rs: seq<Reason>, more: seq<byte>, h': Past, n: int)
    requires Reasoned(data, u, h, ts, rs) && Later(h, h', n) && LastPlace(ts) + 1 <= n
    ensures Reasoned(data + more, u, h', ts, rs)
  {
    hide ReasonFor, Place, LastPlace, Later, Span;
    forall i | 0 <= i < |ts| ensures Span(ts[i]) >= 1 && ReasonFor(data + more, u, h', ts[i], Place(ts[..i]), rs[i]) {
      NoneAfterLast(ts, i);
      ReasonMore(data, u, h, ts[i], Place(ts[..i]), rs[i], more, h', n);
    }
  }

  lemma GreedyLiteral(data: seq<byte>, u: Rules, h: Past, look: Look, at: int, c: byte)
    requires !u.lazy && LookedAt(data, u, h, look, at, MIN_MATCH - 1) && Answer(u, look) < MIN_MATCH
    ensures ReasonFor(data, u, h, Literal(c), at, Reason(look, look))
  {
    hide LookedAt;
  }

  lemma GreedyMatch(data: seq<byte>, u: Rules, h: Past, look: Look, at: int, length: nat, dist: nat)
    requires !u.lazy && LookedAt(data, u, h, look, at, MIN_MATCH - 1) && Answer(u, look) == length && at - dist == look.start
    ensures ReasonFor(data, u, h, Match(length, dist), at, Reason(look, look))
  {
    hide LookedAt;
  }

  lemma LazyLiteral(data: seq<byte>, u: Rules, h: Past, own: Look, next: Look, at: int, c: byte)
    requires u.lazy && LookedAt(data, u, h, own, at, own.least)
    requires own.least >= MIN_MATCH ==> Answer(u, own) > own.least
    requires Answer(u, own) < MIN_MATCH || (LookedAt(data, u, h, next, at + 1, Answer(u, own)) && Answer(u, next) > Answer(u, own))
    ensures ReasonFor(data, u, h, Literal(c), at, Reason(own, next))
  {
    hide LookedAt;
  }

  lemma LazyMatch(data: seq<byte>, u: Rules, h: Past, own: Look, next: Look, at: int, length: nat, dist: nat)
    requires u.lazy && LookedAt(data, u, h, own, at, own.least) && Answer(u, own) == length && at - dist == own.start
    requires (own.least >= MIN_MATCH ==> length > own.least) && length >= MIN_MATCH
    requires LookedAt(data, u, h, next, at + 1, length) && Answer(u, next) <= length
    ensures ReasonFor(data, u, h, Match(length, dist), at, Reason(own, next))
  {
    hide LookedAt;
  }

  /** Nothing more has happened. */
  lemma StillThePast(h: Past, n: int)
    ensures Later(h, h, n)
  {
  }

  lemma BeforeTheLast(data: seq<byte>, u: Rules, h: Past, ts: seq<Token>, rs: seq<Reason>)
    requires Reasoned(data, u, h, ts, rs)
    ensures LastPlace(ts) <= Place(ts) && (ts != [] ==> LastPlace(ts) + 1 <= Place(ts))
  {
    hide ReasonFor;
    if ts != [] {
      var n := |ts| - 1;
      assert ts[..n + 1] == ts;
      assert Span(ts[n]) >= 1;
    }
  }

  // ---------------------------------------------------------------- what the reasons mean

  /** The match of a token is one of the strings that were looked at. */
  lemma MatchIsSeen(data: seq<byte>, u: Rules, h: Past, length: nat, dist: nat, at: int, r: Reason)
    requires ReasonFor(data, u, h, Match(length, dist), at, r) && length >= MIN_MATCH
    ensures at - dist >= r.own.from && at - dist in r.own.seen && Allowed(u.strategy, u.maxDist, dist)
  {
    hide NoneBetter, NonePassed, Allowed;
    assert r.own.longest == length && r.own.called;
    assert at - dist == r.own.start && r.own.start in r.own.seen;
    var k :| 0 <= k < |r.own.seen| && r.own.seen[k] == at - dist;
  }
}
