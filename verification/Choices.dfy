/** Which tokens deflate_fast and deflate_slow of src/ext/zlib/deflate.c choose: a literal only where no match was to be had or a
    longer one follows, and a match that is as long as any. */
module Choices {
  import opened Inflation
  import opened Blocks
  import opened Hashing
  import opened Matching
  import opened Advancing
  import opened Looking
  import opened Covering
  import opened Reasons
  import opened Deflater

  /** The tokens before the i-th stand for so many bytes of the data. */
  lemma {:induction false} PlaceIsLength(h: seq<byte>, ts: seq<Token>)
    requires AllReach(h, ts)
    ensures |ExpandAll(h, ts)| == |h| + Place(ts)
  {
    if ts != [] {
      PlaceIsLength(h, ts[..|ts| - 1]);
    }
  }

  /** The search at the i-th token, and why it was tallied. */
  lemma ReasonAt(s: State, i: nat) returns (at: nat, r: Reason)
    requires s.m.level > 0 && s.m.Shaped() && s.Accounted() && i < |s.tallied|
    ensures at == Place(s.tallied[..i]) && |s.reasons| == |s.tallied| && r == s.reasons[i]
    ensures ReasonFor(s.m.data, s.m.Rule(), s.m.History(), s.tallied[i], at, r)
    ensures Thorough(s.m.data, s.m.p.MaxDist(), s.m.limits, s.m.strategy, s.m.inserted, r.own)
    ensures r.own.at == at && r.own.called && (s.m.level <= 3 ==> r.own.least == MIN_MATCH - 1)
    ensures (r.own.end >= at + MIN_LOOKAHEAD || r.own.end in s.m.ends) && r.own.from in s.m.forgets && r.own.from <= at
  {
    hide Covers, Place, Thorough;
    at, r := Place(s.tallied[..i]), s.reasons[i];
  }

  lemma AgreeLess(data: seq<byte>, y: nat, x: nat, n: nat, k: nat)
    requires Agree(data, y, x, n) && k <= n
    ensures Agree(data, y, x, k)
  {
    assert data[y..y + k] == data[y..y + n][..k] && data[x..x + k] == data[x..x + n][..k];
  }

  /** A string that was looked at agrees in no more bytes than the answer says. */
  lemma SeenIsNoBetter(data: seq<byte>, maxDist: int, l: Limits, strategy: Strategy, known: set<nat>, look: Look, y: nat, n: nat)
    requires Thorough(data, maxDist, l, strategy, known, look) && y in look.seen && Agree(data, y, look.at, n) && n <= look.end - look.at
    ensures n <= look.longest || look.longest >= MAX_MATCH
  {
    hide Agree, Latest, NonePassed;
    var k :| 0 <= k < |look.seen| && look.seen[k] == y;
    if look.longest < n && look.longest < MAX_MATCH {
      AgreeLess(data, y, look.at, n, look.longest + 1);
    }
  }

  /** A string before the i-th token that begins with the same three bytes as the one there, near enough and not forgotten by a full
      flush, so that it ought to be found: it was inserted, unless it was too short when it was its turn or, without lazy evaluation,
      lies within a long match. The token is not among the last two bytes of what had been offered. */
  ghost predicate Candidate(s: State, i: nat, y: nat)
    reads s, s.m
  {
    && i < |s.tallied| && |s.reasons| == |s.tallied|
    && var x, own := Place(s.tallied[..i]), s.reasons[i].own;
       && 0 < y < x && own.from <= y && Covered(s.m.strategy, s.m.p.MaxDist(), x - y) && Agree(s.m.data, y, x, MIN_MATCH)
       && x + MIN_MATCH <= own.end && !Excused(s.m.Rule(), s.m.ends, s.tallied, y)
  }

  /** Such a string has been inserted. */
  lemma CandidateIsInserted(s: State, i: nat, y: nat)
    requires s.m.level > 0 && s.m.Shaped() && s.Accounted() && Candidate(s, i, y)
    ensures y in s.m.inserted
  {
    hide Place, Agree, ReasonFor, Excused, Covers, LastPlace;
    NoneAfterLast(s.tallied, i);
  }

  /** So many strings with the same hash, all later than y, had to be looked at first. */
  ghost predicate OutOfReach(l: Limits, look: Look, y: nat) {
    look.seen != [] && y < look.seen[|look.seen| - 1] && |look.seen| == if look.least >= l.good then l.chain / 4 else l.chain
  }

  /** Without lazy evaluation, where a literal is tallied no string within reach begins with the same three bytes. */
  lemma GreedyLiterals(s: State, i: nat, y: nat)
    requires 0 < s.m.level <= 3 && s.Accounted() && s.m.Shaped() && Candidate(s, i, y) && s.tallied[i].Literal?
    ensures y !in s.reasons[i].own.seen && OutOfReach(s.m.limits, s.reasons[i].own, y)
  {
    hide Place, Agree, NoneBetter, Latest, NonePassed, Thorough, Excused;
    var x, r := ReasonAt(s, i);
    CandidateIsInserted(s, i, y);
    OneKnown(s.m.data, s.m.p.MaxDist(), s.m.limits, s.m.strategy, s.m.inserted, r.own, y);
    if y in r.own.seen {
      SeenIsNoBetter(s.m.data, s.m.p.MaxDist(), s.m.limits, s.m.strategy, s.m.inserted, r.own, y, MIN_MATCH);
    }
  }

  /** The match that was found is short, and with strategy Z_FILTERED or that far away not worth it; or the search at the next byte
      has found a longer one. */
  ghost predicate GivenUp(strategy: Strategy, own: Look, next: Look) {
    && own.longest >= MIN_MATCH
    && (|| (own.longest <= 5 && (strategy == Filtered || (own.longest == MIN_MATCH && own.at - own.start > 4096)))
        || (next.at == own.at + 1 && next.called && next.longest > own.longest))
  }

  /** With lazy evaluation, where a literal is tallied no string within reach begins with the same three bytes, or the match was
      given up. */
  lemma LazyLiterals(s: State, i: nat, y: nat)
    requires s.m.level > 3 && s.Accounted() && s.m.Shaped() && Candidate(s, i, y) && s.tallied[i].Literal?
    ensures GivenUp(s.m.strategy, s.reasons[i].own, s.reasons[i].next)
      || (y !in s.reasons[i].own.seen && OutOfReach(s.m.limits, s.reasons[i].own, y))
  {
    hide Place, Agree, NoneBetter, Latest, NonePassed, LookedAt, Thorough, Excused;
    var x, r := ReasonAt(s, i);
    CandidateIsInserted(s, i, y);
    OneKnown(s.m.data, s.m.p.MaxDist(), s.m.limits, s.m.strategy, s.m.inserted, r.own, y);
    if y in r.own.seen {
      SeenIsNoBetter(s.m.data, s.m.p.MaxDist(), s.m.limits, s.m.strategy, s.m.inserted, r.own, y, MIN_MATCH);
    }
    if Answer(s.m.Rule(), r.own) >= MIN_MATCH {
      NextIsCalled(s.m.data, s.m.Rule(), s.m.History(), r.next, x + 1, r.own.longest);
    }
  }

  /** A string that was passed by lies beyond the end of the search. */
  lemma OneKnown(data: seq<byte>, maxDist: int, l: Limits, strategy: Strategy, known: set<nat>, look: Look, y: nat)
    requires Thorough(data, maxDist, l, strategy, known, look) && look.called && y in known && 0 < y && look.from <= y < look.at
    requires Covered(strategy, maxDist, look.at - y) && Agree(data, y, look.at, MIN_MATCH) && look.at + MIN_MATCH <= look.end
    ensures y in look.seen || Beyond(l, look, y)
  {
    hide Agree, NoneBetter, Latest, Beyond, Covered;
  }

  /** A longer answer was looked for. */
  lemma NextIsCalled(data: seq<byte>, u: Rules, h: Past, next: Look, at: int, n: nat)
    requires LookedAt(data, u, h, next, at, n) && Answer(u, next) > n >= MIN_MATCH
    ensures next.at == at && next.called && next.longest > n
  {
    hide Thorough;
  }

  /** A match is one of the strings looked at, which agrees in all its bytes and none of them in more, unless it has the greatest length
      or goes to the end of what had been read. With lazy evaluation the search at the next byte, if it was not left out, has no
      longer one either. */
  lemma MatchIsLongest(s: State, i: nat, y: nat)
    requires s.m.level > 0 && s.m.Shaped() && s.Accounted() && i < |s.tallied| && s.tallied[i].Match? && |s.reasons| == |s.tallied|
    requires s.tallied[i].length >= MIN_MATCH
    ensures var x, n, own, next := Place(s.tallied[..i]), s.tallied[i].length, s.reasons[i].own, s.reasons[i].next;
      && own.at == x && x - s.tallied[i].dist >= 0 && x - s.tallied[i].dist in own.seen
      && Allowed(s.m.strategy, s.m.p.MaxDist(), s.tallied[i].dist)
      && (y in own.seen && n < MAX_MATCH && x + n < own.end ==> !Agree(s.m.data, y, x, n + 1))
      && (s.m.level > 3 && n < s.m.limits.lazy ==> next.at == x + 1 && next.called && Accepted(s.m.strategy, next.longest, x + 1 - next.start) <= n)
  {
    hide Place, Agree, NoneBetter, Latest, NonePassed, Thorough, Allowed;
    var x, r := ReasonAt(s, i);
    var t := s.tallied[i];
    MatchIsSeen(s.m.data, s.m.Rule(), s.m.History(), t.length, t.dist, x, r);
    if y in r.own.seen && t.length < MAX_MATCH && x + t.length < r.own.end && Agree(s.m.data, y, x, t.length + 1) {
      SeenIsNoBetter(s.m.data, s.m.p.MaxDist(), s.m.limits, s.m.strategy, s.m.inserted, r.own, y, t.length + 1);
    }
  }

  /** With strategy Z_HUFFMAN_ONLY there are no matches, and with Z_RLE only those with the byte before. */
  lemma StrategiesAreKept(s: State)
    requires s.m.level > 0 && s.m.Shaped() && s.Accounted()
    ensures s.m.strategy == HuffmanOnly ==> forall i | 0 <= i < |s.tallied| :: s.tallied[i].Literal?
    ensures s.m.strategy == Rle ==> forall i | 0 <= i < |s.tallied| :: s.tallied[i].Match? ==> s.tallied[i].dist == 1
  {
    hide Place, Thorough, Reasoned, ReasonFor, AllReach, ExpandAll;
    s.ExplainedIs(Place(s.tallied));
    forall i | 0 <= i < |s.tallied| && s.tallied[i].Match?
      ensures s.m.strategy != HuffmanOnly && (s.m.strategy == Rle ==> s.tallied[i].dist == 1)
    {
      assert Near(s.tallied[i], s.m.p.MaxDist());
      MatchIsLongest(s, i, 0);
    }
  }

  /** After a full flush no match reaches back behind it. */
  lemma FullFlushForgets(s: State)
    requires s.m.level > 0 && s.m.Shaped() && s.Accounted()
    ensures s.marked <= |s.tallied|
    ensures forall i | s.marked <= i < |s.tallied| && s.tallied[i].Match? :: Place(s.tallied[..i]) - s.tallied[i].dist >= s.m.mark
  {
    hide Place, ReasonFor, AllReach, ExpandAll;
    forall i | s.marked <= i < |s.tallied| && s.tallied[i].Match? ensures Place(s.tallied[..i]) - s.tallied[i].dist >= s.m.mark {
      assert Near(s.tallied[i], s.m.p.MaxDist());
      var x, r := ReasonAt(s, i);
      MatchIsSeen(s.m.data, s.m.Rule(), s.m.History(), s.tallied[i].length, s.tallied[i].dist, x, r);
    }
  }
}
