/** What the tokens of a compressed stream stand for: a stretch of the data they were made from. */
module Covering {
  import opened Inflation
  import opened Blocks
  import opened Hashing
  import opened Matching

  /** A token that deflate may emit. */
  predicate Near(t: Token, maxDist: int) {
    GoodToken(t) && (t.Match? ==> t.dist <= maxDist)
  }

  /** After the first `from` bytes of the data the tokens stand for the bytes up to `to`. */
  ghost predicate Covers(data: seq<byte>, from: nat, ts: seq<Token>, to: nat, maxDist: int) {
    && from <= to <= |data| && AllReach(data[..from], ts) && ExpandAll(data[..from], ts) == data[..to]
    && forall i | 0 <= i < |ts| :: Near(ts[i], maxDist)
  }

  lemma CoversNone(data: seq<byte>, at: nat, maxDist: int)
    requires at <= |data|
    ensures Covers(data, at, [], at, maxDist)
  {
  }

  lemma CoversMore(data: seq<byte>, from: nat, ts: seq<Token>, to: nat, maxDist: int, more: seq<byte>)
    requires Covers(data, from, ts, to, maxDist)
    ensures Covers(data + more, from, ts, to, maxDist)
  {
    hide AllReach, ExpandAll, Near;
    assert (data + more)[..from] == data[..from] && (data + more)[..to] == data[..to];
  }

  lemma OneMore(h: seq<byte>, ts: seq<Token>, t: Token)
    requires AllReach(h, ts) && Reaches(ExpandAll(h, ts), t)
    ensures AllReach(h, ts + [t]) && ExpandAll(h, ts + [t]) == Expand(ExpandAll(h, ts), t)
  {
    hide Expand, Reaches;
    assert (ts + [t])[..|ts|] == ts && (ts + [t])[|ts|] == t;
  }

  lemma CoversLiteral(data: seq<byte>, from: nat, ts: seq<Token>, to: nat, maxDist: int)
    requires Covers(data, from, ts, to, maxDist) && to < |data|
    ensures Covers(data, from, ts + [Literal(data[to])], to + 1, maxDist)
  {
    hide AllReach, ExpandAll;
    OneMore(data[..from], ts, Literal(data[to]));
    assert data[..to + 1] == data[..to] + [data[to]];
  }

  lemma CoversMatch(data: seq<byte>, from: nat, ts: seq<Token>, to: nat, maxDist: int, start: int, n: nat)
    requires Covers(data, from, ts, to, maxDist) && MatchAt(data, to, start, n, maxDist) && 3 <= n <= 258
      && maxDist <= 32768
    ensures to - start >= 1 && Covers(data, from, ts + [Match(n, to - start)], to + n, maxDist)
  {
    hide AllReach, ExpandAll, CopyBack;
    OneMore(data[..from], ts, Match(n, to - start));
    MatchExpands(data, to, start, n, maxDist);
  }

  lemma CoversIs(data: seq<byte>, from: nat, ts: seq<Token>, to: nat, maxDist: int)
    requires Covers(data, from, ts, to, maxDist)
    ensures from <= to <= |data| && AllReach(data[..from], ts) && ExpandAll(data[..from], ts) == data[..to]
  {
    hide AllReach, ExpandAll, Near;
  }
}
