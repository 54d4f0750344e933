/** What a search of src/ext/zlib/deflate.c says about the data: the strings that were looked at are all the earlier ones that
    begin with the same three bytes, as far as the distance and the chain limits allow, and none of them agrees in more bytes. */
module Looking {
  import opened Bits
  import opened Inflation
  import opened Hashing
  import opened Matching
  import opened Sliding
  import opened Advancing

  /** A search for the string at byte `at` of the data, of which `end` bytes had been read; `called` if a match that beats `least` was
      looked for at all. It compared the strings at `seen`, with the answer `longest` at `start`. What was before byte `from` had been
      forgotten. */
  datatype Look = Look(at: nat, end: nat, called: bool, least: nat, seen: seq<nat>, longest: nat, start: int, from: nat)

  /** The n bytes at y and at x are the same. */
  ghost predicate Agree(data: seq<byte>, y: nat, x: nat, n: nat) {
    y + n <= |data| && x + n <= |data| && data[y..y + n] == data[x..x + n]
  }

  /** The distances that a match may have. */
  predicate Allowed(strategy: Strategy, maxDist: int, d: int) {
    strategy != HuffmanOnly && 1 <= d <= maxDist && (strategy == Rle ==> d == 1)
  }

  /** The distances that a search is meant to cover. */
  predicate Covered(strategy: Strategy, maxDist: int, d: int) {
    strategy != HuffmanOnly && if strategy == Rle then d == 1 else d < maxDist
  }

  /** The search was cut short before it came to y: by the number of strings allowed, or by a match that was nice enough. */
  ghost predicate Beyond(l: Limits, look: Look, y: nat) {
    && look.at < look.end && look.seen != [] && y < look.seen[|look.seen| - 1]
    && (|look.seen| == ChainLimit(l.chain, look.least, l.good) || look.longest >= Min(l.nice, look.end - look.at))
  }

  /** No string looked at agrees in more bytes than the answer says. */
  ghost predicate NoneBetter(data: seq<byte>, look: Look) {
    look.at < look.end && look.longest < look.end - look.at && look.longest < MAX_MATCH ==>
      forall k | 0 <= k < |look.seen| :: look.seen[k] <= look.at && !Agree(data, look.seen[k], look.at, look.longest + 1)
  }

  /** The strings looked at are earlier ones that had been inserted, from the latest on. */
  ghost predicate Latest(strategy: Strategy, maxDist: int, known: set<nat>, look: Look) {
    forall k | 0 <= k < |look.seen| ::
      look.from <= look.seen[k] < look.at && Allowed(strategy, maxDist, look.at - look.seen[k]) && look.seen[k] in known
      && (k > 0 ==> look.seen[k] < look.seen[k - 1])
  }

  /** None that begins with the same three bytes was passed by. */
  ghost predicate NonePassed(data: seq<byte>, maxDist: int, l: Limits, strategy: Strategy, known: set<nat>, look: Look) {
    forall y: nat {:trigger y in known} |
      y in known && 0 < y && look.from <= y < look.at && Covered(strategy, maxDist, look.at - y) && Agree(data, y, look.at, MIN_MATCH) ::
      y in look.seen || Beyond(l, look, y)
  }

  /** All this, where the strings at `known` had been inserted, and perhaps later ones. */
  ghost predicate Thorough(data: seq<byte>, maxDist: int, l: Limits, strategy: Strategy, known: set<nat>, look: Look) {
    && look.at < look.end <= |data| && NoneBetter(data, look)
    && (look.longest <= look.end - look.at || look.longest < MIN_MATCH)
    && (look.end - look.at >= MIN_MATCH ==>
          && Latest(strategy, maxDist, known, look) && (look.called ==> NonePassed(data, maxDist, l, strategy, known, look))
          && (look.called && look.longest >= MIN_MATCH && look.longest > look.least ==> look.start >= 0 && look.start in look.seen))
  }

  // ---------------------------------------------------------------- from the window to the data

  /** Window positions, in the data. */
  function Shifted(qs: seq<nat>, base: nat): (r: seq<nat>)
    ensures |r| == |qs| && forall i | 0 <= i < |qs| :: r[i] == base + qs[i]
  {
    seq(|qs|, i requires 0 <= i < |qs| => base + qs[i])
  }

  /** The window positions in `ins` are those of the strings at `known`, as far as they are in the window and not forgotten. */
  ghost predicate Shown(ins: set<nat>, base: nat, from: nat, known: set<nat>) {
    && (forall q: nat {:trigger q in ins} | q in ins :: base + q >= from && base + q in known)
    && (forall y: nat {:trigger y in known} | y in known && y >= base && y >= from :: y - base in ins)
  }

  lemma AgreeInWindow(p: Params, win: seq<byte>, s: nat, lookahead: nat, base: nat, data: seq<byte>, q: nat, n: nat)
    requires Shows(p, win, s, lookahead, base, data) && q <= s && n <= lookahead && Agree(data, base + q, base + s, n)
    ensures s + n <= |win| && win[q..q + n] == win[s..s + n]
  {
    ShowsPart(p, win, s, lookahead, base, data, q, q + n);
    ShowsPart(p, win, s, lookahead, base, data, s, s + n);
  }

  lemma BetterInWindow(p: Params, win: seq<byte>, s: nat, lookahead: nat, base: nat, data: seq<byte>, qs: seq<nat>, look: Look)
    requires Shows(p, win, s, lookahead, base, data) && look.seen == Shifted(qs, base) && look.at == base + s
      && look.end == base + s + lookahead
    requires look.longest < lookahead ==> NoneLonger(win, qs, s, look.longest)
    ensures NoneBetter(data, look)
  {
    hide Shows;
    var n := look.longest;
    if n < lookahead && n < MAX_MATCH {
      forall k | 0 <= k < |qs| ensures !Agree(data, base + qs[k], base + s, n + 1) {
        assert NoLonger(win, qs[k], s, n);
        if Agree(data, base + qs[k], base + s, n + 1) {
          AgreeInWindow(p, win, s, lookahead, base, data, qs[k], n + 1);
        }
      }
    }
  }

  /** Three equal bytes have the same hash. */
  lemma SameHash(p: Params, win: seq<byte>, q: nat, s: nat)
    requires q <= s && s + 3 <= |win| && win[q..q + 3] == win[s..s + 3]
    ensures HashAt(p, win, q) == HashAt(p, win, s)
  {
    hide Hash3;
    assert win[q..q + 3][0] == win[s..s + 3][0] && win[q..q + 3][1] == win[s..s + 3][1] && win[q..q + 3][2] == win[s..s + 3][2];
  }

  /** All positions before the window's distance have been left behind. */
  predicate Deep(maxDist: int, s: nat, base: nat) {
    base == 0 || s >= maxDist
  }

  /** Every string before byte n was inserted or is excused. */
  ghost predicate Complete(inserted: set<nat>, excused: set<nat>, n: int) {
    forall y: nat {:trigger y in inserted} | y < n :: y in inserted || y in excused
  }

  lemma CompleteStill(inserted: set<nat>, excused: set<nat>, inserted': set<nat>, excused': set<nat>, n: int)
    requires Complete(inserted, excused, n) && inserted <= inserted' && excused <= excused'
    ensures Complete(inserted', excused', n)
  {
    forall y: nat {:trigger y in inserted'} | y < n ensures y in inserted' || y in excused' {
      assert y in inserted || y in excused;
    }
  }

  /** The bytes from a on, before b. */
  function Interval(a: nat, b: int): (r: set<nat>)
    ensures forall y: nat {:trigger y in r} :: y in r <==> a <= y < b
    decreases b - a
  {
    if a >= b then {} else {a} + Interval(a + 1, b)
  }

  /** The string at s has been inserted, or is excused. */
  lemma InsertShown(ins: set<nat>, inserted: set<nat>, excused: set<nat>, base: nat, mark: nat, s: nat)
    requires Shown(ins, base, mark, inserted) && mark <= base + s && Complete(inserted, excused, base + s)
    ensures Shown(ins + {s}, base, mark, inserted + {base + s}) && Complete(inserted + {base + s}, excused, base + s)
    ensures Complete(inserted, excused + {base + s}, base + s)
  {
  }

  /** The strings after s0 have been inserted up to k. */
  lemma PassShown(ins0: set<nat>, inserted: set<nat>, ins: set<nat>, base: nat, mark: nat, s0: nat, k: nat)
    requires Shown(ins0, base, mark, inserted) && mark <= base + s0 && Adds(ins0, ins, s0, k - 1)
    ensures Shown(ins, base, mark, inserted + Interval(base + s0 + 1, base + k))
  {
    var more := Interval(base + s0 + 1, base + k);
    var now := inserted + more;
    forall y: nat {:trigger y in now} | y in now && y >= base && y >= mark ensures y - base in ins {
      if y in inserted {
        assert y - base in ins0;
      } else {
        assert y in more;
      }
    }
    forall q: nat {:trigger q in ins} | q in ins ensures base + q >= mark && base + q in now {
      if q !in ins0 {
        assert base + q in more;
      }
    }
  }

  /** And those from there to s are excused. */
  lemma PassComplete(inserted: set<nat>, excused: set<nat>, base: nat, s0: nat, k: nat, s: nat)
    requires Complete(inserted, excused, base + s0) && (base + s0 in inserted || base + s0 in excused) && s0 < k <= s
    ensures Complete(inserted + Interval(base + s0 + 1, base + k), excused + Interval(base + k, base + s), base + s)
  {
    var m, e := Interval(base + s0 + 1, base + k), Interval(base + k, base + s);
    var now, out := inserted + m, excused + e;
    forall y: nat {:trigger y in now} | y < base + s ensures y in now || y in out {
      if y < base + s0 {
        assert y in inserted || y in excused;
      } else if base + s0 < y < base + k {
        assert y in m;
      } else if y >= base + k {
        assert y in e;
      }
    }
  }

  lemma AddsUpto(ins0: set<nat>, ins: set<nat>, a: nat, b: int, k: nat)
    requires Adds(ins0, ins, a, b) && (k == b + 1 || (b <= a && k == a + 1))
    ensures Adds(ins0, ins, a, k - 1)
  {
  }

  lemma AddsNone(ins: set<nat>, s: nat)
    ensures Adds(ins, ins, s, s)
  {
  }

  /** Sliding. */
  lemma ShownSlide(ins0: set<nat>, base0: nat, ins: set<nat>, base: nat, mark: nat, inserted: set<nat>)
    requires Shown(ins0, base0, mark, inserted) && SameInserted(ins0, base0, ins, base)
    ensures Shown(ins, base, mark, inserted)
  {
    forall y: nat {:trigger y in inserted} | y in inserted && y >= base && y >= mark ensures y - base in ins {
      assert y - base0 in ins0;
      assert (y - base) + (base - base0) in ins0;
    }
  }

  function LookOf(s: nat, lookahead: nat, base: nat, least: nat, longest: nat, start: int, seen: seq<nat>, from: nat): Look {
    Look(base + s, base + s + lookahead, true, least, Shifted(seen, base), longest, base + start, from)
  }

  /** The search stands for the data that the window shows. */
  lemma SoughtIsThorough(p: Params, l: Limits, strategy: Strategy, win: seq<byte>, head: seq<nat>, prev: seq<nat>, ins: set<nat>,
                         slots: set<nat>, insH: nat, s: nat, lookahead: nat, base: nat, data: seq<byte>, least: nat, hashHead: nat,
                         longest: nat, start: int, seen: seq<nat>, from: nat, known: set<nat>)
    requires p.Good() && Inserted(p, win, head, prev, ins, slots, insH, s, lookahead, base, data) && lookahead >= 1
    requires Deep(p.MaxDist(), s, base) && Shown(ins, base, from, known)
    requires lookahead >= MIN_MATCH ==> s in ins && |prev| == p.wSize && prev[s % p.wSize] == hashHead
    requires Sought(p, l, strategy, win, prev, s, lookahead, least, hashHead, longest, start, seen)
    ensures Thorough(data, p.MaxDist(), l, strategy, known, LookOf(s, lookahead, base, least, longest, start, seen, from))
  {
    hide Chained, Slotted, Rolled, HashAt, NoneBetween, Shows, NoLonger, Walked, WalkedOut, Agree, NoneBetter, NonePassed, Sought, Shown;
    var look := LookOf(s, lookahead, base, least, longest, start, seen, from);
    ShowsSize(p, win, s, lookahead, base, data);
    SoughtLonger(p, l, strategy, win, prev, s, lookahead, least, hashHead, longest, start, seen);
    BetterInWindow(p, win, s, lookahead, base, data, seen, look);
    if lookahead >= MIN_MATCH {
      SoughtLatest(p, l, strategy, win, head, prev, ins, s, s + lookahead, lookahead, least, hashHead, longest, start, seen, base, look,
                   known);
      SoughtAll(p, l, strategy, win, head, prev, ins, s, lookahead, base, data, least, hashHead, longest, start, seen, look, known);
    }
  }

  lemma SoughtLonger(p: Params, l: Limits, strategy: Strategy, win: seq<byte>, prev: seq<nat>, s: nat, lookahead: nat, least: nat,
                     hashHead: nat, longest: nat, start: int, seen: seq<nat>)
    requires Sought(p, l, strategy, win, prev, s, lookahead, least, hashHead, longest, start, seen)
    ensures longest < lookahead ==> NoneLonger(win, seen, s, longest)
    ensures longest <= lookahead || longest < MIN_MATCH
  {
    hide NoLonger, Walked, WalkedOut;
  }

  lemma SoughtLatest(p: Params, l: Limits, strategy: Strategy, win: seq<byte>, head: seq<nat>, prev: seq<nat>, ins: set<nat>, s: nat,
                     end: nat, lookahead: nat, least: nat, hashHead: nat, longest: nat, start: int, seen: seq<nat>, base: nat, look: Look,
                     known: set<nat>)
    requires p.Good() && Chained(p, win, head, prev, ins, s + 1, end) && s in ins && s + 3 <= |win|
    requires |prev| == p.wSize && prev[s % p.wSize] == hashHead
    requires Sought(p, l, strategy, win, prev, s, lookahead, least, hashHead, longest, start, seen)
    requires look.seen == Shifted(seen, base) && look.at == base + s && Shown(ins, base, look.from, known)
    ensures Latest(strategy, p.MaxDist(), known, look)
    ensures longest >= MIN_MATCH && longest > least ==> base + start >= 0 && base + start in look.seen
  {
    hide Chained, HashAt, NoneBetween, NoneLonger, WalkedOut, Walked, Sought, Allowed, Shown, Latest, Falling;
    forall k | 0 <= k < |seen| ensures Falling(strategy, p.MaxDist(), ins, s, seen, k) {
      OneSeen(p, l, strategy, win, head, prev, ins, s, end, lookahead, least, hashHead, longest, start, seen, k);
    }
    FallingIsLatest(strategy, p.MaxDist(), ins, s, seen, base, known, look);
    StartIsSeen(p, l, strategy, win, prev, s, lookahead, least, hashHead, longest, start, seen);
    if longest >= MIN_MATCH && longest > least {
      assert start in seen;
      var k :| 0 <= k < |seen| && seen[k] == start;
      assert look.seen[k] == base + start;
    }
  }

  lemma StartIsSeen(p: Params, l: Limits, strategy: Strategy, win: seq<byte>, prev: seq<nat>, s: nat, lookahead: nat, least: nat,
                    hashHead: nat, longest: nat, start: int, seen: seq<nat>)
    requires Sought(p, l, strategy, win, prev, s, lookahead, least, hashHead, longest, start, seen)
    ensures longest >= MIN_MATCH && longest > least ==> start in seen
  {
    hide NoneLonger, Walked, WalkedOut;
  }

  ghost predicate Falling(strategy: Strategy, maxDist: int, ins: set<nat>, s: nat, seen: seq<nat>, k: nat)
    requires k < |seen|
  {
    Allowed(strategy, maxDist, s - seen[k]) && seen[k] in ins && (k > 0 ==> seen[k] < seen[k - 1])
  }

  lemma FallingIsLatest(strategy: Strategy, maxDist: int, ins: set<nat>, s: nat, seen: seq<nat>, base: nat, known: set<nat>, look: Look)
    requires forall k | 0 <= k < |seen| :: Falling(strategy, maxDist, ins, s, seen, k)
    requires look.seen == Shifted(seen, base) && look.at == base + s && Shown(ins, base, look.from, known)
    ensures Latest(strategy, maxDist, known, look)
  {
    forall k | 0 <= k < |look.seen|
      ensures look.from <= look.seen[k] < look.at && Allowed(strategy, maxDist, look.at - look.seen[k]) && look.seen[k] in known
      ensures k > 0 ==> look.seen[k] < look.seen[k - 1]
    {
      assert Falling(strategy, maxDist, ins, s, seen, k);
    }
  }

  lemma OneSeen(p: Params, l: Limits, strategy: Strategy, win: seq<byte>, head: seq<nat>, prev: seq<nat>, ins: set<nat>, s: nat,
                end: nat, lookahead: nat, least: nat, hashHead: nat, longest: nat, start: int, seen: seq<nat>, k: nat)
    requires p.Good() && Chained(p, win, head, prev, ins, s + 1, end) && s in ins && s + 3 <= |win|
    requires |prev| == p.wSize && prev[s % p.wSize] == hashHead && k < |seen|
    requires Sought(p, l, strategy, win, prev, s, lookahead, least, hashHead, longest, start, seen)
    ensures Falling(strategy, p.MaxDist(), ins, s, seen, k)
  {
    hide Chained, HashAt, NoneBetween, NoneLonger, WalkedOut, Walked;
    if strategy == Rle {
      ChainNext(p, win, head, prev, ins, s + 1, end, s);
    } else {
      WalkedAt(p, win, head, prev, ins, s, end, seen, k);
    }
  }

  lemma SoughtAll(p: Params, l: Limits, strategy: Strategy, win: seq<byte>, head: seq<nat>, prev: seq<nat>, ins: set<nat>, s: nat,
                  lookahead: nat, base: nat, data: seq<byte>, least: nat, hashHead: nat, longest: nat, start: int, seen: seq<nat>,
                  look: Look, known: set<nat>)
    requires p.Good() && Chained(p, win, head, prev, ins, s + 1, s + lookahead) && s in ins && lookahead >= MIN_MATCH
    requires Shows(p, win, s, lookahead, base, data) && Deep(p.MaxDist(), s, base)
    requires |prev| == p.wSize && prev[s % p.wSize] == hashHead
    requires Sought(p, l, strategy, win, prev, s, lookahead, least, hashHead, longest, start, seen)
    requires look == LookOf(s, lookahead, base, least, longest, start, seen, look.from)
    requires Shown(ins, base, look.from, known)
    ensures NonePassed(data, p.MaxDist(), l, strategy, known, look)
  {
    hide Chained, HashAt, NoneBetween, NoneLonger, WalkedOut, Walked, Shows, Agree, Sought;
    ShowsSize(p, win, s, lookahead, base, data);
    forall y: nat {:trigger y in known} |
      y in known && 0 < y && look.from <= y < look.at && Covered(strategy, p.MaxDist(), look.at - y)
      && Agree(data, y, look.at, MIN_MATCH)
      ensures y in look.seen || Beyond(l, look, y)
    {
      var m: int := y - base;
      assert m > 0 && m in ins;
      AgreeInWindow(p, win, s, lookahead, base, data, m, MIN_MATCH);
      SameHash(p, win, m, s);
      SoughtOne(p, l, strategy, win, head, prev, ins, s, lookahead, least, hashHead, longest, start, seen, m);
      if m in seen {
        var k :| 0 <= k < |seen| && seen[k] == m;
        assert look.seen[k] == y;
      }
    }
  }

  /** One inserted position with the same hash is seen, or beyond where the search was cut short. */
  lemma SoughtOne(p: Params, l: Limits, strategy: Strategy, win: seq<byte>, head: seq<nat>, prev: seq<nat>, ins: set<nat>, s: nat,
                  lookahead: nat, least: nat, hashHead: nat, longest: nat, start: int, seen: seq<nat>, m: nat)
    requires p.Good() && Chained(p, win, head, prev, ins, s + 1, s + lookahead) && s in ins && lookahead >= MIN_MATCH
      && s + lookahead <= |win|
    requires |prev| == p.wSize && prev[s % p.wSize] == hashHead
    requires Sought(p, l, strategy, win, prev, s, lookahead, least, hashHead, longest, start, seen)
    requires m in ins && 0 < m < s && Covered(strategy, p.MaxDist(), s - m) && HashAt(p, win, m) == HashAt(p, win, s)
    ensures m in seen || (seen != [] && m < seen[|seen| - 1]
                          && (|seen| == ChainLimit(l.chain, least, l.good) || longest >= Min(l.nice, lookahead)))
  {
    hide Chained, HashAt, NoneLonger, WalkedOut, Walked;
    ChainNext(p, win, head, prev, ins, s + 1, s + lookahead, s);
    if strategy != Rle {
      WalkedNotEmpty(prev, p.wSize, Limit(p, s), hashHead, seen);
      var last, chain := |seen| - 1, ChainLimit(l.chain, least, l.good);
      WalkedAll(p, win, head, prev, ins, s, s + lookahead, seen, last, m);
      WalkedAt(p, win, head, prev, ins, s, s + lookahead, seen, last);
      if longest < lookahead && longest < l.nice && |seen| < chain {
        WalkedToTheEnd(p, win, head, prev, ins, s, s + lookahead, seen, chain, m);
      }
    }
  }

  lemma WalkedNotEmpty(prev: seq<nat>, w: nat, limit: nat, first: nat, qs: seq<nat>)
    requires Walked(prev, w, limit, first, qs)
    ensures qs != []
  {
  }

  /** Where no match was looked for. */
  function NoLook(s: nat, lookahead: nat, base: nat, least: nat, start: int, from: nat): Look {
    LookOf(s, lookahead, base, least, MIN_MATCH - 1, start, [], from).(called := false)
  }

  lemma NoLookIsThorough(maxDist: int, l: Limits, strategy: Strategy, s: nat, lookahead: nat, base: nat, data: seq<byte>, least: nat,
                         start: int, from: nat, known: set<nat>)
    requires lookahead >= 1 && base + s + lookahead == |data|
    ensures Thorough(data, maxDist, l, strategy, known, NoLook(s, lookahead, base, least, start, from))
  {
    hide Agree;
  }

  // ---------------------------------------------------------------- more data

  lemma AgreeMore(data: seq<byte>, more: seq<byte>, y: nat, x: nat, n: nat)
    requires y <= x && x + n <= |data|
    ensures Agree(data + more, y, x, n) <==> Agree(data, y, x, n)
  {
    assert (data + more)[y..y + n] == data[y..y + n] && (data + more)[x..x + n] == data[x..x + n];
  }

  /** More data, and strings inserted from byte n on. */
  lemma ThoroughMore(data: seq<byte>, maxDist: int, l: Limits, strategy: Strategy, known: set<nat>, look: Look, more: seq<byte>,
                     known': set<nat>, n: int)
    requires Thorough(data, maxDist, l, strategy, known, look) && known <= known' && look.at <= n
    requires forall y: nat {:trigger y in known'} | y in known' && y !in known :: y >= n
    ensures Thorough(data + more, maxDist, l, strategy, known', look)
  {
    hide Agree, Beyond, Allowed, Covered;
    var m := look.longest;
    if m < look.end - look.at && m < MAX_MATCH {
      forall k | 0 <= k < |look.seen| ensures look.seen[k] <= look.at && !Agree(data + more, look.seen[k], look.at, m + 1) {
        AgreeMore(data, more, look.seen[k], look.at, m + 1);
      }
    }
    if look.end - look.at >= MIN_MATCH && look.called {
      forall y: nat {:trigger y in known'} |
        y in known' && 0 < y && look.from <= y < look.at && Covered(strategy, maxDist, look.at - y)
        && Agree(data + more, y, look.at, MIN_MATCH)
        ensures y in look.seen || Beyond(l, look, y)
      {
        assert y in known;
        AgreeMore(data, more, y, look.at, MIN_MATCH);
      }
    }
  }
}
