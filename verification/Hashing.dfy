/** The hash chains of src/ext/zlib/deflate.c: UPDATE_HASH, INSERT_STRING, and what following `head` and `prev` finds. */
module Hashing {
  import opened Bits
  import Adler32

  type byte = Adler32.byte

  const MIN_MATCH := 3
  const MAX_MATCH := 258
  const MIN_LOOKAHEAD := 262

  /** Window and hash table sizes, as deflateInit2 computes them. */
  datatype Params = Params(wSize: nat, hashBits: nat, hashShift: nat) {
    predicate Good() {
      512 <= wSize <= 32768 && 8 <= hashBits <= 16 && hashShift == (hashBits + 2) / 3
    }

    function MaxDist(): int {
      wSize - MIN_LOOKAHEAD
    }
  }

  // ---------------------------------------------------------------- the hash function

  /** UPDATE_HASH */
  function Update(p: Params, h: nat, c: nat): (r: nat)
    ensures r < Pow2(p.hashBits)
  {
    Low(Xor(Shl(h, p.hashShift), c), p.hashBits)
  }

  function Hash3(p: Params, a: nat, b: nat, c: nat): (r: nat)
    ensures r < Pow2(p.hashBits)
  {
    Update(p, Update(p, Update(p, 0, a), b), c)
  }

  function HashAt(p: Params, win: seq<byte>, q: int): (r: nat)
    requires 0 <= q && q + 3 <= |win|
    ensures r < Pow2(p.hashBits)
  {
    Hash3(p, win[q], win[q + 1], win[q + 2])
  }

  lemma {:induction false} LowLow(x: nat, m: nat, n: nat)
    requires m <= n
    ensures Low(Low(x, n), m) == Low(x, m)
    decreases m
  {
    if m > 0 {
      LowLow(x / 2, m - 1, n - 1);
      assert Low(x, n) / 2 == Low(x / 2, n - 1);
    }
  }

  lemma {:induction false} LowOfShl(x: nat, y: nat, s: nat, k: nat, m: nat)
    requires Low(x, k) == Low(y, k) && m <= k + s
    ensures Low(Shl(x, s), m) == Low(Shl(y, s), m)
    decreases s
  {
    if s == 0 {
      LowLow(x, m, k);
      LowLow(y, m, k);
    } else if m > 0 {
      LowOfShl(x, y, s - 1, k, m - 1);
      var u, v := Shl(x, s - 1), Shl(y, s - 1);
      assert 2 * u / 2 == u && 2 * v / 2 == v && 2 * u % 2 == 0 && 2 * v % 2 == 0;
    }
  }

  /** Each update moves what an older byte has contributed up by hashShift bits. */
  lemma UpdateLocal(p: Params, x: nat, y: nat, c: nat, k: nat, m: nat)
    requires Low(x, k) == Low(y, k) && m <= k + p.hashShift && m <= p.hashBits
    ensures Low(Update(p, x, c), m) == Low(Update(p, y, c), m)
  {
    hide Low, Shl, Xor;
    LowOfShl(x, y, p.hashShift, k, m);
    LowLow(Xor(Shl(x, p.hashShift), c), m, p.hashBits);
    LowLow(Xor(Shl(y, p.hashShift), c), m, p.hashBits);
    XorLow(Shl(x, p.hashShift), c, m);
    XorLow(Shl(y, p.hashShift), c, m);
  }

  /** After MIN_MATCH steps the oldest byte no longer takes part in the hash key. */
  lemma UpdateForgets(p: Params, x: nat, y: nat, a: nat, b: nat, c: nat)
    requires p.Good()
    ensures Update(p, Update(p, Update(p, x, a), b), c) == Update(p, Update(p, Update(p, y, a), b), c)
  {
    hide Low, Update;
    LowZero(x);
    LowZero(y);
    var s, n := p.hashShift, p.hashBits;
    UpdateLocal(p, x, y, a, 0, s);
    UpdateLocal(p, Update(p, x, a), Update(p, y, a), b, s, if 2 * s < n then 2 * s else n);
    UpdateLocal(p, Update(p, Update(p, x, a), b), Update(p, Update(p, y, a), b), c, if 2 * s < n then 2 * s else n, n);
    LowSmall(Update(p, Update(p, Update(p, x, a), b), c), n);
    LowSmall(Update(p, Update(p, Update(p, y, a), b), c), n);
  }

  lemma LowZero(x: nat)
    ensures Low(x, 0) == 0
  {
  }

  /** ins_h has taken in the bytes b and c last. */
  ghost predicate Rolled(p: Params, h: nat, b: nat, c: nat) {
    exists x: nat :: h == Update(p, Update(p, x, b), c)
  }

  /** The next update then gives the hash of three bytes. */
  lemma RolledHash(p: Params, h: nat, a: nat, b: nat, c: nat)
    requires p.Good() && Rolled(p, h, a, b)
    ensures Update(p, h, c) == Hash3(p, a, b, c) && Rolled(p, Update(p, h, c), b, c)
  {
    hide Update;
    var x: nat :| h == Update(p, Update(p, x, a), b);
    UpdateForgets(p, x, 0, a, b, c);
    assert Update(p, h, c) == Update(p, Update(p, Update(p, x, a), b), c);
  }

  /** Starting afresh with one byte as it is. */
  lemma RolledStart(p: Params, b: byte, c: nat)
    requires p.Good()
    ensures Rolled(p, Update(p, b, c), b, c)
  {
    hide Low, Shl, Xor;
    Pow2Values();
    Pow2Mono(8, p.hashBits);
    ShlZero(p.hashShift);
    XorZero(b);
    LowSmall(b, p.hashBits);
    assert Update(p, 0, b) == b;
  }

  /** Two equal bytes and an equal hash make the third byte equal. */
  lemma ThirdByte(p: Params, a: byte, b: byte, c: byte, d: byte)
    requires p.Good() && Hash3(p, a, b, c) == Hash3(p, a, b, d)
    ensures c == d
  {
    hide Low, Shl, Xor, Pow2;
    Pow2Values();
    Pow2Mono(8, p.hashBits);
    var h, n := Update(p, Update(p, 0, a), b), p.hashBits;
    var l := Low(Shl(h, p.hashShift), n);
    XorLow(Shl(h, p.hashShift), c, n);
    XorLow(Shl(h, p.hashShift), d, n);
    LowSmall(c, n);
    LowSmall(d, n);
    XorCancel(l, c);
    XorCancel(l, d);
  }

  lemma XorCancel(x: nat, y: nat)
    ensures Xor(x, Xor(x, y)) == y
  {
    hide Xor;
    XorAssoc(x, x, y);
    XorZero(x);
    XorZero(y);
  }

  // ---------------------------------------------------------------- chains

  /** n comes after q on a chain: it is the last inserted position before q with the same hash, or 0 if there is none above 0. */
  ghost predicate Linked(p: Params, win: seq<byte>, ins: set<nat>, q: nat, n: nat)
    requires q + 3 <= |win|
  {
    && (n == 0 || (n < q && n in ins && HashAt(p, win, n) == HashAt(p, win, q)))
    && NoneBetween(p, win, ins, n, q, HashAt(p, win, q))
  }

  /** No position inserted between n and q has hash h. */
  ghost predicate NoneBetween(p: Params, win: seq<byte>, ins: set<nat>, n: nat, q: nat, h: nat) {
    forall m: nat {:trigger m in ins} | m in ins && n < m < q && m + 3 <= |win| :: HashAt(p, win, m) != h
  }

  /** `ins` are the window positions that have been inserted, all of them below `top` and with their three bytes among the first
      `end`. The head of a chain is the last position with its hash, and the links of those less than wSize back are intact. */
  ghost predicate Chained(p: Params, win: seq<byte>, head: seq<nat>, prev: seq<nat>, ins: set<nat>, top: nat, end: nat) {
    && p.wSize > 0 && |prev| == p.wSize && |head| == Pow2(p.hashBits) && end <= |win|
    && (forall q: nat {:trigger q in ins} | q in ins :: q < top && q + 3 <= end)
    && (forall h | 0 <= h < |head| :: head[h] == 0 || (head[h] in ins && HashAt(p, win, head[h]) == h))
    && (forall h | 0 <= h < |head| :: NoneBetween(p, win, ins, head[h], top, h))
    && (forall q: nat {:trigger q in ins} | q in ins && q + p.wSize >= top :: Linked(p, win, ins, q, prev[q % p.wSize]))
  }

  /** Nothing inserted. */
  lemma ChainedNone(p: Params, win: seq<byte>, head: seq<nat>, prev: seq<nat>, top: nat, end: nat)
    requires p.wSize > 0 && |prev| == p.wSize && |head| == Pow2(p.hashBits) && forall h | 0 <= h < |head| :: head[h] == 0
    requires end <= |win|
    ensures Chained(p, win, head, prev, {}, top, end)
  {
  }

  /** Forgetting the history. */
  lemma ChainedCleared(p: Params, win: seq<byte>, head: seq<nat>, prev: seq<nat>, ins: set<nat>, top: nat, end: nat, head': seq<nat>)
    requires Chained(p, win, head, prev, ins, top, end) && |head'| == |head| && forall h | 0 <= h < |head'| :: head'[h] == 0
    ensures Chained(p, win, head', prev, {}, top, end)
  {
  }

  lemma ChainedShape(p: Params, win: seq<byte>, head: seq<nat>, prev: seq<nat>, ins: set<nat>, top: nat, end: nat)
    requires Chained(p, win, head, prev, ins, top, end)
    ensures p.wSize > 0 && |prev| == p.wSize && |head| == Pow2(p.hashBits) && end <= |win|
  {
  }

  /** The head of a chain. */
  lemma HeadIs(p: Params, win: seq<byte>, head: seq<nat>, prev: seq<nat>, ins: set<nat>, top: nat, end: nat, h: nat)
    requires Chained(p, win, head, prev, ins, top, end) && h < |head|
    ensures var q := head[h]; q == 0 || (q in ins && q < top && q + 3 <= end <= |win| && HashAt(p, win, q) == h)
    ensures NoneBetween(p, win, ins, head[h], top, h)
  {
    hide HashAt, NoneBetween;
  }

  /** A step along a chain. */
  lemma ChainNext(p: Params, win: seq<byte>, head: seq<nat>, prev: seq<nat>, ins: set<nat>, top: nat, end: nat, q: nat)
    requires Chained(p, win, head, prev, ins, top, end) && q in ins && q + p.wSize >= top
    ensures q % p.wSize < |prev| && q < top && q + 3 <= end <= |win|
    ensures var n := prev[q % p.wSize];
      n == 0 || (n in ins && n < q && HashAt(p, win, n) == HashAt(p, win, q))
    ensures NoneBetween(p, win, ins, prev[q % p.wSize], q, HashAt(p, win, q))
  {
    hide HashAt, NoneBetween;
    assert Linked(p, win, ins, q, prev[q % p.wSize]);
  }

  lemma InsertedIs(p: Params, win: seq<byte>, head: seq<nat>, prev: seq<nat>, ins: set<nat>, top: nat, end: nat, q: nat)
    requires Chained(p, win, head, prev, ins, top, end) && q in ins
    ensures q < top && q + 3 <= end <= |win|
  {
    hide HashAt;
  }

  /** Less than wSize apart, positions have slots of their own. */
  lemma SlotsApart(q: nat, s: nat, w: nat)
    requires q < s < q + w
    ensures q % w != s % w
  {
    var k, l := q / w, s / w;
    if q % w == s % w {
      assert s - q == w * (l - k);
      if l <= k {
        MulNeg(w, l - k);
      } else {
        MulPos(w, l - k);
      }
    }
  }

  lemma MulNeg(w: nat, x: int)
    requires x <= 0
    ensures w * x <= 0
  {
  }

  lemma MulPos(w: nat, x: int)
    requires x >= 1
    ensures w * x >= w
  {
  }

  lemma ChainedInsert(p: Params, win: seq<byte>, head: seq<nat>, prev: seq<nat>, ins: set<nat>, top: nat, end: nat, s: nat)
    requires Chained(p, win, head, prev, ins, top, end) && top <= s && s + 3 <= end
    ensures var h := HashAt(p, win, s);
      h < |head| && Chained(p, win, head[h := s], prev[s % p.wSize := head[h]], ins + {s}, s + 1, end)
  {
    hide HashAt;
    var h := HashAt(p, win, s);
    var prev' := prev[s % p.wSize := head[h]];
    forall q: nat {:trigger q in ins + {s}} | q in ins + {s} && q + p.wSize >= s + 1
      ensures Linked(p, win, ins + {s}, q, prev'[q % p.wSize])
    {
      if q != s {
        assert q in ins;
        SlotsApart(q, s, p.wSize);
        assert Linked(p, win, ins, q, prev[q % p.wSize]);
      }
    }
  }

  /** More bytes at the end. */
  lemma ChainedGrow(p: Params, win: seq<byte>, head: seq<nat>, prev: seq<nat>, ins: set<nat>, top: nat, end: nat,
                    win': seq<byte>, top': nat, end': nat)
    requires Chained(p, win, head, prev, ins, top, end) && top <= top' && end <= end' <= |win'| && win'[..end] == win[..end]
    ensures Chained(p, win', head, prev, ins, top', end')
  {
    hide Hash3;
    forall q: nat {:trigger q in ins} | q in ins ensures HashAt(p, win', q) == HashAt(p, win, q) {
      assert win'[q] == win[..end][q] && win'[q + 1] == win[..end][q + 1] && win'[q + 2] == win[..end][q + 2];
    }
    forall q: nat {:trigger q in ins} | q in ins && q + p.wSize >= top'
      ensures Linked(p, win', ins, q, prev[q % p.wSize])
    {
      assert Linked(p, win, ins, q, prev[q % p.wSize]);
    }
  }

  /** What the slide makes of a position. */
  function Slid(m: nat, w: nat): nat {
    if m >= w then m - w else 0
  }

  function SlidSet(ins: set<nat>, w: nat): set<nat> {
    set q | q in ins && q >= w :: q - w
  }

  /** The bytes from w to `end` have moved to the front. */
  ghost predicate Moved(win: seq<byte>, win': seq<byte>, w: nat, end: nat) {
    w <= end <= |win| && end - w <= |win'| && win'[..end - w] == win[w..end]
  }

  lemma NoneBetweenSlide(p: Params, win: seq<byte>, win': seq<byte>, w: nat, end: nat, ins: set<nat>, n: nat, q: nat, h: nat)
    requires Moved(win, win', w, end) && (forall m: nat {:trigger m in ins} | m in ins :: m + 3 <= end) && w <= q
    requires NoneBetween(p, win, ins, n, q, h)
    ensures NoneBetween(p, win', SlidSet(ins, w), Slid(n, w), q - w, h)
  {
    hide Hash3;
    var ins' := SlidSet(ins, w);
    forall m: nat {:trigger m in ins'} | m in ins' && Slid(n, w) < m < q - w && m + 3 <= |win'| ensures HashAt(p, win', m) != h {
      assert m + w in ins;
      SameBytes(win, win', w, end, m + w);
    }
  }

  lemma LinkedSlide(p: Params, win: seq<byte>, win': seq<byte>, w: nat, end: nat, ins: set<nat>, q: nat, n: nat)
    requires Moved(win, win', w, end) && (forall m: nat {:trigger m in ins} | m in ins :: m + 3 <= end)
    requires q in ins && w <= q && Linked(p, win, ins, q, n)
    ensures q - w + 3 <= |win'| && Linked(p, win', SlidSet(ins, w), q - w, Slid(n, w))
  {
    hide Hash3, NoneBetween;
    SameBytes(win, win', w, end, q);
    NoneBetweenSlide(p, win, win', w, end, ins, n, q, HashAt(p, win, q));
    if n > w {
      assert n - w in SlidSet(ins, w);
      SameBytes(win, win', w, end, n);
    }
  }

  lemma HeadSlide(p: Params, win: seq<byte>, win': seq<byte>, w: nat, end: nat, ins: set<nat>, top: nat, h: nat, n: nat)
    requires Moved(win, win', w, end) && (forall m: nat {:trigger m in ins} | m in ins :: m + 3 <= end) && w <= top
    requires (n == 0 || (n in ins && HashAt(p, win, n) == h)) && NoneBetween(p, win, ins, n, top, h)
    ensures var n', ins' := Slid(n, w), SlidSet(ins, w);
      && (n' == 0 || (n' in ins' && n' + 3 <= |win'| && HashAt(p, win', n') == h)) && NoneBetween(p, win', ins', n', top - w, h)
  {
    hide Hash3, NoneBetween;
    NoneBetweenSlide(p, win, win', w, end, ins, n, top, h);
    if n > w {
      assert n - w in SlidSet(ins, w);
      SameBytes(win, win', w, end, n);
    }
  }

  lemma ChainedSlide(p: Params, win: seq<byte>, head: seq<nat>, prev: seq<nat>, ins: set<nat>, top: nat, end: nat,
                     win': seq<byte>, head': seq<nat>, prev': seq<nat>)
    requires Chained(p, win, head, prev, ins, top, end) && p.wSize <= top && p.wSize <= end && end - p.wSize <= |win'|
    requires win'[..end - p.wSize] == win[p.wSize..end]
    requires |head'| == |head| && forall i | 0 <= i < |head| :: head'[i] == Slid(head[i], p.wSize)
    requires |prev'| == |prev| && forall i | 0 <= i < |prev| :: prev'[i] == Slid(prev[i], p.wSize)
    ensures Chained(p, win', head', prev', SlidSet(ins, p.wSize), top - p.wSize, end - p.wSize)
  {
    hide HashAt, NoneBetween, Linked, Slid;
    var w, ins' := p.wSize, SlidSet(ins, p.wSize);
    forall h | 0 <= h < |head'|
      ensures head'[h] == 0 || (head'[h] in ins' && head'[h] + 3 <= |win'| && HashAt(p, win', head'[h]) == h)
      ensures NoneBetween(p, win', ins', head'[h], top - w, h)
    {
      HeadSlide(p, win, win', w, end, ins, top, h, head[h]);
    }
    forall q: nat {:trigger q in ins'} | q in ins' && q + w >= top - w
      ensures q + 3 <= |win'| && Linked(p, win', ins', q, prev'[q % w])
    {
      assert q + w in ins;
      SameSlot(q, w);
      LinkedSlide(p, win, win', w, end, ins, q + w, prev[q % w]);
    }
  }

  lemma SameBytes(win: seq<byte>, win': seq<byte>, w: nat, end: nat, q: nat)
    requires w <= q && q + 3 <= end <= |win| && end - w <= |win'| && win'[..end - w] == win[w..end]
    ensures win'[q - w] == win[q] && win'[q - w + 1] == win[q + 1] && win'[q - w + 2] == win[q + 2]
  {
    assert win'[..end - w][q - w] == win[w..end][q - w];
    assert win'[..end - w][q - w + 1] == win[w..end][q - w + 1];
    assert win'[..end - w][q - w + 2] == win[w..end][q - w + 2];
  }

  lemma SameSlot(q: nat, w: nat)
    requires w > 0
    ensures (q + w) % w == q % w
  {
    assert q + w == w * (q / w + 1) + q % w;
    SlotOf(q + w, q / w + 1, q % w, w);
  }

  lemma SlotOf(x: nat, k: nat, r: nat, w: nat)
    requires x == w * k + r && r < w
    ensures x % w == r
  {
    var j := x / w;
    assert w * j + x % w == w * k + r;
    assert w * (j - k) == w * j - w * k && w * (k - j) == w * k - w * j;
    if j > k {
      MulPos(w, j - k);
    } else if j < k {
      MulPos(w, k - j);
    }
  }

  /** Where following the links from q leads in n steps, as long as the positions stay above the limit. */
  function Visit(prev: seq<nat>, q: nat, limit: nat, n: nat): nat {
    if n == 0 then q
    else
      var m := Visit(prev, q, limit, n - 1);
      if m <= limit || |prev| == 0 then 0 else prev[m % |prev|]
  }

  /** Following a chain within the last wSize positions visits inserted positions of the same hash, further and further down. */
  lemma {:induction false} ChainWalk(p: Params, win: seq<byte>, head: seq<nat>, prev: seq<nat>, ins: set<nat>, top: nat, end: nat,
                                     h: nat, limit: nat, n: nat)
    requires Chained(p, win, head, prev, ins, top, end) && h < |head| && limit + p.wSize >= top
    requires Visit(prev, head[h], limit, n) > limit
    ensures var q := Visit(prev, head[h], limit, n);
      q in ins && q < top && q + 3 <= end <= |win| && HashAt(p, win, q) == h
    ensures n > 0 ==> Visit(prev, head[h], limit, n) < Visit(prev, head[h], limit, n - 1)
  {
    hide HashAt, Chained;
    ChainedShape(p, win, head, prev, ins, top, end);
    if n == 0 {
      HeadIs(p, win, head, prev, ins, top, end, h);
    } else {
      var m := Visit(prev, head[h], limit, n - 1);
      ChainWalk(p, win, head, prev, ins, top, end, h, limit, n - 1);
      ChainNext(p, win, head, prev, ins, top, end, m);
      InsertedIs(p, win, head, prev, ins, top, end, Visit(prev, head[h], limit, n));
    }
  }

  // ---------------------------------------------------------------- the slots that have been written

  /** Even a stale position leads only to slots that have been written, and those hold positions below `top`. */
  ghost predicate Slotted(w: nat, head: seq<nat>, prev: seq<nat>, slots: set<nat>, top: nat) {
    && w > 0 && |prev| == w && (forall r: nat {:trigger r in slots} | r in slots :: r < w && Written(w, prev[r], slots, top))
    && forall h | 0 <= h < |head| :: Written(w, head[h], slots, top)
  }

  ghost predicate Written(w: nat, q: nat, slots: set<nat>, top: nat)
    requires w > 0
  {
    q == 0 || (q < top && q % w in slots)
  }

  lemma SlottedMore(w: nat, head: seq<nat>, prev: seq<nat>, slots: set<nat>, top: nat, top': nat)
    requires Slotted(w, head, prev, slots, top) && top <= top'
    ensures Slotted(w, head, prev, slots, top')
  {
  }

  lemma SlottedCleared(w: nat, head: seq<nat>, prev: seq<nat>, slots: set<nat>, top: nat, head': seq<nat>)
    requires Slotted(w, head, prev, slots, top) && forall h | 0 <= h < |head'| :: head'[h] == 0
    ensures Slotted(w, head', prev, slots, top)
  {
  }

  lemma SlottedNext(w: nat, head: seq<nat>, prev: seq<nat>, slots: set<nat>, top: nat, q: nat)
    requires Slotted(w, head, prev, slots, top) && q % w in slots
    ensures q % w < |prev| && Written(w, prev[q % w], slots, top)
  {
  }

  lemma SlottedInsert(w: nat, head: seq<nat>, prev: seq<nat>, slots: set<nat>, top: nat, h: nat, s: nat)
    requires Slotted(w, head, prev, slots, top) && top <= s && h < |head|
    ensures Slotted(w, head[h := s], prev[s % w := head[h]], slots + {s % w}, s + 1)
  {
    var prev', slots' := prev[s % w := head[h]], slots + {s % w};
    assert Written(w, head[h], slots, top);
    forall r: nat {:trigger r in slots'} | r in slots' ensures r < w && Written(w, prev'[r], slots', s + 1) {
      assert r != s % w ==> r in slots;
    }
  }

  lemma SlottedSlide(w: nat, head: seq<nat>, prev: seq<nat>, slots: set<nat>, top: nat, head': seq<nat>, prev': seq<nat>)
    requires Slotted(w, head, prev, slots, top) && w <= top
    requires |head'| == |head| && forall i | 0 <= i < |head| :: head'[i] == Slid(head[i], w)
    requires |prev'| == |prev| && forall i | 0 <= i < |prev| :: prev'[i] == Slid(prev[i], w)
    ensures Slotted(w, head', prev', slots, top - w)
  {
    forall q: nat | Written(w, q, slots, top) ensures Written(w, Slid(q, w), slots, top - w) {
      if q >= w {
        SameSlot(q - w, w);
      }
    }
  }

  /** INSERT_STRING */
  method InsertString(p: Params, window: array<byte>, prev: array<nat>, head: array<nat>, insH0: nat, str: nat,
                      ghost ins: set<nat>, ghost slots: set<nat>, ghost top: nat, ghost end: nat)
    returns (insH: nat, hashHead: nat)
    requires p.Good() && prev != head && Chained(p, window[..], head[..], prev[..], ins, top, end)
    requires top <= str && str + 3 <= end && Rolled(p, insH0, window[..][str], window[..][str + 1])
    requires Slotted(p.wSize, head[..], prev[..], slots, top)
    modifies prev, head
    ensures Chained(p, window[..], head[..], prev[..], ins + {str}, str + 1, end)
    ensures Slotted(p.wSize, head[..], prev[..], slots + {str % p.wSize}, str + 1)
    ensures insH == HashAt(p, window[..], str) && Rolled(p, insH, window[..][str + 1], window[..][str + 2])
    ensures hashHead == 0 ||
      (hashHead in ins && hashHead < str && hashHead + 3 <= end && HashAt(p, window[..], hashHead) == insH)
    ensures Written(p.wSize, hashHead, slots, top)
    ensures insH < head.Length && head[insH] == str && prev.Length == p.wSize && prev[str % p.wSize] == hashHead
  {
    hide Chained, Rolled, Update, Pow2, Hash3, Slotted;
    ghost var win, h0, p0 := window[..], head[..], prev[..];
    ChainedShape(p, win, h0, p0, ins, top, end);
    RolledHash(p, insH0, window[str], window[str + 1], window[str + 2]);
    insH := Update(p, insH0, window[str + 2]);
    HeadIs(p, win, h0, p0, ins, top, end, insH);
    HeadWritten(p.wSize, h0, p0, slots, top, insH);
    ChainedInsert(p, win, h0, p0, ins, top, end, str);
    SlottedInsert(p.wSize, h0, p0, slots, top, insH, str);
    hashHead := head[insH];
    prev[str % p.wSize] := hashHead;
    head[insH] := str;
    assert head[..] == h0[insH := str] && prev[..] == p0[str % p.wSize := hashHead] && window[..] == win;
  }

  lemma HeadWritten(w: nat, head: seq<nat>, prev: seq<nat>, slots: set<nat>, top: nat, h: nat)
    requires Slotted(w, head, prev, slots, top) && h < |head|
    ensures Written(w, head[h], slots, top)
  {
  }
}
