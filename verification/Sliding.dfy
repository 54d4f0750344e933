/** fill_window of src/ext/zlib/deflate.c: the sliding window over the input, and the hash chains that slide with it. */
module Sliding {
  import opened Bits
  import opened Inflation
  import opened Checking
  import opened Hashing
  import Adler32

  /** The window holds the input from byte `base` on: all that has been read, with `lookahead` bytes of it from `strstart` on
      still to be compressed; the chains hold positions before `strstart`. */
  ghost predicate Tracks(p: Params, win: seq<byte>, head: seq<nat>, prev: seq<nat>, ins: set<nat>, slots: set<nat>, insH: nat,
                         strstart: nat, lookahead: nat, base: nat, data: seq<byte>)
  {
    && Shows(p, win, strstart, lookahead, base, data)
    && Chained(p, win, head, prev, ins, strstart, strstart + lookahead) && Slotted(p.wSize, head, prev, slots, strstart)
    && (lookahead >= MIN_MATCH ==> Rolled(p, insH, win[strstart], win[strstart + 1]))
  }

  ghost predicate Shows(p: Params, win: seq<byte>, strstart: nat, lookahead: nat, base: nat, data: seq<byte>) {
    && |win| == 2 * p.wSize && strstart + lookahead <= |win| && base + strstart + lookahead == |data|
    && win[..strstart + lookahead] == data[base..]
  }

  /** A window position, in the data. */
  lemma ShowsAt(p: Params, win: seq<byte>, strstart: nat, lookahead: nat, base: nat, data: seq<byte>, i: nat)
    requires Shows(p, win, strstart, lookahead, base, data) && i < strstart + lookahead
    ensures i < |win| && base + i < |data| && win[i] == data[base + i]
  {
    assert win[..strstart + lookahead][i] == data[base..][i];
  }

  lemma ShowsPart(p: Params, win: seq<byte>, strstart: nat, lookahead: nat, base: nat, data: seq<byte>, i: nat, j: nat)
    requires Shows(p, win, strstart, lookahead, base, data) && i <= j <= strstart + lookahead
    ensures j <= |win| && base + j <= |data| && win[i..j] == data[base + i..base + j]
  {
    assert win[i..j] == win[..strstart + lookahead][i..j];
    assert data[base + i..base + j] == data[base..][i..j];
  }

  // ---------------------------------------------------------------- sliding

  method SlideTable(t: array<nat>, w: nat)
    modifies t
    ensures forall i | 0 <= i < t.Length :: t[i] == Slid(old(t[i]), w)
  {
    var n := t.Length;
    while n != 0
      invariant 0 <= n <= t.Length
      invariant forall i | 0 <= i < n :: t[i] == old(t[i])
      invariant forall i | n <= i < t.Length :: t[i] == Slid(old(t[i]), w)
    {
      n := n - 1;
      var m := t[n];
      t[n] := if m >= w then m - w else 0;
    }
  }

  /** The upper half of the window moves to the lower one. */
  method MoveDown(window: array<byte>, w: nat)
    requires window.Length == 2 * w
    modifies window
    ensures window[..w] == old(window[w..])
  {
    for i := 0 to w
      invariant forall j | 0 <= j < i :: window[j] == old(window[w + j])
      invariant forall j | w <= j < 2 * w :: window[j] == old(window[j])
    {
      window[i] := window[w + i];
    }
  }

  lemma ShowsSlide(p: Params, win: seq<byte>, strstart: nat, lookahead: nat, base: nat, data: seq<byte>, win': seq<byte>)
    requires Shows(p, win, strstart, lookahead, base, data) && strstart >= p.wSize && |win'| == |win|
    requires win'[..p.wSize] == win[p.wSize..]
    ensures Shows(p, win', strstart - p.wSize, lookahead, base + p.wSize, data)
    ensures win'[..strstart + lookahead - p.wSize] == win[p.wSize..strstart + lookahead]
  {
    var w, end := p.wSize, strstart + lookahead;
    assert win'[..end - w] == win'[..w][..end - w] == win[w..][..end - w] == win[w..end];
    assert win[w..end] == win[..end][w..] == data[base..][w..] == data[base + w..];
  }

  method Slide(p: Params, window: array<byte>, prev: array<nat>, head: array<nat>, ghost strstart: nat, ghost lookahead: nat,
               ghost insH: nat, ghost base: nat, ghost data: seq<byte>, ghost ins: set<nat>, ghost slots: set<nat>)
    requires p.Good() && prev != head && strstart >= p.wSize
    requires Tracks(p, window[..], head[..], prev[..], ins, slots, insH, strstart, lookahead, base, data)
    modifies window, prev, head
    ensures Tracks(p, window[..], head[..], prev[..], SlidSet(ins, p.wSize), slots, insH, strstart - p.wSize, lookahead,
                   base + p.wSize, data)
  {
    hide Chained, Slotted, Rolled, Shows, SlidSet;
    ghost var w0, h0, p0 := window[..], head[..], prev[..];
    ShowsSize(p, w0, strstart, lookahead, base, data);
    ChainedShape(p, w0, h0, p0, ins, strstart, strstart + lookahead);
    MoveDown(window, p.wSize);
    SlideTable(head, p.wSize);
    SlideTable(prev, p.wSize);
    assert window[..][..p.wSize] == w0[p.wSize..];
    ShowsSlide(p, w0, strstart, lookahead, base, data, window[..]);
    ChainedSlide(p, w0, h0, p0, ins, strstart, strstart + lookahead, window[..], head[..], prev[..]);
    SlottedSlide(p.wSize, h0, p0, slots, strstart, head[..], prev[..]);
    if lookahead >= MIN_MATCH {
      SameBytes(w0, window[..], p.wSize, strstart + lookahead, strstart);
    }
  }

  lemma ShowsSize(p: Params, win: seq<byte>, strstart: nat, lookahead: nat, base: nat, data: seq<byte>)
    requires Shows(p, win, strstart, lookahead, base, data)
    ensures |win| == 2 * p.wSize && strstart + lookahead <= |win| && base + strstart + lookahead == |data|
  {
  }

  // ---------------------------------------------------------------- reading

  method CopyIn(window: array<byte>, at: nat, input: seq<byte>, next: nat, n: nat)
    requires next + n <= |input| && at + n <= window.Length
    modifies window
    ensures window[..at] == old(window[..at]) && window[at..at + n] == input[next..next + n]
  {
    for i := 0 to n
      invariant forall j | 0 <= j < at :: window[j] == old(window[j])
      invariant forall j | at <= j < at + i :: window[j] == input[next + j - at]
    {
      window[at + i] := input[next + i];
    }
  }

  /** read_buf: as much input as there is, or as there is room for. */
  method ReadBuf(window: array<byte>, at: nat, size: nat, input: seq<byte>, next0: nat, wrap: bool, adler0: Adler32.word,
                 ghost data: seq<byte>)
    returns (n: nat, next: nat, adler: Adler32.word)
    requires next0 <= |input| && at + size <= window.Length && (wrap ==> adler0 == Check(data))
    modifies window
    ensures n == (if |input| - next0 < size then |input| - next0 else size) && next == next0 + n
    ensures window[..at] == old(window[..at]) && window[at..at + n] == input[next0..next]
    ensures wrap ==> adler == Check(data + input[next0..next])
  {
    hide Check;
    n, next, adler := |input| - next0, next0, adler0;
    if n > size {
      n := size;
    }
    if n == 0 {
      assert data + input[next0..next0] == data;
      return;
    }
    if wrap {
      adler := UpdateCheck(adler, input[next0..next0 + n], data);
    }
    CopyIn(window, at, input, next0, n);
    next := next0 + n;
  }

  lemma TracksMore(p: Params, win: seq<byte>, head: seq<nat>, prev: seq<nat>, ins: set<nat>, slots: set<nat>, insH: nat,
                   strstart: nat, lookahead: nat, base: nat, data: seq<byte>, win': seq<byte>, n: nat, more: seq<byte>, insH': nat)
    requires Tracks(p, win, head, prev, ins, slots, insH, strstart, lookahead, base, data) && n == |more|
    requires |win'| == |win| && strstart + lookahead + n <= |win|
      && win'[..strstart + lookahead] == win[..strstart + lookahead]
    requires win'[strstart + lookahead..strstart + lookahead + n] == more
    requires lookahead + n >= MIN_MATCH ==> Rolled(p, insH', win'[strstart], win'[strstart + 1])
    ensures Tracks(p, win', head, prev, ins, slots, insH', strstart, lookahead + n, base, data + more)
  {
    hide Chained, Slotted, Rolled;
    var end := strstart + lookahead;
    ChainedGrow(p, win, head, prev, ins, strstart, end, win', strstart, end + n);
    assert win'[..end + n] == win'[..end] + win'[end..end + n];
    assert (data + more)[base..] == data[base..] + more;
  }

  /** One round of reading. */
  method ReadMore(p: Params, window: array<byte>, strstart: nat, lookahead0: nat, insH0: nat, input: seq<byte>, next0: nat,
                  wrap: bool, adler0: Adler32.word, ghost head: seq<nat>, ghost prev: seq<nat>, ghost ins: set<nat>,
                  ghost slots: set<nat>, ghost base: nat, ghost data: seq<byte>)
    returns (lookahead: nat, insH: nat, next: nat, adler: Adler32.word)
    requires p.Good() && Tracks(p, window[..], head, prev, ins, slots, insH0, strstart, lookahead0, base, data)
    requires next0 <= |input| && (wrap ==> adler0 == Check(data))
    modifies window
    ensures next0 <= next <= |input| && lookahead == lookahead0 + (next - next0)
    ensures Tracks(p, window[..], head, prev, ins, slots, insH, strstart, lookahead, base, data + input[next0..next])
    ensures next == |input| || strstart + lookahead == 2 * p.wSize
    ensures wrap ==> adler == Check(data + input[next0..next])
  {
    hide Chained, Slotted, Rolled, Check, Update, Tracks;
    TracksShape(p, window[..], head, prev, ins, slots, insH0, strstart, lookahead0, base, data);
    ghost var win, end := window[..], strstart + lookahead0;
    var n;
    n, next, adler := ReadBuf(window, strstart + lookahead0, 2 * p.wSize - lookahead0 - strstart, input, next0, wrap, adler0, data);
    lookahead, insH := lookahead0 + n, insH0;
    if lookahead >= MIN_MATCH {
      insH := Update(p, window[strstart], window[strstart + 1]);
      RolledStart(p, window[strstart], window[strstart + 1]);
    }
    assert window[..][..end] == window[..end] && win[..end] == old(window[..end]);
    assert window[..][end..end + n] == window[end..end + n];
    TracksMore(p, win, head, prev, ins, slots, insH0, strstart, lookahead0, base, data, window[..], n, input[next0..next], insH);
  }

  lemma TracksShape(p: Params, win: seq<byte>, head: seq<nat>, prev: seq<nat>, ins: set<nat>, slots: set<nat>, insH: nat,
                    strstart: nat, lookahead: nat, base: nat, data: seq<byte>)
    requires Tracks(p, win, head, prev, ins, slots, insH, strstart, lookahead, base, data)
    ensures |win| == 2 * p.wSize && strstart + lookahead <= |win| && base + strstart + lookahead == |data|
    ensures |head| == Pow2(p.hashBits) && |prev| == p.wSize > 0
  {
  }

  /** The same positions in the data are inserted, as far as they are still in the window. */
  ghost predicate SameInserted(ins0: set<nat>, base0: nat, ins: set<nat>, base: nat) {
    base >= base0 && forall q: nat {:trigger q in ins} :: q in ins <==> q + (base - base0) in ins0
  }

  lemma SlidSame(ins0: set<nat>, base0: nat, ins: set<nat>, base: nat, w: nat)
    requires SameInserted(ins0, base0, ins, base)
    ensures SameInserted(ins0, base0, SlidSet(ins, w), base + w)
  {
    var ins' := SlidSet(ins, w);
    forall q: nat {:trigger q in ins'} ensures q in ins' <==> q + (base + w - base0) in ins0 {
      assert q + w in ins <==> q + w + (base - base0) in ins0;
      if q + w in ins {
        assert q + w - w in ins';
      }
    }
  }

  lemma StaySame(ins: set<nat>, base: nat)
    ensures SameInserted(ins, base, ins, base)
  {
  }

  lemma SlidNothing(w: nat)
    ensures SlidSet({}, w) == {}
  {
  }

  /** fill_window: positions keep their meaning in the data, `block_start` and `match_start` even when they drop below zero. */
  method FillWindow(p: Params, window: array<byte>, prev: array<nat>, head: array<nat>, strstart0: nat, lookahead0: nat,
                    insH0: nat, blockStart0: int, matchStart0: int, input: seq<byte>, next0: nat, wrap: bool,
                    adler0: Adler32.word, ghost base0: nat, ghost data0: seq<byte>, ghost ins0: set<nat>, ghost slots: set<nat>)
    returns (strstart: nat, lookahead: nat, insH: nat, blockStart: int, matchStart: int, next: nat, adler: Adler32.word,
             ghost base: nat, ghost data: seq<byte>, ghost ins: set<nat>)
    requires p.Good() && prev != head && lookahead0 < MIN_LOOKAHEAD && next0 <= |input| && (wrap ==> adler0 == Check(data0))
    requires Tracks(p, window[..], head[..], prev[..], ins0, slots, insH0, strstart0, lookahead0, base0, data0)
    modifies window, prev, head
    ensures Tracks(p, window[..], head[..], prev[..], ins, slots, insH, strstart, lookahead, base, data)
    ensures next0 <= next <= |input| && data == data0 + input[next0..next] && (wrap ==> adler == Check(data))
    ensures base + strstart == base0 + strstart0 && base + blockStart == base0 + blockStart0
    ensures base + matchStart == base0 + matchStart0 && (ins0 == {} ==> ins == {}) && SameInserted(ins0, base0, ins, base)
    ensures (base == base0 || (strstart >= p.MaxDist() && strstart0 >= p.wSize + p.MaxDist())) && base >= base0
    ensures strstart + MIN_LOOKAHEAD <= 2 * p.wSize && lookahead == lookahead0 + (next - next0)
    ensures lookahead >= MIN_LOOKAHEAD || next == |input|
  {
    hide Tracks, Check, SlidSet, SameInserted;
    StaySame(ins0, base0);
    strstart, lookahead, insH, blockStart, matchStart, next, adler :=
      strstart0, lookahead0, insH0, blockStart0, matchStart0, next0, adler0;
    base, data, ins := base0, data0, ins0;
    TracksShape(p, window[..], head[..], prev[..], ins, slots, insH, strstart, lookahead, base, data);
    assert data0 + input[next0..next0] == data0;
    var more := true;
    while more
      invariant Tracks(p, window[..], head[..], prev[..], ins, slots, insH, strstart, lookahead, base, data)
      invariant next0 <= next <= |input| && data == data0 + input[next0..next] && (wrap ==> adler == Check(data))
      invariant base + strstart == base0 + strstart0 && base + blockStart == base0 + blockStart0
      invariant base + matchStart == base0 + matchStart0 && base >= base0 && (ins0 == {} ==> ins == {})
        && lookahead == lookahead0 + (next - next0)
      invariant SameInserted(ins0, base0, ins, base)
      invariant base == base0 || (strstart >= p.MaxDist() && strstart0 >= p.wSize + p.MaxDist())
      invariant if more then lookahead < MIN_LOOKAHEAD && (base == base0 || strstart < p.wSize + p.MaxDist())
                else strstart + MIN_LOOKAHEAD <= 2 * p.wSize && (lookahead >= MIN_LOOKAHEAD || next == |input|)
      decreases |input| - next, more
    {
      TracksShape(p, window[..], head[..], prev[..], ins, slots, insH, strstart, lookahead, base, data);
      if strstart >= p.wSize + p.MaxDist() {
        Slide(p, window, prev, head, strstart, lookahead, insH, base, data, ins, slots);
        SlidNothing(p.wSize);
        SlidSame(ins0, base0, ins, base, p.wSize);
        base, ins := base + p.wSize, SlidSet(ins, p.wSize);
        strstart, blockStart, matchStart := strstart - p.wSize, blockStart - p.wSize, matchStart - p.wSize;
      }
      if next == |input| {
        return;
      }
      ghost var next1 := next;
      lookahead, insH, next, adler :=
        ReadMore(p, window, strstart, lookahead, insH, input, next, wrap, adler, head[..], prev[..], ins, slots, base, data);
      data := data + input[next1..next];
      assert input[next0..next] == input[next0..next1] + input[next1..next];
      assert data0 + input[next0..next1] + input[next1..next] == data0 + input[next0..next];
      more := lookahead < MIN_LOOKAHEAD && next < |input|;
    }
  }
}
