/** The compression functions of src/ext/zlib/deflate.c: deflate_fast, deflate_slow and deflate_stored, called with whatever
    input and output space at a time, and why the tokens they tally stand for the data. */
module Deflater {
  import opened Bits
  import opened Canonical
  import opened Inflation
  import opened Blocks
  import opened Delivery
  import opened BlockCoder
  import opened SendBits
  import Streams
  import opened Hashing
  import opened Matching
  import opened Sliding
  import opened Advancing
  import opened Searching
  import opened Covering
  import opened Looking
  import opened Reasons
  import Tally

  datatype Flush = NoFlush | PartialFlush | SyncFlush | FullFlush | Finish

  /** What a turn of a compression loop leads to: another one, a wait for input, a wait for output space, or the end of the input. */
  datatype Turn = Step | Stop | Full | End

  datatype BlockState = NeedMore | BlockDone | FinishStarted | FinishDone

  /** The bits sent after the first ones, `lead`, take a decoder from nothing to the bytes h. */
  ghost predicate Sends(sent: seq<bool>, lead: seq<bool>, h: seq<byte>) {
    lead <= sent && Delivers(sent[|lead|..], |lead|, [], h, false)
  }

  /** The same, with the last block sent and the last byte filled up. */
  ghost predicate SendsAll(sent: seq<bool>, lead: seq<bool>, h: seq<byte>) {
    exists body: seq<bool> :: SendsBody(sent, lead, h, body)
  }

  ghost predicate SendsBody(sent: seq<bool>, lead: seq<bool>, h: seq<byte>, body: seq<bool>) {
    sent == lead + body + Zeros(Padding(|lead| + |body|)) && Delivers(body, |lead|, [], h, true)
  }

  lemma SendsBlock(sent: seq<bool>, lead: seq<bool>, h: seq<byte>, b: seq<bool>, h': seq<byte>)
    requires Sends(sent, lead, h) && Delivers(b, |sent|, h, h', false)
    ensures Sends(sent + b, lead, h')
  {
    hide Delivers;
    DeliversTwo(sent[|lead|..], |lead|, [], h, b, h', false);
    assert (sent + b)[|lead|..] == sent[|lead|..] + b;
  }

  lemma SendsLast(sent: seq<bool>, lead: seq<bool>, h: seq<byte>, b: seq<bool>, h': seq<byte>)
    requires Sends(sent, lead, h) && Delivers(b, |sent|, h, h', true)
    ensures SendsAll(sent + b + Zeros(Padding(|sent| + |b|)), lead, h')
  {
    hide Delivers, Zeros, Padding;
    DeliversTwo(sent[|lead|..], |lead|, [], h, b, h', true);
    var body, all := sent[|lead|..] + b, sent + b + Zeros(Padding(|sent| + |b|));
    assert all == lead + body + Zeros(Padding(|lead| + |body|));
    assert SendsBody(all, lead, h', body);
  }

  /** configuration_table */
  function Configuration(level: nat): Limits {
    match level
    case 0 => Limits(0, 0, 0, 0)
    case 1 => Limits(4, 4, 8, 4)
    case 2 => Limits(4, 5, 16, 8)
    case 3 => Limits(4, 6, 32, 32)
    case 4 => Limits(4, 4, 16, 16)
    case 5 => Limits(8, 16, 32, 32)
    case 6 => Limits(8, 16, 128, 128)
    case 7 => Limits(8, 32, 128, 256)
    case 8 => Limits(32, 128, 258, 1024)
    case _ => Limits(32, 258, 258, 4096)
  }

  /** The sizes that deflateInit2 computes. */
  function WindowSizes(windowBits: nat, memLevel: nat): Params {
    var wBits, hashBits := if windowBits == 8 then 9 else windowBits, memLevel + 7;
    Params(Pow2(wBits), hashBits, (hashBits + MIN_MATCH - 1) / MIN_MATCH)
  }

  lemma WindowSizesAreGood(windowBits: nat, memLevel: nat)
    requires 8 <= windowBits <= 15 && 1 <= memLevel <= 9
    ensures WindowSizes(windowBits, memLevel).Good() && 128 <= Pow2(memLevel + 6) <= 32768
  {
    hide Pow2;
    Pow2Values();
    var wBits := if windowBits == 8 then 9 else windowBits;
    Pow2Mono(9, wBits);
    Pow2Mono(wBits, 15);
    Pow2Mono(7, memLevel + 6);
    Pow2Mono(memLevel + 6, 15);
  }

  /** The caller's side of the output: how many of the bytes sent have been handed over, and how much space is left (avail_out). */
  class Output {
    var handed: nat
    var availOut: nat

    constructor ()
      ensures handed == 0 && availOut == 0
    {
      handed, availOut := 0, 0;
    }
  }

  /** More bytes, the same in front. */
  ghost predicate Extends(a: seq<nat>, b: seq<nat>) {
    a <= b
  }

  lemma ExtendsMore(a: seq<nat>, b: seq<nat>, c: seq<nat>)
    requires Extends(a, b) && Extends(b, c)
    ensures Extends(a, c)
  {
  }

  lemma ExtendsSelf(a: seq<nat>)
    ensures Extends(a, a)
  {
  }

  class State {
    const m: Matcher
    const coder: Coder
    const out: Output
    /** All tokens of all blocks. */
    ghost var tallied: seq<Token>
    /** Why each of them was tallied, and how many there were when the history was last forgotten. */
    ghost var reasons: seq<Reason>
    ghost var marked: nat
    /** The bits sent before the first block. */
    ghost var lead: seq<bool>

    // -------------------------------------------------------------- what holds

    ghost predicate Shaped() {
      m.Shaped() && coder.Shaped() && {m.prev, m.head} !! coder.Trees() + {coder.dBuf, coder.lBuf}
    }

    /** The tokens so far, up to `to`, were tallied for good reasons. */
    ghost predicate Explained(to: int)
      reads this`tallied, this`reasons, this`marked, m`data, m`mark, m`inserted, m`excused, m`ends, m`forgets
    {
      && Reasoned(m.data, m.Rule(), m.History(), tallied, reasons) && Place(tallied) == to
      && Reasons.Recent(reasons, marked, m.mark) && AllExcused(m.Rule(), m.ends, tallied, m.excused)
      && Complete(m.inserted, m.excused, LastPlace(tallied))
    }

    /** The tokens so far, of this block and of all, stand for the data up to `to`. */
    ghost predicate Collected(to: int)
      reads this`tallied, this`reasons, this`marked, m`mark, m`inserted, m`excused, m`ends, m`forgets, m`blockStart, m`base,
            m`data, coder, coder.w, coder.builder, coder.lfc, coder.dfc, coder.bfc, coder.dBuf, coder.lBuf
    {
      && coder.Valid() && m.base + m.blockStart >= 0 && to >= 0
      && Covers(m.data, m.base + m.blockStart, coder.tokens, to, m.p.MaxDist()) && Covers(m.data, 0, tallied, to, m.p.MaxDist())
      && Explained(to)
    }

    /** There is room for another token. */
    ghost predicate Roomy()
      reads coder
    {
      coder.lastLit < coder.dBuf.Length - 1
    }

    /** Everything before the current block has been sent. */
    ghost predicate Sent()
      reads this`lead, m`blockStart, m`base, m`data, coder.w
    {
      0 <= m.base + m.blockStart <= |m.data| && Sends(coder.w.Sent(), lead, m.data[..m.base + m.blockStart])
    }

    /** How far the tokens reach: a literal, or a match that begins one byte back, may be waiting. */
    ghost function Position(): int
      reads m`strstart, m`base, m`matchAvailable
    {
      m.At() - if m.matchAvailable then 1 else 0
    }

    /** Between steps at levels 1 to 9. */
    ghost predicate Valid()
      reads this, m, m.window, m.prev, m.head, coder, coder.w, coder.builder, coder.lfc, coder.dfc, coder.bfc, coder.dBuf, coder.lBuf
    {
      Shaped() && m.level > 0 && m.Valid() && Collected(Position()) && Roomy() && Sent()
    }

    /** All that sending a block may change. */
    ghost function Frame(): set<object> {
      {out, coder, coder.w, coder.builder, coder.builder.heap, coder.builder.depth, coder.builder.blCount, coder.lfc, coder.ldl, coder.dfc,
       coder.ddl, coder.bfc, coder.bdl, coder.dBuf, coder.lBuf}
    }

    /** deflateInit2 */
    constructor (level: nat, windowBits: nat, memLevel: nat, strategy: Strategy, wrap: bool)
      requires level <= 9 && 8 <= windowBits <= 15 && 1 <= memLevel <= 9
      ensures Shaped() && m.Valid() && m.Plain() && Collected(0) && Roomy() && Sent() && m.data == [] && tallied == []
        && m.input == []
      ensures coder.tokens == [] && coder.w.Sent() == [] && lead == [] && m.strstart == m.lookahead == m.base == 0
      ensures m.blockStart == 0 && !m.matchAvailable && m.level == level && m.strategy == strategy && m.wrap == wrap
      ensures coder.dBuf.Length == Pow2(memLevel + 6) >= 128 && Handing() && out.handed == |coder.w.pending|
      ensures m.p == WindowSizes(windowBits, memLevel) && m.limits == Configuration(level)
      ensures fresh(m) && fresh(m.window) && fresh(m.prev) && fresh(m.head) && fresh(Frame())
    {
      hide Tracks, Covers, Sends, Matcher.Valid, Matcher.Plain, Coder.Valid, Coder.Shaped, Pow2, BitWriter.Sent, Params.Good;
      WindowSizesAreGood(windowBits, memLevel);
      ConfigurationIsGood(level);
      var m0 := new Matcher(WindowSizes(windowBits, memLevel), Configuration(level), strategy, level, wrap);
      m := m0;
      var c := new Coder(Pow2(memLevel + 6));
      coder := c;
      var o := new Output();
      out := o;
      tallied, reasons, marked, lead := [], [], 0, [];
      new;
      m.IsShaped();
      CoderIsShaped(c);
      CoversNone([], 0, m.p.MaxDist());
      ReasonedNone([], m.Rule(), m.History());
      SendsNothing([]);
    }

    /** At the beginning everything is ready. */
    lemma BeginsReady()
      requires Shaped() && m.Valid() && m.Plain() && Collected(0) && Roomy() && Sent() && m.strstart == m.base == 0
      requires coder.tokens == [] && m.blockStart == 0 && !m.matchAvailable && m.level <= 9 && coder.dBuf.Length >= 128
      ensures if m.level == 0 then ValidStored() else Valid()
    {
      hide Shaped, Sent, Matcher.Valid, Matcher.Plain, Coder.Valid, Covers;
      if m.level == 0 {
        m.PlainShows();
      }
    }

    // -------------------------------------------------------------- tokens and blocks

    /** _tr_tally_lit */
    method TallyLiteral(c: byte, ghost to: nat, ghost why: Reason) returns (full: bool)
      requires Shaped() && Collected(to) && Roomy() && to < |m.data| && c == m.data[to]
      requires ReasonFor(m.data, m.Rule(), m.History(), Literal(c), to, why) && why.own.from == m.mark
      requires Complete(m.inserted, m.excused, to)
      modifies this`tallied, this`reasons, coder`lastLit, coder`tokens, coder.lfc, coder.dfc, coder.dBuf, coder.lBuf
      ensures Collected(to + 1) && (full <==> !Roomy()) && m.head[..] == old(m.head[..]) && m.prev[..] == old(m.prev[..])
    {
      hide Covers, Explained, ReasonFor, Coder.Valid, Coder.Shaped, Matcher.Shaped, Tally.LitFreq, Tally.DistFreq;
      CoversLiteral(m.data, m.base + m.blockStart, coder.tokens, to, m.p.MaxDist());
      CoversLiteral(m.data, 0, tallied, to, m.p.MaxDist());
      CoderIsShaped(coder);
      ApartFromCoder();
      full := coder.Tally(0, c);
      Explain(Literal(c), to, why);
      CoderIsShaped(coder);
    }

    ghost method Explain(t: Token, to: nat, why: Reason)
      requires Explained(to) && ReasonFor(m.data, m.Rule(), m.History(), t, to, why) && why.own.from == m.mark && Span(t) >= 1
      requires Complete(m.inserted, m.excused, to)
      modifies this`tallied, this`reasons
      ensures tallied == old(tallied) + [t] && reasons == old(reasons) + [why] && Explained(to + Span(t))
    {
      hide ReasonFor, Reasoned, Place, AllExcused, Span;
      ReasonedOne(m.data, m.Rule(), m.History(), tallied, reasons, t, why);
      ExcusedMore(m.Rule(), m.ends, tallied, m.excused, m.ends, t);
      PlaceMore(tallied, t);
      LastPlaceIs(tallied, t);
      tallied, reasons := tallied + [t], reasons + [why];
    }

    /** _tr_tally_dist */
    method TallyMatch(dist: nat, length: nat, ghost to: nat, ghost start: int, ghost why: Reason) returns (full: bool)
      requires Shaped() && Collected(to) && Roomy() && MIN_MATCH <= length <= MAX_MATCH && dist == to - start
      requires MatchAt(m.data, to, start, length, m.p.MaxDist())
      requires ReasonFor(m.data, m.Rule(), m.History(), Match(length, dist), to, why) && why.own.from == m.mark
      requires Complete(m.inserted, m.excused, to)
      modifies this`tallied, this`reasons, coder`lastLit, coder`tokens, coder.lfc, coder.dfc, coder.dBuf, coder.lBuf
      ensures tallied == old(tallied) + [Match(length, dist)]
      ensures Collected(to + length) && (full <==> !Roomy()) && m.head[..] == old(m.head[..]) && m.prev[..] == old(m.prev[..])
    {
      hide Covers, Explained, ReasonFor, Coder.Valid, Coder.Shaped, Matcher.Shaped, Tally.LitFreq, Tally.DistFreq, MatchAt;
      ApartFromCoder();
      MatchDist(m.data, to, start, length, m.p);
      CoversMatch(m.data, m.base + m.blockStart, coder.tokens, to, m.p.MaxDist(), start, length);
      CoversMatch(m.data, 0, tallied, to, m.p.MaxDist(), start, length);
      CoderIsShaped(coder);
      full := coder.Tally(dist, length - MIN_MATCH);
      Explain(Match(length, dist), to, why);
      CoderIsShaped(coder);
    }

    lemma ApartFromCoder()
      requires Shaped()
      ensures m.prev != coder.lfc && m.prev != coder.dfc && m.prev != coder.dBuf && m.prev != coder.lBuf
      ensures m.head != coder.lfc && m.head != coder.dfc && m.head != coder.dBuf && m.head != coder.lBuf
      ensures {m.prev as object, m.head, m.window} !! Frame() && m.p.MaxDist() <= 32768
    {
      hide Coder.Shaped;
    }

    // -------------------------------------------------------------- handing the output over

    /** Nothing has been handed over that was not sent, and all has been if there is output space left. */
    ghost predicate Handing()
      reads out, coder.w
    {
      out.handed <= |coder.w.pending| && (out.availOut == 0 || out.handed == |coder.w.pending|)
    }

    /** More has been sent, and some of it may have been handed over, as much as the output space has shrunk. */
    twostate predicate HandedOver()
      reads out, coder.w
    {
      && Extends(old(coder.w.pending), coder.w.pending) && old(out.handed) <= out.handed
      && out.handed + out.availOut == old(out.handed + out.availOut)
    }

    /** Neither has new input been offered nor the history been forgotten. */
    twostate predicate Undisturbed()
      reads m
    {
      m.ends == old(m.ends) && m.forgets == old(m.forgets)
    }

    /** flush_pending: as much as there is space for. */
    method FlushPending()
      requires out.handed <= |coder.w.pending|
      modifies out
      ensures Handing() && HandedOver()
    {
      var len := |coder.w.pending| - out.handed;
      if len > out.availOut {
        len := out.availOut;
      }
      if len == 0 {
        return;
      }
      out.handed := out.handed + len;
      out.availOut := out.availOut - len;
    }

    /** Where the current block began, in the data. */
    ghost function From(): int
      reads m`base, m`blockStart
    {
      m.base + m.blockStart
    }

    /** The bytes of the block, if they are all still in the window. */
    method BlockBytes() returns (buf: seq<byte>, haveBuf: bool)
      requires Shows(m.p, m.window[..], m.strstart, m.lookahead, m.base, m.data) && 0 <= From()
        && m.blockStart <= m.strstart
      requires m.strstart < 2 * m.p.wSize <= 65536
      ensures haveBuf ==> |buf| == m.strstart - m.blockStart < 65536 && m.data[..m.At()] == m.data[..From()] + buf
      ensures !haveBuf ==> buf == []
      ensures m.At() <= |m.data|
    {
      hide Shows;
      ShowsSize(m.p, m.window[..], m.strstart, m.lookahead, m.base, m.data);
      buf, haveBuf := [], m.blockStart >= 0;
      if haveBuf {
        ShowsPart(m.p, m.window[..], m.strstart, m.lookahead, m.base, m.data, m.blockStart, m.strstart);
        buf := m.window[m.blockStart..m.strstart];
        assert m.window[..][m.blockStart..m.strstart] == buf;
        assert m.data[..m.At()] == m.data[..From()] + m.data[From()..m.At()];
      }
    }

    /** The tokens up to strstart are sent as a block. */
    method SendBlock(eof: bool)
      requires Shaped() && Collected(m.At()) && Sent() && m.level > 0 && m.blockStart <= m.strstart
      requires Shows(m.p, m.window[..], m.strstart, m.lookahead, m.base, m.data) && m.strstart < 2 * m.p.wSize
      modifies Frame() - {out}
      ensures Extends(old(coder.w.pending), coder.w.pending)
      ensures coder.Valid() && coder.tokens == [] && m.At() <= |m.data|
      ensures if eof then SendsAll(coder.w.Sent(), lead, m.data[..m.At()]) && coder.w.biValid == 0 && coder.w.biBuf == 0
              else Sends(coder.w.Sent(), lead, m.data[..m.At()])
    {
      hide Covers, Explained, Sends, SendsAll, Coder.Valid, Coder.Shaped, Matcher.Shaped, Outcome, AllCoded, FixedLengths, FixedDistances,
           Shows, Delivers, Zeros, Padding, BitWriter.Sent;
      WindowFits();
      ghost var at, from, ts, sent0 := m.At(), From(), coder.tokens, coder.w.Sent();
      CoversIs(m.data, from, ts, at, m.p.MaxDist());
      var buf, haveBuf := BlockBytes();
      ghost var form, sent, dynamic;
      form, sent, dynamic :=
        coder.FlushBlock(buf, haveBuf, m.strstart - m.blockStart, eof, m.level, m.strategy == Strategy.Fixed);
      OutcomeDelivers(form, sent, dynamic, |sent0|, ts, buf, haveBuf, m.strstart - m.blockStart, eof, m.level,
                      m.strategy == Strategy.Fixed, m.data[..from]);
      if eof {
        SendsLast(sent0, lead, m.data[..from], sent, m.data[..at]);
      } else {
        SendsBlock(sent0, lead, m.data[..from], sent, m.data[..at]);
        assert sent0 + sent + [] == sent0 + sent;
      }
    }

    /** FLUSH_BLOCK: sends the tokens up to strstart, begins the next block there, unless it was the last, and hands over what there
        is space for. The answer is whether the caller's output space has run out. */
    method FlushBlock(eof: bool) returns (exhausted: bool)
      requires Handing()
      requires Shaped() && Collected(m.At()) && Sent() && m.level > 0 && m.blockStart <= m.strstart
      requires Shows(m.p, m.window[..], m.strstart, m.lookahead, m.base, m.data) && m.strstart < 2 * m.p.wSize
      modifies m`blockStart, Frame()
      ensures Handing() && HandedOver() && (exhausted <==> out.availOut == 0)
      ensures m.blockStart == m.strstart && m.At() <= |m.data| && m.head[..] == old(m.head[..])
        && m.prev[..] == old(m.prev[..])
      ensures m.window[..] == old(m.window[..])
      ensures Collected(m.At()) && Roomy() && coder.tokens == []
      ensures if eof then SendsAll(coder.w.Sent(), lead, m.data[..m.At()]) && coder.w.biValid == 0 && coder.w.biBuf == 0
              else Sends(coder.w.Sent(), lead, m.data[..m.At()])
    {
      hide Covers, Explained, Sends, SendsAll, Sent, Coder.Valid, Coder.Shaped, Matcher.Shaped, Shows, BitWriter.Sent;
      ApartFromCoder();
      ghost var at := m.At();
      SendBlock(eof);
      m.blockStart := m.strstart;
      CoversNone(m.data, at, m.p.MaxDist());
      CoderIsShaped(coder);
      FlushPending();
      exhausted := out.availOut == 0;
    }

    lemma WindowFits()
      requires Shaped()
      ensures 512 <= m.p.wSize <= 32768 && m.window.Length == 2 * m.p.wSize
    {
      hide Coder.Shaped;
    }

    // -------------------------------------------------------------- deflate_fast

    /** Input still to be compressed. */
    ghost function Left(): int
      reads m`input, m`next, m`lookahead
    {
      |m.input| - m.next + m.lookahead
    }

    /** As Valid, but perhaps without room for another token. */
    ghost predicate Stepped()
      reads this, m, m.window, m.prev, m.head, coder, coder.w, coder.builder, coder.lfc, coder.dfc, coder.bfc, coder.dBuf, coder.lBuf
    {
      Shaped() && m.level > 0 && m.Valid() && Collected(Position()) && Sent()
    }

    /** One turn of deflate_fast, with input ahead. */
    method FastStep(hashHead0: nat) returns (hashHead: nat, full: bool)
      requires Valid() && m.level <= 3 && m.lookahead >= 1 && m.Supplied() && m.strstart + MIN_LOOKAHEAD <= 2 * m.p.wSize
      requires Stale(m.p.wSize, hashHead0, m.slots)
      modifies this`tallied, this`reasons, m`insH, m`ins, m`slots, m`strstart, m`lookahead, m`matchLength, m`matchStart, m`look,
               m`inserted, m`excused, m.prev, m.head, coder`lastLit, coder`tokens, coder.lfc, coder.dfc, coder.dBuf, coder.lBuf
      ensures Stepped() && (full <==> !Roomy()) && m.strstart < 2 * m.p.wSize && Left() < old(Left())
      ensures Stale(m.p.wSize, hashHead, m.slots)
    {
      hide Valid, Stepped, Shaped, Collected, Sent, Roomy, Matcher.Valid, Matcher.LookedFast, Stale, Explained, Coder.Valid, Covers;
      Parts();
      ApartFromCoder();
      ghost var to, h0, e0 := m.At(), m.History(), m.excused;
      CollectedIs(to);
      ExplainedIs(to);
      hashHead := m.LookFast(hashHead0);
      m.FastAhead(hashHead);
      LookKeeps(to, h0, e0);
      IsCollected(to);
      hashHead, full := TakeFast(hashHead);
    }

    /** Looking a string up changes nothing for the tokens before it. */
    lemma LookKeeps(to: int, h0: Past, excused0: set<nat>)
      requires Reasoned(m.data, m.Rule(), h0, tallied, reasons) && Place(tallied) == to && Reasons.Recent(reasons, marked, m.mark)
      requires AllExcused(m.Rule(), h0.ends, tallied, excused0) && (tallied != [] ==> LastPlace(tallied) + 1 <= to) && to <= m.At()
      requires Complete(h0.inserted, excused0, LastPlace(tallied))
      requires m.ends == h0.ends && m.forgets == h0.forgets
      requires m.inserted == h0.inserted + (if m.lookahead >= MIN_MATCH then {m.At()} else {})
      requires m.excused == excused0 + (if m.lookahead >= MIN_MATCH then {} else {m.At()})
      requires m.At() + m.lookahead == |m.data| && m.lookahead >= 1 && (m.lookahead < MIN_LOOKAHEAD ==> |m.data| in m.ends)
      ensures Explained(to)
    {
      hide Reasoned, Place, AllExcused, LastPlace, Reasons.Recent, Complete;
      forall y: nat {:trigger y in m.excused} | y in m.excused && y !in excused0 ensures Excused(m.Rule(), m.ends, tallied, y) {
        assert TooShort(m.ends, y);
      }
      IsExplained(to, m.data, h0, excused0, m.At());
    }

    /** The string at strstart has been looked up: the match is taken, or the byte. */
    method TakeFast(hashHead0: nat) returns (hashHead: nat, full: bool)
      requires Shaped() && m.level > 0 && m.LookedFast(hashHead0) && Collected(m.At()) && Roomy() && Sent()
      modifies this`tallied, this`reasons, m`insH, m`ins, m`slots, m`strstart, m`lookahead, m`matchLength, m`inserted, m`excused, m.prev,
               m.head,
               coder`lastLit, coder`tokens, coder.lfc, coder.dfc, coder.dBuf, coder.lBuf
      ensures Stepped() && (full <==> !Roomy()) && m.strstart < 2 * m.p.wSize && Left() < old(Left())
      ensures Stale(m.p.wSize, hashHead, m.slots)
    {
      hide Stepped, Shaped, Collected, Sent, Roomy, Matcher.Valid, Matcher.LookedFast, ReasonFor, Stale, MatchAt, Explained, Coder.Valid,
           Covers, Complete;
      ApartFromCoder();
      ghost var to, why := m.At(), Reason(m.look, m.look);
      m.LookedFastIs(hashHead0);
      FastReason(hashHead0, m.window[m.strstart]);
      m.FastComplete(hashHead0);
      if m.matchLength >= MIN_MATCH {
        MatchDist(m.data, to, m.base + m.matchStart, m.matchLength, m.p);
        full := TallyMatch(m.strstart - m.matchStart, m.matchLength, to, m.base + m.matchStart, why);
        hashHead := PastMatchFast(hashHead0, to);
      } else {
        full := TallyLiteral(m.window[m.strstart], to, why);
        hashHead := hashHead0;
        m.PassByteFast(hashHead);
      }
      MakeStepped();
    }

    /** Past the match that has just been tallied. */
    method PastMatchFast(hashHead0: nat, ghost to: nat) returns (hashHead: nat)
      requires Shaped() && m.LookedFast(hashHead0) && m.matchLength >= MIN_MATCH && Collected(to + m.matchLength) && to == m.At()
      requires tallied != [] && Span(tallied[|tallied| - 1]) == m.matchLength
      modifies m`insH, m`strstart, m`lookahead, m`matchLength, m`ins, m`slots, m`inserted, m`excused, m.prev, m.head
      ensures m.Valid() && Stale(m.p.wSize, hashHead, m.slots) && Collected(m.At())
      ensures m.strstart == old(m.strstart + m.matchLength) && m.lookahead == old(m.lookahead - m.matchLength)
    {
      hide Shaped, Collected, Matcher.Valid, Matcher.LookedFast, Adds, Reasoned, AllExcused, Reasons.Recent, Place, Stale, Explained,
           Coder.Valid, Covers, Span;
      ApartFromCoder();
      ghost var n, h0, e0, k := m.matchLength, m.History(), m.excused, m.base + m.FastUpto();
      CollectedIs(to + n);
      ExplainedIs(to + n);
      m.FastAhead(hashHead0);
      m.LevelFast(hashHead0);
      hashHead := m.PassMatchFast(hashHead0);
      LastStarts(tallied);
      forall y: nat {:trigger y in m.excused} | y in m.excused && y !in e0 ensures Excused(m.Rule(), m.ends, tallied, y) {
        assert InLongMatch(m.Rule(), m.ends, tallied, |tallied| - 1, y);
      }
      IsExplained(to + n, m.data, h0, e0, to + 1);
      IsCollected(to + n);
    }

    lemma LastStarts(ts: seq<Token>)
      requires ts != []
      ensures LastPlace(ts) == Place(ts[..|ts| - 1]) && Place(ts) == LastPlace(ts) + Span(ts[|ts| - 1])
    {
    }

    /** Why the match is taken, or the byte. */
    lemma FastReason(hashHead: nat, c: byte)
      requires m.LookedFast(hashHead)
      ensures m.look.from == m.mark && (m.matchLength < MIN_MATCH ==> ReasonFor(m.data, m.Rule(), m.History(), Literal(c), m.At(), Reason(m.look, m.look)))
      ensures m.matchLength >= MIN_MATCH && m.strstart >= m.matchStart ==>
        ReasonFor(m.data, m.Rule(), m.History(), Match(m.matchLength, m.strstart - m.matchStart), m.At(), Reason(m.look, m.look))
    {
      hide Matcher.LookedFast, Matcher.Led, LookedAt, ReasonFor, Answer;
      m.LookedFastLed(hashHead);
      m.LedIs(m.look, m.At(), m.matchLength, m.base + m.matchStart);
      if m.matchLength < MIN_MATCH {
        GreedyLiteral(m.data, m.Rule(), m.History(), m.look, m.At(), c);
      } else if m.strstart >= m.matchStart {
        GreedyMatch(m.data, m.Rule(), m.History(), m.look, m.At(), m.matchLength, m.strstart - m.matchStart);
      }
    }

    /** Flushing between the steps of deflate_fast and deflate_slow, only when there is no room for another token. */
    method FlushStep() returns (exhausted: bool)
      requires Handing() && !Roomy()
      requires Stepped() && !m.matchAvailable && m.strstart < 2 * m.p.wSize
      modifies m`blockStart, Frame()
      ensures Handing() && HandedOver() && (exhausted <==> out.availOut == 0)
      ensures Valid() && coder.tokens == []
    {
      hide Extends, Handing, Covers, Explained, Sends, Coder.Valid, Coder.Shaped, Matcher.Shaped, Matcher.Led, Matcher.Kept, Tracks, Check,
           MatchAt, BitWriter.Sent;
      ApartFromCoder();
      m.ShowsNow();
      exhausted := FlushBlock(false);
      m.BlockMoved();
    }

    /** The end of deflate_fast and deflate_slow: what is left is flushed. */
    method FlushEnd(flush: Flush) returns (r: BlockState, full: bool)
      requires Handing()
      requires Stepped() && !m.matchAvailable && m.strstart < 2 * m.p.wSize && m.lookahead == 0 && flush != NoFlush
      modifies m`blockStart, Frame()
      ensures Handing() && HandedOver() && (full <==> out.availOut == 0)
      ensures Done(flush, r) && (full <==> r == NeedMore || r == FinishStarted)
    {
      hide Extends, Handing, Covers, Explained, Sends, SendsAll, Coder.Valid, Coder.Shaped, Matcher.Shaped, Matcher.Led, Matcher.Kept,
           Tracks, Check, MatchAt, BitWriter.Sent;
      ApartFromCoder();
      m.ShowsNow();
      m.Positions();
      ghost var at := m.At();
      assert m.data[..at] == m.data;
      full := FlushBlock(flush == Finish);
      m.BlockMoved();
      if full {
        r := if flush == Finish then FinishStarted else NeedMore;
      } else {
        r := if flush == Finish then FinishDone else BlockDone;
      }
    }

    /** How a call ends. The tokens stand for the data read, but for what is still ahead or waiting; and when the call finishes
        the stream, what has been sent stands for all of it. */
    ghost predicate Done(flush: Flush, r: BlockState)
      reads this, m, m.window, m.prev, m.head, coder, coder.w, coder.builder, coder.lfc, coder.dfc, coder.bfc, coder.dBuf, coder.lBuf
    {
      && Shaped() && m.level > 0 && m.Valid() && Collected(Position()) && Roomy()
      && (if r == FinishStarted || r == FinishDone
          then flush == Finish && Ended() && Finished()
          else Sent() && (r == BlockDone ==> flush != Finish && flush != NoFlush && Finished()))
    }

    /** The stream is complete, up to a whole byte. */
    ghost predicate Ended()
      reads this`lead, m`data, coder, coder.w
    {
      SendsAll(coder.w.Sent(), lead, m.data) && coder.w.biValid == 0 && coder.w.biBuf == 0
    }

    /** All that has been read is in blocks. */
    ghost predicate Finished()
      reads m, coder
    {
      m.lookahead == 0 && !m.matchAvailable && coder.tokens == [] && Position() == |m.data| && m.blockStart == m.strstart
    }

    lemma NotDone(flush: Flush)
      requires Valid()
      ensures Done(flush, NeedMore)
    {
      hide Covers, Sends, SendsAll, Coder.Valid, Coder.Shaped, Matcher.Shaped, Matcher.Valid, BitWriter.Sent;
    }

    /** fill_window, within the whole. */
    method Refill()
      requires Valid() && m.lookahead < MIN_LOOKAHEAD
      modifies m`insH, m`strstart, m`lookahead, m`blockStart, m`matchStart, m`next, m`adler, m`data, m`base, m`ins, m.window, m.prev,
               m.head
      ensures old(m.next) <= m.next <= |m.input| && Valid() && m.data == old(m.data) + m.input[old(m.next)..m.next]
      ensures m.strstart + MIN_LOOKAHEAD <= 2 * m.p.wSize && (m.lookahead >= MIN_LOOKAHEAD || m.next == |m.input|)
      ensures Left() == old(Left()) && (m.base == old(m.base) || old(m.strstart) >= m.p.wSize + m.p.MaxDist())
    {
      hide Covers, Explained, Reasoned, AllExcused, Place, LastPlace, Reasons.Recent, Later, Sends, Coder.Valid, Coder.Shaped,
           Matcher.Valid, Matcher.Shaped, BitWriter.Sent;
      ApartFromCoder();
      ghost var d0, from, to := m.data, From(), Position();
      ExplainedIs(to);
      ghost var h0, e0 := m.History(), m.excused;
      m.Fill();
      StillThePast(h0, to);
      IsExplained(to, d0, h0, e0, to);
      ghost var more := m.input[old(m.next)..m.next];
      CoversMore(d0, from, coder.tokens, to, m.p.MaxDist(), more);
      CoversMore(d0, 0, tallied, to, m.p.MaxDist(), more);
      assert (d0 + more)[..from] == d0[..from];
    }

    lemma ExplainedIs(to: int)
      requires Explained(to)
      ensures Reasoned(m.data, m.Rule(), m.History(), tallied, reasons) && Place(tallied) == to
      ensures Reasons.Recent(reasons, marked, m.mark) && AllExcused(m.Rule(), m.ends, tallied, m.excused)
      ensures Complete(m.inserted, m.excused, LastPlace(tallied))
      ensures |reasons| == |tallied| && (tallied != [] ==> LastPlace(tallied) + 1 <= to)
    {
      hide ReasonFor, Place, AllExcused, LastPlace, Complete;
      BeforeTheLast(m.data, m.Rule(), m.History(), tallied, reasons);
    }

    /** More data, or more that has happened since. */
    lemma IsExplained(to: int, data0: seq<byte>, h0: Past, excused0: set<nat>, n: int)
      requires data0 <= m.data && Reasoned(data0, m.Rule(), h0, tallied, reasons)
      requires Place(tallied) == to && Reasons.Recent(reasons, marked, m.mark)
      requires Later(h0, m.History(), n) && (tallied != [] ==> LastPlace(tallied) + 1 <= n)
      requires AllExcused(m.Rule(), h0.ends, tallied, excused0) && excused0 <= m.excused
      requires Complete(h0.inserted, excused0, LastPlace(tallied))
      requires forall y: nat {:trigger y in m.excused} | y in m.excused && y !in excused0 :: Excused(m.Rule(), m.ends, tallied, y)
      ensures Explained(to)
    {
      hide ReasonFor, Place, Excused, LastPlace;
      CompleteStill(h0.inserted, excused0, m.inserted, m.excused, LastPlace(tallied));
      assert m.data == data0 + m.data[|data0|..];
      if tallied == [] {
        assert Reasoned(m.data, m.Rule(), m.History(), tallied, reasons);
      } else {
        ReasonedMore(data0, m.Rule(), h0, tallied, reasons, m.data[|data0|..], m.History(), n);
      }
      ExcusedMore(m.Rule(), h0.ends, tallied, excused0, m.ends, Literal(0));
      forall y: nat {:trigger y in m.excused} | y in m.excused ensures Excused(m.Rule(), m.ends, tallied, y) {
        if y in excused0 {
          assert AllExcused(m.Rule(), m.ends, tallied, excused0);
        }
      }
    }

    lemma CollectedIs(to: int)
      requires Collected(to)
      ensures coder.Valid() && m.base + m.blockStart >= 0 && to >= 0 && Explained(to)
      ensures Covers(m.data, m.base + m.blockStart, coder.tokens, to, m.p.MaxDist()) && Covers(m.data, 0, tallied, to, m.p.MaxDist())
    {
      hide Coder.Valid, Covers, Explained;
    }

    lemma IsCollected(to: int)
      requires coder.Valid() && m.base + m.blockStart >= 0 && to >= 0 && Explained(to)
      requires Covers(m.data, m.base + m.blockStart, coder.tokens, to, m.p.MaxDist()) && Covers(m.data, 0, tallied, to, m.p.MaxDist())
      ensures Collected(to)
    {
      hide Coder.Valid, Covers, Explained;
    }

    lemma Parts()
      requires Valid()
      ensures Shaped() && m.Valid() && m.next <= |m.input| && m.strstart + m.lookahead <= 2 * m.p.wSize
      ensures (m.level <= 3 ==> !m.matchAvailable) && 512 <= m.p.wSize <= 32768
      ensures m.level > 0 && Collected(Position()) && Roomy() && Sent()
    {
      hide Collected, Sent, Matcher.Valid, Matcher.Shaped, Coder.Shaped;
      m.InputIs();
      WindowFits();
      if m.level <= 3 {
        m.NotWaiting();
      }
    }

    /** Making sure that there is enough lookahead, except at the end of the input: whether to go on, to stop, or to flush. */
    method Prepare(flush: Flush) returns (next: Turn)
      requires Valid()
      modifies m`insH, m`strstart, m`lookahead, m`blockStart, m`matchStart, m`next, m`adler, m`data, m`base, m`ins, m.window, m.prev,
               m.head
      ensures old(m.next) <= m.next <= |m.input| && Valid() && m.data == old(m.data) + m.input[old(m.next)..m.next]
      ensures m.strstart + MIN_LOOKAHEAD <= 2 * m.p.wSize && Left() == old(Left())
      ensures next != Full && (next == Step ==> m.lookahead >= 1 && m.Supplied())
      ensures next == End ==> m.lookahead == 0 && m.next == |m.input| && flush != NoFlush
      ensures next == Stop ==> flush == NoFlush && m.next == |m.input|
    {
      hide Valid, Matcher.Valid, Matcher.Shaped, Coder.Shaped, Shaped;
      Parts();
      assert m.data == m.data + m.input[m.next..m.next];
      next := Step;
      if m.lookahead < MIN_LOOKAHEAD {
        Refill();
        if m.lookahead < MIN_LOOKAHEAD && flush == NoFlush {
          next := Stop;
        } else if m.lookahead == 0 {
          next := End;
        }
      }
    }

    /** A step of deflate_fast, and a flush when the block is full. */
    method FastTurn(hashHead0: nat) returns (hashHead: nat, exhausted: bool)
      requires Handing() && out.availOut > 0
      requires Valid() && m.level <= 3 && m.lookahead >= 1 && m.Supplied() && m.strstart + MIN_LOOKAHEAD <= 2 * m.p.wSize
      requires Stale(m.p.wSize, hashHead0, m.slots)
      modifies this`tallied, this`reasons, m`insH, m`ins, m`slots, m`strstart, m`lookahead, m`matchLength, m`matchStart, m`look, m`inserted,
               m`excused, m`blockStart, m.prev, m.head,
               Frame()
      ensures Handing() && HandedOver() && (exhausted <==> out.availOut == 0)
      ensures Valid() && Left() < old(Left()) && Stale(m.p.wSize, hashHead, m.slots)
    {
      hide Extends, Handing, Valid, Stepped, Matcher.Valid, Matcher.Shaped, Coder.Shaped, Shaped, Stale;
      ExtendsSelf(coder.w.pending);
      var full;
      exhausted := false;
      hashHead, full := FastStep(hashHead0);
      if full {
        StepIs();
        exhausted := FlushStep();
      } else {
        RoomyStep();
      }
    }

    lemma MakeStepped()
      requires Shaped() && m.level > 0 && m.Valid() && Collected(Position()) && Sent()
      ensures Stepped()
    {
      hide Shaped, Collected, Sent, Matcher.Valid;
    }

    lemma StepIs()
      requires Stepped() && m.level <= 3
      ensures !m.matchAvailable
    {
      hide Collected, Sent, Matcher.Valid, Matcher.Shaped, Coder.Shaped;
      m.NotWaiting();
    }

    lemma RoomyStep()
      requires Stepped() && Roomy()
      ensures Valid()
    {
      hide Collected, Sent, Matcher.Valid, Matcher.Shaped, Coder.Shaped;
    }

    /** A turn of the loop of deflate_fast: input is read if there is too little ahead, then a step is taken if there is any. */
    method FastRound(hashHead0: nat, flush: Flush) returns (hashHead: nat, turn: Turn)
      requires Handing() && out.availOut > 0
      requires Valid() && m.level <= 3 && m.p.wSize > 0 && Stale(m.p.wSize, hashHead0, m.slots)
      modifies this`tallied, this`reasons, m, m.window, m.prev, m.head, Frame()
      ensures Undisturbed()
      ensures Handing() && HandedOver() && (turn == Full <==> out.availOut == 0)
      ensures Valid() && m.input == old(m.input) && old(m.next) <= m.next <= |m.input|
      ensures m.data == old(m.data) + m.input[old(m.next)..m.next]
      ensures turn == Step ==> Left() < old(Left()) && Stale(m.p.wSize, hashHead, m.slots)
      ensures turn == Stop ==> flush == NoFlush && m.next == |m.input|
      ensures turn == End ==>
        m.lookahead == 0 && m.next == |m.input| && flush != NoFlush && m.strstart < 2 * m.p.wSize
    {
      hide Extends, Handing, Valid, Matcher.Valid, Shaped, Stale, Collected, Sent, BitWriter.Sent, Coder.Valid;
      ExtendsSelf(coder.w.pending);
      Parts();
      hashHead := hashHead0;
      turn := Prepare(flush);
      if turn == Step {
        var exhausted;
        hashHead, exhausted := FastTurn(hashHead);
        if exhausted {
          turn := Full;
        }
      }
    }

    /** deflate_fast */
    method DeflateFast(flush: Flush) returns (r: BlockState, full: bool)
      requires Handing() && out.availOut > 0
      requires Valid() && m.level <= 3
      modifies this`tallied, this`reasons, m, m.window, m.prev, m.head, Frame()
      ensures Undisturbed()
      ensures Handing() && HandedOver() && (full <==> out.availOut == 0)
      ensures Done(flush, r)
      ensures m.input == old(m.input) && old(m.next) <= m.next <= |m.input|
      ensures m.data == old(m.data) + m.input[old(m.next)..m.next]
      ensures (r == NeedMore || r == FinishStarted ==> full || flush == NoFlush) && (r != NeedMore || !full ==> m.next == |m.input|)
      ensures r == BlockDone || r == FinishDone ==> !full
    {
      hide Extends, Handing, Valid, Stepped, Matcher.Valid, Shaped, Stale, Done, Collected, Sent, Finished, SendsAll, BitWriter.Sent, Coder.Valid;
      ExtendsSelf(coder.w.pending);
      ghost var d0, i0, n0 := m.data, m.input, m.next;
      Parts();
      assert d0 + i0[n0..n0] == d0;
      var hashHead, turn := 0, Step;
      NoneStale();
      while turn == Step
        invariant Valid() && m.input == i0 && n0 <= m.next <= |i0| && m.data == d0 + i0[n0..m.next]
        invariant m.p.wSize > 0 && (turn == Step ==> Stale(m.p.wSize, hashHead, m.slots))
        invariant turn == Stop ==> flush == NoFlush && m.next == |m.input|
        invariant Undisturbed() && Handing() && HandedOver() && (turn == Full <==> out.availOut == 0)
        invariant turn == End ==>
          m.lookahead == 0 && m.next == |m.input| && flush != NoFlush && m.strstart < 2 * m.p.wSize
        decreases turn == Step, Left()
      {
        ghost var next1, p1 := m.next, coder.w.pending;
        hashHead, turn := FastRound(hashHead, flush);
        ExtendsMore(old(coder.w.pending), p1, coder.w.pending);
        DataMore(d0, i0, n0, next1, m.next);
      }
      if turn == Stop || turn == Full {
        NotDone(flush);
        r, full := NeedMore, turn == Full;
      } else {
        Parts();
        ValidStep();
        ghost var p2 := coder.w.pending;
        r, full := FlushEnd(flush);
        ExtendsMore(old(coder.w.pending), p2, coder.w.pending);
      }
    }

    lemma NoneStale()
      requires Valid()
      ensures m.p.wSize > 0 && Stale(m.p.wSize, 0, m.slots)
    {
      hide Valid;
      Parts();
    }

    lemma ValidStep()
      requires Valid()
      ensures Stepped()
    {
      hide Collected, Sent, Matcher.Valid, Matcher.Shaped, Coder.Shaped;
    }

    // -------------------------------------------------------------- deflate_slow

    /** The match that was waiting is taken. */
    method TakeWaiting(hashHead0: nat) returns (hashHead: nat, full: bool)
      requires Shaped() && m.LookedSlow(hashHead0) && Collected(Position()) && Roomy() && Sent()
        && m.prevLength >= MIN_MATCH && m.matchLength <= m.prevLength
      modifies this`tallied, this`reasons, m`insH, m`ins, m`slots, m`strstart, m`lookahead, m`prevLength, m`matchLength, m`matchAvailable,
               m`inserted, m`excused, m.prev, m.head, coder`lastLit, coder`tokens, coder.lfc, coder.dfc, coder.dBuf, coder.lBuf
      ensures Stepped() && (full <==> !Roomy()) && m.strstart < 2 * m.p.wSize && Left() < old(Left())
      ensures Stale(m.p.wSize, hashHead, m.slots) && !m.matchAvailable
    {
      hide Valid, Stepped, Shaped, Collected, Sent, Matcher.Valid, Matcher.LookedSlow, Matcher.Led, LookedAt, ReasonFor, Answer,
           Stale, MatchAt, Shows;
      ApartFromCoder();
      m.LookedSlowIs(hashHead0);
      m.WaitingFits(hashHead0);
      m.LevelIs(hashHead0);
      ghost var to := Position();
      MatchDist(m.data, to, m.base + m.prevMatch, m.prevLength, m.p);
      WaitingReason(hashHead0);
      m.SlowComplete(hashHead0, to);
      full := TallyMatch(m.strstart - 1 - m.prevMatch, m.prevLength, to, m.base + m.prevMatch, Reason(m.prevLook, m.look));
      hashHead := PastMatchSlow(hashHead0, to);
      MakeStepped();
    }

    /** Past the match that has just been tallied. */
    method PastMatchSlow(hashHead0: nat, ghost to: nat) returns (hashHead: nat)
      requires Shaped() && m.LookedSlow(hashHead0) && m.prevLength >= MIN_MATCH && Collected(to + m.prevLength) && to + 1 == m.At()
      requires tallied != [] && Span(tallied[|tallied| - 1]) == m.prevLength
      modifies m`insH, m`strstart, m`lookahead, m`prevLength, m`matchLength, m`matchAvailable, m`ins, m`slots, m`inserted, m`excused,
               m.prev, m.head
      ensures m.Valid() && Stale(m.p.wSize, hashHead, m.slots) && !m.matchAvailable && Collected(m.At())
      ensures m.strstart == old(m.strstart + m.prevLength) - 1 && m.lookahead == old(m.lookahead - m.prevLength) + 1
    {
      hide Shaped, Collected, Matcher.Valid, Matcher.LookedSlow, Matcher.SlowUpto, Adds, Reasoned, AllExcused, Reasons.Recent, LastPlace,
           Place, Stale, Explained, Coder.Valid, Covers, Span;
      ApartFromCoder();
      ghost var n, h0, e0, k := m.prevLength, m.History(), m.excused, m.base + m.SlowUpto();
      CollectedIs(to + n);
      ExplainedIs(to + n);
      m.SlowAhead(hashHead0);
      m.SlowLimits(hashHead0);
      hashHead := m.PassMatchSlow(hashHead0);
      PassKeeps(to, n, h0, e0, k);
      IsCollected(to + n);
    }

    /** What passing a match does to the account, in deflate_slow. */
    lemma PassKeeps(to: int, n: nat, h0: Past, excused0: set<nat>, k: int)
      requires Reasoned(m.data, m.Rule(), h0, tallied, reasons) && Place(tallied) == to + n && Reasons.Recent(reasons, marked, m.mark)
      requires AllExcused(m.Rule(), h0.ends, tallied, excused0) && tallied != [] && Span(tallied[|tallied| - 1]) == n
      requires Complete(h0.inserted, excused0, LastPlace(tallied))
      requires m.ends == h0.ends && m.forgets == h0.forgets && to >= 0 && k >= to + 2
      requires m.inserted == h0.inserted + Interval(to + 2, k) && m.excused == excused0 + Interval(k, to + n)
      requires k < to + n ==> k + MIN_MATCH > |m.data| && |m.data| in m.ends
      requires to + n <= |m.data|
      ensures Explained(to + n)
    {
      hide Reasoned, Place, AllExcused, Reasons.Recent, Span, Complete;
      LastStarts(tallied);
      forall y: nat {:trigger y in m.excused} | y in m.excused && y !in excused0 ensures Excused(m.Rule(), m.ends, tallied, y) {
        assert TooShort(m.ends, y);
      }
      IsExplained(to + n, m.data, h0, excused0, to + 2);
    }

    /** Why the waiting match is taken. */
    lemma WaitingReason(hashHead: nat)
      requires m.LookedSlow(hashHead) && m.prevLength >= MIN_MATCH && m.matchLength <= m.prevLength && m.matchAvailable
      requires m.strstart - 1 >= m.prevMatch
      ensures ReasonFor(m.data, m.Rule(), m.History(), Match(m.prevLength, m.strstart - 1 - m.prevMatch), m.At() - 1, Reason(m.prevLook, m.look))
        && m.prevLook.from == m.mark
    {
      hide LookedAt, ReasonFor, Answer, Matcher.Led, Matcher.LookedSlow;
      m.LevelIs(hashHead);
      m.LookedSlowLed(hashHead);
      m.LedIs(m.look, m.At(), m.matchLength, m.base + m.matchStart);
      m.LedIs(m.prevLook, m.At() - 1, m.prevLength, m.base + m.prevMatch);
      LazyMatch(m.data, m.Rule(), m.History(), m.prevLook, m.look, m.At() - 1, m.prevLength, m.strstart - 1 - m.prevMatch);
    }

    /** Why the waiting byte is a literal. */
    lemma LiteralReason(hashHead: nat, c: byte)
      requires m.LookedSlow(hashHead) && !(m.prevLength >= MIN_MATCH && m.matchLength <= m.prevLength) && m.matchAvailable
      ensures ReasonFor(m.data, m.Rule(), m.History(), Literal(c), m.At() - 1, Reason(m.prevLook, m.look)) && m.prevLook.from == m.mark
    {
      hide LookedAt, ReasonFor, Answer, Matcher.Led, Matcher.LookedSlow;
      m.LevelIs(hashHead);
      m.LookedSlowLed(hashHead);
      m.LedIs(m.look, m.At(), m.matchLength, m.base + m.matchStart);
      m.LedIs(m.prevLook, m.At() - 1, m.prevLength, m.base + m.prevMatch);
      LazyLiteral(m.data, m.Rule(), m.History(), m.prevLook, m.look, m.At() - 1, c);
    }

    /** The byte that was waiting is a literal. */
    method EmitByte(ghost hashHead: nat)
      requires Handing()
      requires Shaped() && m.LookedSlow(hashHead) && Collected(Position()) && Roomy() && Sent() && m.matchAvailable
      requires !(m.prevLength >= MIN_MATCH && m.matchLength <= m.prevLength)
      modifies this`tallied, this`reasons, m`blockStart, Frame()
      ensures Handing() && HandedOver()
      ensures m.LookedSlow(hashHead) && Collected(m.At()) && Roomy() && Sent()
    {
      hide Extends, Handing, Shaped, Collected, Sent, Roomy, Sends, Matcher.LookedSlow, ReasonFor, Stale, MatchAt, Shows;
      ExtendsSelf(coder.w.pending);
      ApartFromCoder();
      m.LookedSlowIs(hashHead);
      LiteralReason(hashHead, m.window[m.strstart - 1]);
      m.SlowComplete(hashHead, Position());
      var full := TallyLiteral(m.window[m.strstart - 1], Position(), Reason(m.prevLook, m.look));
      if full {
        FlushFull(hashHead);
      }
    }

    /** FLUSH_BLOCK_ONLY, with the string at strstart looked up; only when there is no room for another token. */
    method FlushFull(ghost hashHead: nat)
      requires Handing() && !Roomy()
      requires Shaped() && m.LookedSlow(hashHead) && Collected(m.At()) && Sent()
      modifies m`blockStart, Frame()
      ensures Handing() && HandedOver()
      ensures m.LookedSlow(hashHead) && Collected(m.At()) && Roomy() && Sent()
    {
      hide Extends, Handing, Shaped, Collected, Sent, Roomy, Sends, Matcher.LookedSlow, Stale, MatchAt, Shows;
      ApartFromCoder();
      m.LookedSlowIs(hashHead);
      m.LevelIs(hashHead);
      var exhausted := FlushBlock(false);
      m.BlockMovedSlow(hashHead);
      MakeSent();
    }

    lemma MakeSent()
      requires m.blockStart == m.strstart && m.At() <= |m.data| && Sends(coder.w.Sent(), lead, m.data[..m.At()])
      ensures Sent()
    {
      hide Sends;
    }

    /** It is sent, and the byte at strstart waits now. */
    method TakeByte(ghost hashHead: nat) returns (exhausted: bool)
      requires Handing() && out.availOut > 0
      requires Shaped() && m.LookedSlow(hashHead) && Collected(Position()) && Roomy() && Sent() && m.matchAvailable
      requires !(m.prevLength >= MIN_MATCH && m.matchLength <= m.prevLength)
      modifies this`tallied, this`reasons, m`strstart, m`lookahead, m`matchAvailable, m`blockStart, Frame()
      ensures Handing() && HandedOver() && (exhausted <==> out.availOut == 0)
      ensures Valid() && Left() < old(Left()) && Stale(m.p.wSize, hashHead, m.slots)
    {
      hide Extends, Handing, Valid, Shaped, Collected, Sent, Matcher.Valid, Matcher.LookedSlow, Stale;
      ExtendsSelf(coder.w.pending);
      ApartFromCoder();
      EmitByte(hashHead);
      m.LevelIs(hashHead);
      m.PassByteSlow(hashHead);
      MakeValid();
      exhausted := out.availOut == 0;
    }

    /** One turn of deflate_slow, with input ahead. */
    method SlowTurn(hashHead0: nat) returns (hashHead: nat, exhausted: bool)
      requires Handing() && out.availOut > 0
      requires Valid() && m.level > 3 && m.lookahead >= 1 && m.Supplied() && m.strstart + MIN_LOOKAHEAD <= 2 * m.p.wSize
      requires Stale(m.p.wSize, hashHead0, m.slots)
      modifies this`tallied, this`reasons, m`insH, m`ins, m`slots, m`strstart, m`lookahead, m`matchLength, m`matchStart, m`prevLength, m`look, m`prevLook,
               m`prevMatch, m`inserted, m`excused, m`matchAvailable, m`blockStart, m.prev, m.head, Frame()
      ensures Handing() && HandedOver() && (exhausted <==> out.availOut == 0)
      ensures Valid() && Left() < old(Left()) && Stale(m.p.wSize, hashHead, m.slots)
    {
      hide Extends, Handing, Valid, Stepped, Shaped, Collected, Sent, Matcher.Valid, Matcher.LookedSlow, Stale, MatchAt, Shows;
      ExtendsSelf(coder.w.pending);
      Parts();
      ApartFromCoder();
      exhausted := false;
      hashHead := LookUp(hashHead0);
      m.LookedSlowIs(hashHead);
      if m.prevLength >= MIN_MATCH && m.matchLength <= m.prevLength {
        hashHead, exhausted := TakeMatch(hashHead);
      } else if m.matchAvailable {
        exhausted := TakeByte(hashHead);
      } else {
        m.LevelIs(hashHead);
        m.PassByteSlow(hashHead);
        MakeValid();
      }
    }

    /** The string at strstart is looked up. */
    method LookUp(hashHead0: nat) returns (hashHead: nat)
      requires Shaped() && m.Valid() && m.level > 3 && m.lookahead >= 1 && m.Supplied() && m.strstart + MIN_LOOKAHEAD <= 2 * m.p.wSize
      requires Stale(m.p.wSize, hashHead0, m.slots) && Collected(Position())
      modifies m`insH, m`ins, m`slots, m`matchLength, m`matchStart, m`prevLength, m`look, m`prevLook, m`prevMatch, m`inserted, m`excused,
               m.prev, m.head
      ensures m.LookedSlow(hashHead) && Collected(Position())
    {
      hide Shaped, Collected, Matcher.Valid, Matcher.LookedSlow, Stale, Explained, Coder.Valid, Covers;
      ApartFromCoder();
      ghost var to, h0, e0 := Position(), m.History(), m.excused;
      CollectedIs(to);
      ExplainedIs(to);
      hashHead := m.LookSlow(hashHead0);
      m.SlowAhead(hashHead);
      LookKeeps(to, h0, e0);
      IsCollected(to);
    }

    /** The match that was waiting is taken, and a block is sent if it is full. */
    method TakeMatch(hashHead0: nat) returns (hashHead: nat, exhausted: bool)
      requires Handing() && out.availOut > 0
      requires Shaped() && m.LookedSlow(hashHead0) && Collected(Position()) && Roomy() && Sent()
        && m.prevLength >= MIN_MATCH && m.matchLength <= m.prevLength
      modifies this`tallied, this`reasons, m`insH, m`ins, m`slots, m`strstart, m`lookahead, m`prevLength, m`matchLength,
               m`inserted, m`excused, m`matchAvailable, m`blockStart, m.prev, m.head, Frame()
      ensures Handing() && HandedOver() && (exhausted <==> out.availOut == 0)
      ensures Valid() && Left() < old(Left()) && Stale(m.p.wSize, hashHead, m.slots)
    {
      hide Extends, Handing, Valid, Stepped, Shaped, Collected, Sent, Roomy, Matcher.LookedSlow, Stale;
      ExtendsSelf(coder.w.pending);
      ApartFromCoder();
      var full;
      exhausted := false;
      hashHead, full := TakeWaiting(hashHead0);
      if full {
        exhausted := FlushStep();
      } else {
        RoomyStep();
      }
    }

    /** Why it is a literal when no input follows. */
    lemma LastReason(c: byte)
      requires m.Valid() && m.level > 3 && m.lookahead == 0 && m.matchAvailable
      ensures ReasonFor(m.data, m.Rule(), m.History(), Literal(c), m.At() - 1, Reason(m.look, m.look)) && m.look.from == m.mark
    {
      hide Tracks, Check, LookedAt, ReasonFor, Answer, Matcher.Led, Matcher.Kept;
      m.Positions();
      m.LedIs(m.look, m.At() - 1, m.matchLength, m.base + m.matchStart);
      LazyLiteral(m.data, m.Rule(), m.History(), m.look, m.look, m.At() - 1, c);
    }

    /** With all input read and looked at, a byte that is still waiting is a literal. */
    method EndWaiting()
      requires Valid() && m.level > 3 && m.lookahead == 0
      modifies this`tallied, this`reasons, m`matchAvailable, coder`lastLit, coder`tokens, coder.lfc, coder.dfc, coder.dBuf, coder.lBuf
      ensures Stepped() && !m.matchAvailable
    {
      hide Valid, Stepped, Shaped, Collected, Sent, Matcher.Valid;
      Parts();
      ApartFromCoder();
      if m.matchAvailable {
        m.LastByte();
        LastReason(m.window[m.strstart - 1]);
        m.AllComplete(Position());
        var full := TallyLiteral(m.window[m.strstart - 1], Position(), Reason(m.look, m.look));
        m.StopWaiting();
      }
      MakeStepped();
    }

    /** A turn of the loop of deflate_slow: input is read if there is too little ahead, then a step is taken if there is any. */
    method SlowRound(hashHead0: nat, flush: Flush) returns (hashHead: nat, turn: Turn)
      requires Handing() && out.availOut > 0
      requires Valid() && m.level > 3 && m.p.wSize > 0 && Stale(m.p.wSize, hashHead0, m.slots)
      modifies this`tallied, this`reasons, m, m.window, m.prev, m.head, Frame()
      ensures Undisturbed()
      ensures Handing() && HandedOver() && (turn == Full <==> out.availOut == 0)
      ensures Valid() && m.input == old(m.input) && old(m.next) <= m.next <= |m.input|
      ensures m.data == old(m.data) + m.input[old(m.next)..m.next]
      ensures turn == Step ==> Left() < old(Left()) && Stale(m.p.wSize, hashHead, m.slots)
      ensures turn == Stop ==> flush == NoFlush && m.next == |m.input|
      ensures turn == End ==>
        m.lookahead == 0 && m.next == |m.input| && flush != NoFlush && m.strstart < 2 * m.p.wSize
    {
      hide Extends, Handing, Valid, Matcher.Valid, Matcher.Supplied, Shaped, Stale, Collected, Sent, BitWriter.Sent, Coder.Valid;
      ExtendsSelf(coder.w.pending);
      Parts();
      hashHead := hashHead0;
      turn := Prepare(flush);
      if turn == Step {
        var exhausted;
        hashHead, exhausted := SlowTurn(hashHead);
        if exhausted {
          turn := Full;
        }
      }
    }

    /** deflate_slow */
    method DeflateSlow(flush: Flush) returns (r: BlockState, full: bool)
      requires Handing() && out.availOut > 0
      requires Valid() && m.level > 3
      modifies this`tallied, this`reasons, m, m.window, m.prev, m.head, Frame()
      ensures Undisturbed()
      ensures Handing() && HandedOver() && (full <==> out.availOut == 0)
      ensures Done(flush, r)
      ensures m.input == old(m.input) && old(m.next) <= m.next <= |m.input|
      ensures m.data == old(m.data) + m.input[old(m.next)..m.next]
      ensures (r == NeedMore || r == FinishStarted ==> full || flush == NoFlush) && (r != NeedMore || !full ==> m.next == |m.input|)
      ensures r == BlockDone || r == FinishDone ==> !full
    {
      hide Extends, Handing, Valid, Stepped, Matcher.Valid, Shaped, Stale, Done, Collected, Sent, Finished, SendsAll, BitWriter.Sent, Coder.Valid;
      ExtendsSelf(coder.w.pending);
      ghost var d0, i0, n0 := m.data, m.input, m.next;
      Parts();
      assert d0 + i0[n0..n0] == d0;
      var hashHead, turn := 0, Step;
      NoneStale();
      while turn == Step
        invariant Valid() && m.input == i0 && n0 <= m.next <= |i0| && m.data == d0 + i0[n0..m.next]
        invariant m.p.wSize > 0 && (turn == Step ==> Stale(m.p.wSize, hashHead, m.slots))
        invariant turn == Stop ==> flush == NoFlush && m.next == |m.input|
        invariant Undisturbed() && Handing() && HandedOver() && (turn == Full <==> out.availOut == 0)
        invariant turn == End ==>
          m.lookahead == 0 && m.next == |m.input| && flush != NoFlush && m.strstart < 2 * m.p.wSize
        decreases turn == Step, Left()
      {
        ghost var next1, p1 := m.next, coder.w.pending;
        hashHead, turn := SlowRound(hashHead, flush);
        ExtendsMore(old(coder.w.pending), p1, coder.w.pending);
        DataMore(d0, i0, n0, next1, m.next);
      }
      if turn == Stop || turn == Full {
        NotDone(flush);
        r, full := NeedMore, turn == Full;
      } else {
        ghost var p2 := coder.w.pending;
        r, full := EndSlow(flush);
        ExtendsMore(old(coder.w.pending), p2, coder.w.pending);
      }
    }

    /** The end of deflate_slow. */
    method EndSlow(flush: Flush) returns (r: BlockState, full: bool)
      requires Handing()
      requires Valid() && m.level > 3 && m.strstart < 2 * m.p.wSize && m.lookahead == 0 && flush != NoFlush
      modifies this`tallied, this`reasons, m`matchAvailable, m`blockStart, Frame()
      ensures Handing() && HandedOver() && (full <==> out.availOut == 0)
      ensures Done(flush, r) && (full <==> r == NeedMore || r == FinishStarted)
    {
      hide Extends, Handing, Valid, Stepped, Done, Shaped, Collected, Sent;
      EndWaiting();
      r, full := FlushEnd(flush);
    }

    lemma MakeValid()
      requires Shaped() && m.level > 0 && m.Valid() && Collected(Position()) && Roomy() && Sent()
      ensures Valid()
    {
      hide Shaped, Collected, Sent, Matcher.Valid;
    }

    // -------------------------------------------------------------- deflate_stored

    /** A stored block is limited by its length field and by pending_buf. */
    function MaxBlockSize(): int {
      if coder.dBuf.Length * 4 - 5 < 0xffff then coder.dBuf.Length * 4 - 5 else 0xffff
    }

    /** Between steps at level 0: the block's bytes are all in the window, and not so many that sliding would lose them. */
    ghost predicate ValidStored()
      reads this, m, m.window, m.prev, m.head, coder, coder.w, coder.builder, coder.lfc, coder.dfc, coder.bfc, coder.dBuf, coder.lBuf
    {
      && Shaped() && m.level == 0 && m.Plain() && coder.Valid() && coder.tokens == [] && Sent() && coder.dBuf.Length >= 128
      && 0 <= m.blockStart <= m.strstart && m.strstart - m.blockStart < m.p.MaxDist()
      && m.strstart - m.blockStart < MaxBlockSize()
    }

    /** The block is as long as it may be, or all input has been read. */
    ghost predicate Due()
      reads m`strstart, m`blockStart, m`lookahead
    {
      m.lookahead == 0 || m.strstart - m.blockStart >= MaxBlockSize() || m.strstart - m.blockStart >= m.p.MaxDist()
    }

    /** FLUSH_BLOCK, at level 0. */
    method FlushStored(eof: bool) returns (exhausted: bool)
      requires Handing() && Due()
      requires Shaped() && m.level == 0 && m.Plain() && coder.Valid() && coder.tokens == [] && Sent()
      requires 0 <= m.blockStart <= m.strstart && m.strstart - m.blockStart < 65536
      modifies m`blockStart, Frame()
      ensures Handing() && HandedOver() && (exhausted <==> out.availOut == 0)
      ensures m.blockStart == m.strstart && m.Plain() && coder.Valid() && coder.tokens == []
      ensures m.At() <= |m.data|
      ensures if eof then SendsAll(coder.w.Sent(), lead, m.data[..m.At()]) && coder.w.biValid == 0 && coder.w.biBuf == 0
              else Sends(coder.w.Sent(), lead, m.data[..m.At()]) && Sent()
    {
      hide Covers, Sends, SendsAll, Coder.Valid, Coder.Shaped, Matcher.Shaped, AllCoded, FixedLengths, FixedDistances,
           Shows, Delivers, Zeros, Padding, BitWriter.Sent, Check, StoredBits;
      ApartFromCoder();
      m.PlainShows();
      ghost var at, from, sent0 := m.At(), From(), coder.w.Sent();
      ShowsPart(m.p, m.window[..], m.strstart, m.lookahead, m.base, m.data, m.blockStart, m.strstart);
      var buf := m.window[m.blockStart..m.strstart];
      assert m.window[..][m.blockStart..m.strstart] == buf;
      assert m.data[..at] == m.data[..from] + m.data[from..at];
      ghost var form, sent, dynamic;
      ghost var w1, h1, p1 := m.window[..], m.head[..], m.prev[..];
      form, sent, dynamic := coder.FlushBlock(buf, true, m.strstart - m.blockStart, eof, m.level, m.strategy == Strategy.Fixed);
      assert m.window[..] == w1 && m.head[..] == h1 && m.prev[..] == p1;
      StoredDelivers(|sent0|, buf, eof, m.data[..from]);
      if eof {
        SendsLast(sent0, lead, m.data[..from], sent, m.data[..at]);
      } else {
        SendsBlock(sent0, lead, m.data[..from], sent, m.data[..at]);
        assert sent0 + sent + [] == sent0 + sent;
      }
      m.blockStart := m.strstart;
      FlushPending();
      exhausted := out.availOut == 0;
    }

    /** How a call at level 0 ends. */
    ghost predicate DoneStored(flush: Flush, r: BlockState)
      reads this, m, m.window, m.prev, m.head, coder, coder.w, coder.builder, coder.lfc, coder.dfc, coder.bfc, coder.dBuf, coder.lBuf
    {
      && Shaped() && coder.Valid()
      && (if r == FinishStarted || r == FinishDone
          then flush == Finish && Ended() && m.lookahead == 0 && m.Plain() && m.level == 0
          else ValidStored() && (r == BlockDone ==> m.lookahead == 0 && From() == |m.data| && flush != Finish && flush != NoFlush))
    }

    lemma StoredParts()
      requires ValidStored()
      ensures Shaped() && m.Plain() && m.next <= |m.input| && 512 <= m.p.wSize <= 32768
      ensures m.strstart + m.lookahead <= 2 * m.p.wSize && m.base + m.strstart + m.lookahead == |m.data|
      ensures 0 <= m.blockStart <= m.strstart && m.strstart - m.blockStart < m.p.MaxDist()
      ensures m.strstart - m.blockStart < MaxBlockSize()
    {
      hide Shaped, Sent, Matcher.Plain, Coder.Valid;
      m.PlainShows();
    }

    /** Filling the window as much as possible; the slide is never too late. */
    method FillStored(flush: Flush) returns (turn: Turn)
      requires ValidStored()
      modifies m, m.window, m.prev, m.head
      ensures Undisturbed()
      ensures m.input == old(m.input) && old(m.next) <= m.next <= |m.input| && ValidStored()
      ensures m.data == old(m.data) + m.input[old(m.next)..m.next] && Left() == old(Left())
      ensures turn != Full && (turn == Step ==> m.lookahead >= 1)
      ensures turn == Stop ==> flush == NoFlush && m.next == |m.input|
      ensures turn == End ==> m.lookahead == 0 && m.next == |m.input| && flush != NoFlush
    {
      hide Shaped, Sends, Matcher.Plain, Coder.Valid, BitWriter.Sent;
      ApartFromCoder();
      StoredParts();
      turn := Step;
      ghost var d0, from := m.data, From();
      assert d0 + m.input[m.next..m.next] == d0;
      if m.lookahead <= 1 {
        m.FillPlain();
        assert m.data[..from] == d0[..from];
        if m.lookahead == 0 {
          turn := if flush == NoFlush then Stop else End;
        }
      }
    }

    /** All input ahead is taken; a block is sent when it is as long as it may be, or when its bytes might slide out. */
    method StepStored() returns (exhausted: bool)
      requires Handing() && out.availOut > 0
      requires ValidStored() && m.lookahead >= 1
      modifies m`strstart, m`lookahead, m`blockStart, Frame()
      ensures Handing() && HandedOver() && (exhausted <==> out.availOut == 0)
      ensures ValidStored() && Left() < old(Left())
    {
      hide Extends, Handing, Shaped, Sent, Sends, Matcher.Plain, Coder.Valid, BitWriter.Sent;
      ExtendsSelf(coder.w.pending);
      ApartFromCoder();
      StoredParts();
      m.MoveTo(m.strstart + m.lookahead);
      var maxStart := m.blockStart + MaxBlockSize();
      exhausted := false;
      if m.strstart == 0 || m.strstart >= maxStart {
        m.MoveTo(maxStart);
        exhausted := FlushStored(false);
        if exhausted {
          return;
        }
      }
      if m.strstart - m.blockStart >= m.p.MaxDist() {
        ghost var p1 := coder.w.pending;
        exhausted := FlushStored(false);
        ExtendsMore(old(coder.w.pending), p1, coder.w.pending);
      }
    }

    /** A turn of the loop of deflate_stored. */
    method StoredRound(flush: Flush) returns (turn: Turn)
      requires Handing() && out.availOut > 0 && ValidStored()
      modifies m, m.window, m.prev, m.head, Frame()
      ensures Undisturbed() && Handing() && HandedOver() && (turn == Full <==> out.availOut == 0)
      ensures ValidStored() && m.input == old(m.input) && old(m.next) <= m.next <= |m.input|
      ensures m.data == old(m.data) + m.input[old(m.next)..m.next]
      ensures turn == Step ==> Left() < old(Left())
      ensures turn == Stop ==> flush == NoFlush && m.next == |m.input|
      ensures turn == End ==> m.lookahead == 0 && m.next == |m.input| && flush != NoFlush
    {
      hide Extends, Handing, ValidStored, Shaped, BitWriter.Sent;
      ExtendsSelf(coder.w.pending);
      turn := FillStored(flush);
      if turn == Step {
        var exhausted := StepStored();
        if exhausted {
          turn := Full;
        }
      }
    }

    /** deflate_stored */
    method DeflateStored(flush: Flush) returns (r: BlockState, full: bool)
      requires Handing() && out.availOut > 0
      requires ValidStored()
      modifies m, m.window, m.prev, m.head, Frame()
      ensures Undisturbed()
      ensures Handing() && HandedOver() && (full <==> out.availOut == 0)
      ensures DoneStored(flush, r)
      ensures m.input == old(m.input) && old(m.next) <= m.next <= |m.input|
      ensures m.data == old(m.data) + m.input[old(m.next)..m.next]
      ensures (r == NeedMore || r == FinishStarted ==> full || flush == NoFlush) && (r != NeedMore || !full ==> m.next == |m.input|)
      ensures r == BlockDone || r == FinishDone ==> !full
    {
      hide Extends, Handing, ValidStored, DoneStored, Shaped, Matcher.Plain, Coder.Valid, Sent, Sends, SendsAll, BitWriter.Sent;
      ExtendsSelf(coder.w.pending);
      ghost var d0, i0, n0 := m.data, m.input, m.next;
      StoredParts();
      assert d0 + i0[n0..n0] == d0;
      var turn := Step;
      while turn == Step
        invariant ValidStored() && m.input == i0 && n0 <= m.next <= |i0| && m.data == d0 + i0[n0..m.next]
        invariant turn == Stop ==> flush == NoFlush && m.next == |m.input|
        invariant Undisturbed() && Handing() && HandedOver() && (turn == Full <==> out.availOut == 0)
        invariant turn == End ==> m.lookahead == 0 && m.next == |m.input| && flush != NoFlush
        decreases turn == Step, Left()
      {
        ghost var next1, p1 := m.next, coder.w.pending;
        turn := StoredRound(flush);
        ExtendsMore(old(coder.w.pending), p1, coder.w.pending);
        DataMore(d0, i0, n0, next1, m.next);
      }
      if turn == Stop || turn == Full {
        NotDoneStored(flush);
        r, full := NeedMore, turn == Full;
      } else {
        ghost var p2 := coder.w.pending;
        r, full := EndStored(flush);
        ExtendsMore(old(coder.w.pending), p2, coder.w.pending);
      }
    }

    lemma NotDoneStored(flush: Flush)
      requires ValidStored()
      ensures DoneStored(flush, NeedMore)
    {
      hide Shaped, Sent, Matcher.Plain, Coder.Valid;
    }

    /** The end of deflate_stored. */
    method EndStored(flush: Flush) returns (r: BlockState, full: bool)
      requires Handing()
      requires ValidStored() && m.lookahead == 0 && flush != NoFlush
      modifies m`blockStart, Frame()
      ensures Handing() && HandedOver() && (full <==> out.availOut == 0)
      ensures DoneStored(flush, r) && (full <==> r == NeedMore || r == FinishStarted)
    {
      hide Extends, Handing, Shaped, Sent, Sends, SendsAll, Matcher.Plain, Coder.Valid, BitWriter.Sent;
      ApartFromCoder();
      StoredParts();
      assert m.data[..m.At()] == m.data;
      full := FlushStored(flush == Finish);
      if full {
        r := if flush == Finish then FinishStarted else NeedMore;
      } else {
        r := if flush == Finish then FinishDone else BlockDone;
      }
    }

    // -------------------------------------------------------------- the end of a flush

    lemma SentIs()
      ensures coder.w.Sent() == Streams.BitsOf(coder.w.pending) + LsbBits(coder.w.biBuf, coder.w.biValid)
    {
    }

    /** An empty block with the fixed codes has ten bits. */
    lemma EmptyBlockBits()
      ensures |StaticBits([], false)| == 10
    {
      hide FixedLengths, FixedDistances;
    }

    /** The mark of a partial flush: one or two empty blocks with the fixed codes. */
    method SendAlign()
      requires coder.Valid() && Sent()
      modifies coder.w
      ensures old(coder.w.pending) <= coder.w.pending && Within(old(coder.w.Sent()), coder.w.pending)
      ensures coder.Valid() && coder.tokens == old(coder.tokens) && Sent()
    {
      hide Within, Sends, Coder.Valid, BitWriter.Sent, StaticBits, Delivers, FixedLengths, FixedDistances, AllCoded, Streams.BitsOf,
           LsbBits;
      ghost var sent, h := coder.w.Sent(), m.data[..From()];
      ghost var twice := coder.Align();
      ghost var b := StaticBits([], false);
      EmptyBlockSends(sent, h);
      if twice {
        EmptyBlockSends(sent + b, h);
        assert sent + b + b == sent + (b + b);
      } else {
        assert sent + b + [] == sent + b;
      }
      EmptyBlockBits();
      SentIs();
      AllButAFew(sent, coder.w.pending, coder.w.biBuf, coder.w.biValid, if twice then b + b else b);
    }

    lemma EmptyBlockSends(sent: seq<bool>, h: seq<byte>)
      requires Sends(sent, lead, h) && AllCoded(FixedLengths(), FixedDistances(), [])
      ensures Sends(sent + StaticBits([], false), lead, h)
    {
      hide Sends, StaticBits, Delivers, FixedLengths, FixedDistances, AllCoded;
      StaticDelivers(|sent|, [], false, h);
      SendsBlock(sent, lead, h, StaticBits([], false), h);
    }

    /** An empty block marks the place: a stored one, or for a partial flush one or two with the fixed codes. */
    method SendMark(flush: Flush)
      requires coder.Valid() && Sent()
      modifies coder.w
      ensures old(coder.w.pending) <= coder.w.pending
      ensures coder.Valid() && coder.tokens == old(coder.tokens) && Sent()
        && (flush != PartialFlush ==> coder.w.biValid == 0)
      ensures flush == PartialFlush ==> Within(old(coder.w.Sent()), coder.w.pending)
    {
      hide Within, Sends, Coder.Valid, BitWriter.Sent, StoredBits, Delivers;
      if flush == PartialFlush {
        SendAlign();
      } else {
        ghost var sent, h := coder.w.Sent(), m.data[..From()];
        coder.EmptyStored();
        StoredDelivers(|sent|, [], false, h);
        assert h + [] == h;
        SendsBlock(sent, lead, h, StoredBits(|sent|, [], false), h);
      }
    }

    /** The history is forgotten. */
    method Forget()
      requires if m.level == 0 then ValidStored() else Valid()
      requires From() == |m.data|
      modifies this`marked, m`ins, m`mark, m`forgets, m.head
      ensures (if m.level == 0 then ValidStored() else Valid()) && m.mark == |m.data| && marked == |tallied|
      ensures m.forgets == old(m.forgets) + {|m.data|}
    {
      hide Sends, Coder.Valid, Coder.Shaped, BitWriter.Sent, Covers, Reasoned, Place, Explained, Matcher.Valid, Matcher.Plain,
           Matcher.Shaped;
      ApartFromCoder();
      if m.level > 0 {
        NothingWaits();
      } else {
        StoredParts();
      }
      ghost var to, h0, e0 := Position(), m.History(), m.excused;
      if m.level > 0 {
        ExplainedIs(to);
      }
      m.ClearHash();
      marked := |tallied|;
      if m.level > 0 {
        IsExplained(to, m.data, h0, e0, to);
      }
    }

    lemma NothingWaits()
      requires Valid() && From() == |m.data|
      ensures !m.matchAvailable && m.At() == |m.data|
    {
      hide Sends, Coder.Valid, Coder.Shaped, BitWriter.Sent, Explained, Matcher.Valid, Matcher.Shaped;
      m.InputIs();
    }

    /** Between blocks, at any level: the mark, and for a full flush the history is forgotten. */
    method Mark(flush: Flush)
      requires if m.level == 0 then ValidStored() else Valid()
      requires From() == |m.data|
      modifies this`marked, coder.w, m`ins, m`mark, m`forgets, m.head
      ensures old(coder.w.pending) <= coder.w.pending
      ensures (if m.level == 0 then ValidStored() else Valid()) && (flush != PartialFlush ==> coder.w.biValid == 0)
      ensures flush == PartialFlush ==> Within(old(coder.w.Sent()), coder.w.pending)
      ensures flush == FullFlush ==> m.mark == |m.data| && marked == |tallied|
      ensures m.forgets == old(m.forgets) + if flush == FullFlush then {|m.data|} else {}
    {
      hide Within, Sends, Coder.Valid, Coder.Shaped, BitWriter.Sent, Covers, Explained, Matcher.Valid, Matcher.Plain, Matcher.Shaped;
      ApartFromCoder();
      SendMark(flush);
      if flush == FullFlush {
        Forget();
      }
    }

    // -------------------------------------------------------------- one call

    /** Between steps, at any level. */
    ghost predicate Ready()
      reads this, m, m.window, m.prev, m.head, coder, coder.w, coder.builder, coder.lfc, coder.dfc, coder.bfc, coder.dBuf, coder.lBuf
    {
      if m.level == 0 then ValidStored() else Valid()
    }

    lemma ReadyIs()
      requires Ready()
      ensures if m.level == 0 then ValidStored() else Valid()
    {
      hide Valid, ValidStored;
    }

    lemma IsReady()
      requires if m.level == 0 then ValidStored() else Valid()
      ensures Ready()
    {
      hide Valid, ValidStored;
    }

    /** The tokens stand for data that was read, each for its reason. */
    ghost predicate Accounted()
      reads this`tallied, this`reasons, this`marked, m`data, m`mark, m`inserted, m`excused, m`ends, m`forgets
    {
      m.level > 0 ==> Covers(m.data, 0, tallied, Place(tallied), m.p.MaxDist()) && Explained(Place(tallied))
    }

    lemma CollectedIsAccounted(to: int)
      requires Collected(to)
      ensures Accounted()
    {
      hide Covers, Reasoned, Reasons.Recent, Coder.Valid, Place;
    }

    /** After the last block. */
    ghost predicate Closed()
      reads this, m, coder, coder.w
    {
      Shaped() && m.Reading() && coder.w.Valid() && m.lookahead == 0 && Ended() && Accounted()
    }

    method TakeInput(input: seq<byte>)
      requires Ready()
      modifies m`input, m`next, m`ends
      ensures Ready() && m.input == input && m.next == 0 && m.ends == old(m.ends) + {|m.data| + |input|}
    {
      hide Sends, Coder.Valid, Coder.Shaped, BitWriter.Sent, Covers, Explained, Matcher.Valid, Matcher.Plain, Matcher.Shaped, Reasoned,
           AllExcused, Place, LastPlace, Reasons.Recent;
      ghost var to, h0, e0 := Position(), m.History(), m.excused;
      if m.level > 0 {
        ExplainedIs(to);
      }
      m.Take(input);
      if m.level > 0 {
        IsExplained(to, m.data, h0, e0, to);
      }
    }

    lemma DoneIs(flush: Flush, r: BlockState)
      requires Done(flush, r)
      ensures if r == FinishStarted || r == FinishDone then flush == Finish && Closed() else Ready()
    {
      hide Covers, Explained, Accounted, Sent, SendsAll, Coder.Valid, Coder.Shaped, Matcher.Shaped, Matcher.Valid, BitWriter.Sent, BitWriter.Valid;
      m.IsReading();
      coder.WriterValid();
      CollectedIsAccounted(Position());
    }

    lemma DoneStoredIs(flush: Flush, r: BlockState)
      requires DoneStored(flush, r)
      ensures if r == FinishStarted || r == FinishDone then flush == Finish && Closed() else Ready()
    {
      hide Sent, SendsAll, Coder.Valid, Coder.Shaped, Matcher.Shaped, Matcher.Plain, BitWriter.Sent, BitWriter.Valid;
      coder.WriterValid();
      if r == FinishStarted || r == FinishDone {
        m.PlainParts();
      }
    }

    /** The level's compression function. */
    method Compress(flush: Flush) returns (r: BlockState, full: bool)
      requires Handing() && out.availOut > 0
      requires Ready()
      modifies this`tallied, this`reasons, m, m.window, m.prev, m.head, Frame()
      ensures Undisturbed()
      ensures Handing() && HandedOver() && (full <==> out.availOut == 0)
      ensures m.input == old(m.input) && old(m.next) <= m.next <= |m.input|
      ensures m.data == old(m.data) + m.input[old(m.next)..m.next]
      ensures if r == FinishStarted || r == FinishDone then flush == Finish && Closed() else Ready()
      ensures (r == NeedMore || r == FinishStarted ==> full || flush == NoFlush) && (r != NeedMore || !full ==> m.next == |m.input|)
      ensures r == BlockDone || r == FinishDone ==> !full
      ensures r == BlockDone ==> flush != Finish && flush != NoFlush && From() == |m.data|
    {
      hide Extends, Handing, Valid, ValidStored, Done, DoneStored, Closed;
      if m.level == 0 {
        r, full := DeflateStored(flush);
        DoneStoredIs(flush, r);
        NotFinish(flush, r);
      } else if m.level <= 3 {
        r, full := DeflateFast(flush);
        DoneIs(flush, r);
        NotFinish(flush, r);
      } else {
        r, full := DeflateSlow(flush);
        DoneIs(flush, r);
        NotFinish(flush, r);
      }
    }

    lemma NotFinish(flush: Flush, r: BlockState)
      requires Done(flush, r) || DoneStored(flush, r)
      ensures r == BlockDone ==> flush != Finish && flush != NoFlush && From() == |m.data|
    {
      hide Collected, Sent, SendsAll, ValidStored, Coder.Valid, Coder.Shaped, Matcher.Shaped, Matcher.Valid, Matcher.Plain, BitWriter.Sent;
    }

    lemma BeginsEmpty()
      requires Ready() && coder.w.Sent() == []
      ensures coder.w.Valid() && coder.w.biValid == 0
    {
      hide Covers, Sends, Coder.Valid, Coder.Shaped, Matcher.Valid, Matcher.Plain, Matcher.Shaped, BitWriter.Valid;
      coder.WriterValid();
    }

    /** What is sent before the first block. */
    method PutLead(bytes: seq<nat>)
      requires Ready() && From() == 0 && coder.w.Sent() == [] && coder.w.biValid == 0 && coder.w.Valid()
      requires forall i | 0 <= i < |bytes| :: bytes[i] < 256
      modifies this`lead, coder.w
      ensures coder.w.pending == old(coder.w.pending) + bytes
      ensures Ready() && coder.w.Sent() == lead == Streams.BitsOf(bytes)
    {
      hide Covers, Explained, Sends, Coder.Shaped, Coder.Valid, Matcher.Valid, Matcher.Plain, Matcher.Shaped, BitWriter.Valid,
           BitWriter.Sent, Streams.BitsOf, Roomy;
      ghost var ts := coder.tokens;
      coder.PutBytesFirst(bytes);
      lead := Streams.BitsOf(bytes);
      assert [] + lead == lead;
      SendsNothing(lead);
      assert m.data[..0] == [];
    }
  }

  /** The bits are all in the whole bytes. */
  ghost predicate Within(sent: seq<bool>, bytes: seq<nat>) {
    sent <= Streams.BitsOf(bytes)
  }

  /** Fewer than eight bits are not in whole bytes yet, and they belong to what was sent last. */
  lemma AllButAFew(sent: seq<bool>, pending: seq<nat>, biBuf: nat, biValid: nat, b: seq<bool>)
    requires sent + b == Streams.BitsOf(pending) + LsbBits(biBuf, biValid) && biValid < 8 <= |b|
    ensures Within(sent, pending)
  {
    hide Streams.BitsOf, LsbBits;
    assert Streams.BitsOf(pending) == (sent + b)[..|Streams.BitsOf(pending)|];
  }

  lemma DataMore(data: seq<byte>, input: seq<byte>, i: nat, j: nat, k: nat)
    requires i <= j <= k <= |input|
    ensures data + input[i..j] + input[j..k] == data + input[i..k]
  {
    assert input[i..k] == input[i..j] + input[j..k];
  }

  lemma MatchDist(data: seq<byte>, to: nat, start: int, n: nat, p: Params)
    requires MatchAt(data, to, start, n, p.MaxDist()) && p.MaxDist() <= 32768
    ensures 1 <= to - start <= 32768
  {
  }

  /** The search limits of the nine levels: the match length from which on fewer strings are looked at, the one from which on no better
      match is looked for (levels 1 to 3: up to which the strings of a match are inserted), the one that ends a search, and the number
      of strings that are looked at. */
  lemma ConfigurationInNumbers(level: nat)
    requires 1 <= level <= 9
    ensures [Configuration(level).good, Configuration(level).lazy, Configuration(level).nice, Configuration(level).chain] ==
      [[4, 4, 8, 4], [4, 5, 16, 8], [4, 6, 32, 32],
       [4, 4, 16, 16], [8, 16, 32, 32], [8, 16, 128, 128], [8, 32, 128, 256], [32, 128, 258, 1024], [32, 258, 258, 4096]][level - 1]
  {
  }

  /** Among the levels without lazy evaluation and among those with it, a higher one searches no less. */
  lemma EffortRises(a: nat, b: nat)
    requires 1 <= a <= b <= 3 || 4 <= a <= b <= 9
    ensures var c, d := Configuration(a), Configuration(b);
      c.good <= d.good && c.lazy <= d.lazy && c.nice <= d.nice && c.chain <= d.chain
  {
  }

  lemma ConfigurationIsGood(level: nat)
    ensures level > 0 ==> Configuration(level).Good()
  {
  }

  lemma CoderIsShaped(c: Coder)
    requires c.Valid()
    ensures c.Shaped() && c.lastLit == |c.tokens| && c.dBuf.Length > 1
  {
    hide Coder.Shaped, BitWriter.Valid;
    ShapedIs(c);
  }

  lemma ShapedIs(c: Coder)
    requires c.Shaped()
    ensures c.dBuf.Length > 1
  {
  }

  lemma SendsNothing(lead: seq<bool>)
    ensures Sends(lead, lead, [])
  {
    hide Delivers;
    DeliversNothing(|lead|, []);
    assert lead[|lead|..] == [];
  }

  /** LZ77 preserves the data: whatever the input, its pieces, the level and the strategy, the tokens tallied so far expand to the
      data read, but for what is still ahead and at most one byte that waits, and no distance exceeds the window. */
  lemma TokensExpandToData(s: State)
    requires s.Valid()
    ensures |s.m.data| - s.m.lookahead - 1 <= s.Position() <= |s.m.data| - s.m.lookahead && 0 <= s.Position()
    ensures AllReach([], s.tallied) && ExpandAll([], s.tallied) == s.m.data[..s.Position()]
    ensures forall i | 0 <= i < |s.tallied| :: s.tallied[i].Match? ==> s.tallied[i].dist <= s.m.p.wSize - 262
  {
    hide AllReach, ExpandAll, Matcher.Valid, Coder.Valid, Sends, BitWriter.Sent;
    assert s.m.data[..0] == [];
    s.m.InputIs();
  }
}

