/** deflate() of src/ext/zlib/deflate.c, with or without the zlib wrapper, called with any input and any flush parameter at a
    time and any room for output, and the round trip: what it sends, inflate turns back into what it was given. */
module Deflate {
  import opened Bits
  import opened Canonical
  import opened Streams
  import opened Inflation
  import opened Blocks
  import opened Delivery
  import opened SendBits
  import opened BlockCoder
  import opened Hashing
  import opened Matching
  import opened Sliding
  import opened Advancing
  import opened Searching
  import opened Covering
  import opened Deflater
  import opened ZlibFormat
  import opened Wrapper
  import opened StaticTables
  import opened Tally
  import Adler32

  datatype Phase = Init | Busy | Over

  datatype Code = Ok | StreamEnd | StreamError | BufError

  class Stream {
    const s: Deflater.State
    const wBits: nat
    const wrap: bool
    var phase: Phase
    /** The trailer has been written: wrap has been negated. */
    var trailed: bool
    /** The flush parameter of the last call, by rank; -1 if it ran out of output space. */
    var lastFlush: int

    function LevelFlags(): nat {
      if s.m.strategy == HuffmanOnly || s.m.strategy == Rle || s.m.strategy == Strategy.Fixed || s.m.level < 2 then 0
      else if s.m.level < 6 then 1 else if s.m.level == 6 then 2 else 3
    }

    ghost function Lead(): seq<bool>
      requires 8 <= wBits
    {
      if wrap then BitsOf(Msb(Header(wBits, LevelFlags()))) else []
    }

    /** The bytes sent begin with the header. */
    ghost predicate Headed(p: seq<nat>)
      requires 8 <= wBits
    {
      wrap ==> Msb(Header(wBits, LevelFlags())) <= p
    }

    /** The stream is complete. */
    ghost predicate Complete()
      reads this`phase, this`trailed, s, s.m, s.coder, s.coder.w
    {
      && phase == Over && (wrap ==> trailed)
      && Decodes(wrap, BitsOf(s.coder.w.pending), s.m.data) && s.coder.w.Sent() == BitsOf(s.coder.w.pending)
      && (wrap ==> EndsInSums(s.coder.w.pending, s.m.data))
    }

    ghost predicate Valid()
      reads this`phase, this`trailed, s, s.out, s.m, s.m.window, s.m.prev, s.m.head, s.coder, s.coder.w, s.coder.builder, s.coder.lfc,
            s.coder.dfc, s.coder.bfc, s.coder.dBuf, s.coder.lBuf
    {
      && 9 <= wBits <= 15 && s.m.p.wSize == Pow2(wBits) && wrap == s.m.wrap && s.out.handed <= |s.coder.w.pending|
      && (phase != Init ==> Headed(s.coder.w.pending))
      && (phase != Over ==> s.Ready() && !trailed)
      && (phase == Init ==> wrap && s.coder.w.Sent() == [] && s.lead == [] && s.m.data == []
                            && s.m.blockStart == 0 && s.m.base == 0 && s.m.strstart == 0)
      && (phase == Busy ==> s.lead == Lead())
      && (phase == Over ==>
            if trailed then s.Shaped() && wrap && Complete() && s.m.lookahead == 0 && s.Accounted() else s.Closed() && s.lead == Lead())
    }

    /** deflateInit2 */
    constructor (level: nat, windowBits: nat, memLevel: nat, strategy: Strategy, wrap: bool)
      requires level <= 9 && 8 <= windowBits <= 15 && 1 <= memLevel <= 9
      ensures Valid() && phase != Over && this.wrap == wrap && s.m.data == [] && s.m.level == level
        && s.m.strategy == strategy && s.m.p.wSize == Pow2(if windowBits == 8 then 9 else windowBits)
      ensures s.m.p.hashBits == memLevel + 7 && s.coder.dBuf.Length == Pow2(memLevel + 6) && s.m.limits == Configuration(level)
      ensures fresh(s) && fresh(s.m) && fresh(s.m.window) && fresh(s.m.prev) && fresh(s.m.head) && fresh(s.Frame())
    {
      hide State.Shaped, State.Collected, State.Sent, Matcher.Valid, Matcher.Plain, Coder.Valid, Coder.Shaped, BitWriter.Sent,
           Params.Good, Pow2, BitsOf, Sends;
      wBits := if windowBits == 8 then 9 else windowBits;
      this.wrap := wrap;
      var s0 := new Deflater.State(level, windowBits, memLevel, strategy, wrap);
      s := s0;
      phase, trailed, lastFlush := if wrap then Init else Busy, false, 0;
      new;
      s.BeginsReady();
    }

    // -------------------------------------------------------------- header and trailer

    lemma HeaderBytes()
      requires 9 <= wBits <= 15
      ensures var b := Msb(Header(wBits, LevelFlags()));
        && (forall i | 0 <= i < |b| :: b[i] < 256) && |BitsOf(b)| == 16 && GoodHeader(Field(BitsOf(b), 16))
        && Shr(Field(BitsOf(b), 16), 13) % 2 == 0
    {
      hide GoodHeader, Shr, BitsOf, ValueOf, Header, Pow2;
      var f := LevelFlags();
      var k, c := HeaderParts(wBits, f);
      HeaderIsGood(wBits, f);
      var b := Msb(Header(wBits, f));
      assert b + [] == b;
      ValueOfBytes(b[0], b[1], []);
      ValueOfNothing();
      assert BitsOf(b)[..16] == BitsOf(b);
    }

    /** The zlib header. */
    method WriteHeader()
      requires Valid() && phase == Init
      modifies this`phase, s`lead, s.coder.w
      ensures Valid() && phase == Busy && old(s.coder.w.pending) < s.coder.w.pending
      ensures |s.coder.w.pending| == old(|s.coder.w.pending|) + 2
    {
      hide Lead, State.Shaped, State.Explained, State.Accounted, Matcher.Valid, Matcher.Plain, Coder.Valid, Covers, BitsOf, BitWriter.Valid,
           GoodHeader, Header, Shr, Field, Complete, Sends;
      HeaderBytes();
      s.BeginsEmpty();
      var header := Header(wBits, LevelFlags());
      s.PutLead([header / 256, header % 256]);
      phase := Busy;
      LeadIs();
    }

    lemma LeadIs()
      requires 9 <= wBits
      ensures Lead() == if wrap then BitsOf(Msb(Header(wBits, LevelFlags()))) else []
    {
      hide BitsOf, Header;
    }

    /** The bytes of the trailer: the check value, most significant byte first. */
    function Trailer(adler: nat): seq<nat> {
      Msb(adler / 65536) + Msb(adler % 65536)
    }

    lemma TrailerBytes(adler: Adler32.word)
      ensures var b := Trailer(adler);
        (forall i | 0 <= i < |b| :: b[i] < 256) && |BitsOf(b)| == 32 && Swap(Field(BitsOf(b), 32)) == adler
    {
      hide BitsOf, ValueOf, Swap;
      TrailerIsSwapped(adler);
      assert BitsOf(Trailer(adler))[..32] == BitsOf(Trailer(adler));
    }

    lemma TrailerEnds(p: seq<nat>, adler: Adler32.word, h: seq<byte>)
      requires adler == Check(h)
      ensures EndsInSums(p + Trailer(adler), h)
    {
      hide Check, EndsInSums;
      TrailerSums(p, h);
    }

    lemma PaddingShort(n: nat)
      ensures Padding(n) < 8 && (n + Padding(n)) % 8 == 0
    {
    }

    /** A closed stream, with the trailer if there is to be one, is complete. */
    lemma ClosedDecodes(adler: Adler32.word)
      requires 9 <= wBits <= 15 && s.lead == Lead() && SendsAll(s.coder.w.Sent(), s.lead, s.m.data)
        && (wrap ==> adler == Check(s.m.data))
      ensures Decodes(wrap, s.coder.w.Sent() + if wrap then BitsOf(Trailer(adler)) else [], s.m.data)
    {
      hide Delivers, Check, BitsOf, Trailer, Header, Swap, Field, GoodHeader, Shr, Padding, Zeros, BitWriter.Sent, Inflation.Run;
      var sent, h := s.coder.w.Sent(), s.m.data;
      var body: seq<bool> :| SendsBody(sent, s.lead, h, body);
      HeaderBytes();
      TrailerBytes(adler);
      PaddingShort(|s.lead| + |body|);
      var tail := if wrap then BitsOf(Trailer(adler)) else [];
      StreamDecodes(wrap, s.lead, body, Zeros(Padding(|s.lead| + |body|)), tail, h);
    }

    /** Without the wrapper a closed stream is complete. */
    lemma RawComplete()
      requires Valid() && phase == Over && !wrap
      ensures Complete()
    {
      hide Delivers, BitsOf, SendsAll, Decodes;
      ClosedDecodes(0);
      NoBitsLeft();
      var sent := s.coder.w.Sent();
      assert sent + [] == sent;
    }

    lemma NoBitsLeft()
      requires s.coder.w.biValid == 0
      ensures s.coder.w.Sent() == BitsOf(s.coder.w.pending)
    {
      var b := BitsOf(s.coder.w.pending);
      assert LsbBits(s.coder.w.biBuf, 0) == [];
      assert b + [] == b;
    }

    /** The trailer. */
    method WriteTrailer()
      requires Valid() && phase == Over && wrap && !trailed
      modifies this`trailed, s.coder.w
      ensures Valid() && Complete() && trailed && phase == Over && old(s.coder.w.pending) <= s.coder.w.pending
    {
      hide State.Shaped, Delivers, BitsOf, SendsAll, Decodes, Check, Trailer, BitWriter.Sent, Lead, EndsInSums, Header;
      TrailerBytes(s.m.adler);
      TrailerEnds(s.coder.w.pending, s.m.adler, s.m.data);
      ClosedDecodes(s.m.adler);
      s.coder.PutBytes(Trailer(s.m.adler));
      NoBitsLeft();
      trailed := true;
    }

    // -------------------------------------------------------------- deflate

    /** The part of a call that compresses. */
    method CompressMore(input: seq<byte>, flush: Flush) returns (r: BlockState, used: nat, full: bool)
      requires Valid() && phase == Busy && s.Handing() && s.out.availOut > 0
      modifies this`phase, s`tallied, s`reasons, s.m, s.m.window, s.m.prev, s.m.head, s.Frame()
      ensures Valid() && phase == (if r == FinishStarted || r == FinishDone then Over else Busy)
      ensures s.Handing() && s.HandedOver() && (full <==> s.out.availOut == 0)
      ensures r == BlockDone || r == FinishDone ==> !full
      ensures used <= |input| && s.m.data == old(s.m.data) + input[..used] && (r != NeedMore || !full ==> used == |input|)
      ensures (phase == Over ==> flush == Finish) && (r == BlockDone ==> flush != Finish && flush != NoFlush)
      ensures (r == NeedMore || r == FinishStarted ==> full || flush == NoFlush) && (r == BlockDone ==> s.From() == |s.m.data|)
      ensures s.m.ends == old(s.m.ends) + {old(|s.m.data|) + |input|} && s.m.forgets == old(s.m.forgets)
    {
      hide State.Ready, State.Closed, State.Accounted, Complete, Headed, Lead, BitWriter.Sent;
      ghost var p0 := s.coder.w.pending;
      s.TakeInput(input);
      r, full := s.Compress(flush);
      ExtendsIs(p0, s.coder.w.pending);
      HeadedMore(p0, s.coder.w.pending);
      used := s.m.next;
      if r == FinishStarted || r == FinishDone {
        phase := Over;
      }
    }

    lemma OverIs()
      requires Valid()
      ensures phase == Over ==> s.m.lookahead == 0
    {
      hide State.Ready, Lead, BitWriter.Sent, Decodes;
    }

    lemma IsComplete()
      requires Valid() && phase == Over && (!wrap || trailed)
      ensures Complete()
    {
      hide State.Ready, State.Closed, Lead, BitWriter.Sent, Decodes;
      if !wrap {
        RawComplete();
      }
    }

    /** Everything that has been read can be decoded from the bytes sent so far. */
    ghost predicate UpToDate()
      reads s, s.m, s.coder, s.coder.w
    {
      DecodesSoFar(wrap, BitsOf(s.coder.w.pending), s.m.data) && s.coder.w.Sent() == BitsOf(s.coder.w.pending)
    }

    /** A decoder that is given the bytes sent so far has put out everything that has been read. */
    ghost predicate AllOut()
      reads s, s.m, s.coder, s.coder.w
    {
      Delivered(wrap, BitsOf(s.coder.w.pending), s.m.data)
    }

    /** The history has just been forgotten. */
    ghost predicate Forgotten()
      reads s, s.m
    {
      s.m.mark == |s.m.data| && s.marked == |s.tallied|
    }

    lemma UpToDateIsAllOut()
      requires UpToDate()
      ensures AllOut()
    {
      hide Inflation.Run, BitsOf, BitWriter.Sent, Proper;
    }

    lemma WholeBytes(bytes: seq<nat>)
      ensures |BitsOf(bytes)| % 8 == 0
    {
    }

    /** Between blocks, at a byte boundary, with all that has been read sent. */
    lemma IsUpToDate()
      requires 9 <= wBits <= 15 && s.lead == Lead() && Sends(s.coder.w.Sent(), s.lead, s.m.data) && s.coder.w.biValid == 0
      ensures UpToDate()
    {
      hide Delivers, BitsOf, Header, Field, GoodHeader, Shr, BitWriter.Sent, Inflation.Run;
      HeaderBytes();
      NoBitsLeft();
      var sent := s.coder.w.Sent();
      WholeBytes(s.coder.w.pending);
      assert sent == s.lead + sent[|s.lead|..];
      PartDecodes(wrap, s.lead, sent[|s.lead|..], s.m.data);
    }

    /** After a partial flush not all bits are in whole bytes, but those of all blocks with data are. */
    lemma IsAllOut(sent: seq<bool>)
      requires 9 <= wBits <= 15 && s.lead == Lead() && Sends(sent, s.lead, s.m.data) && Within(sent, s.coder.w.pending)
      requires Sends(s.coder.w.Sent(), s.lead, s.m.data)
      ensures AllOut()
    {
      hide Delivers, BitsOf, Header, Field, GoodHeader, Shr, Inflation.Run;
      HeaderBytes();
      WholeBytes(s.coder.w.pending);
      var after := s.coder.w.Sent();
      assert sent == s.lead + sent[|s.lead|..] && after == s.lead + after[|s.lead|..];
      MarkedDecodes(wrap, s.lead, sent[|s.lead|..], after[|s.lead|..], BitsOf(s.coder.w.pending), s.m.data);
    }

    lemma AllSent()
      requires s.Ready() && s.From() == |s.m.data|
      ensures Sends(s.coder.w.Sent(), s.lead, s.m.data)
    {
      hide Sends, State.Shaped, State.Collected, Matcher.Valid, Matcher.Plain, Coder.Valid, BitWriter.Sent;
      assert s.m.data[..|s.m.data|] == s.m.data;
    }

    /** The mark that ends a flush. */
    method SendMark(flush: Flush)
      requires Valid() && phase == Busy && s.From() == |s.m.data|
      modifies s`marked, s.coder.w, s.m`ins, s.m`mark, s.m`forgets, s.m.head
      ensures s.m.forgets == old(s.m.forgets) + if flush == FullFlush then {|s.m.data|} else {}
      ensures Valid() && phase == Busy && (flush == FullFlush ==> Forgotten())
      ensures old(s.coder.w.pending) <= s.coder.w.pending && s.From() == |s.m.data|
      ensures if flush == PartialFlush then Within(old(s.coder.w.Sent()), s.coder.w.pending) else s.coder.w.biValid == 0
    {
      hide Valid, Headed, State.Ready, State.Valid, State.ValidStored, Lead, BitWriter.Sent, Within;
      ghost var p0 := s.coder.w.pending;
      BusyIs();
      s.ReadyIs();
      s.Mark(flush);
      s.IsReady();
      HeadedMore(p0, s.coder.w.pending);
      IsBusy();
    }

    lemma BusyIs()
      requires Valid() && phase == Busy
      ensures 9 <= wBits <= 15 && s.m.p.wSize == Pow2(wBits) && wrap == s.m.wrap && s.out.handed <= |s.coder.w.pending|
      ensures Headed(s.coder.w.pending) && s.Ready() && !trailed && s.lead == Lead()
    {
      hide Headed, State.Ready, State.Closed, Lead, BitWriter.Sent, Complete;
    }

    lemma IsBusy()
      requires phase == Busy && 9 <= wBits <= 15 && s.m.p.wSize == Pow2(wBits) && wrap == s.m.wrap
      requires s.out.handed <= |s.coder.w.pending| && Headed(s.coder.w.pending) && s.Ready() && !trailed && s.lead == Lead()
      ensures Valid()
    {
      hide Headed, State.Ready, State.Closed, Lead, BitWriter.Sent, Complete;
    }

    lemma HeadedMore(p: seq<nat>, q: seq<nat>)
      requires 8 <= wBits && Headed(p) && p <= q
      ensures Headed(q)
    {
      hide Header, LevelFlags;
    }

    lemma BusySent()
      requires Valid() && phase == Busy && s.From() == |s.m.data|
      ensures 9 <= wBits <= 15 && s.lead == Lead() && Sends(s.coder.w.Sent(), s.lead, s.m.data)
    {
      hide State.Ready, State.Closed, Lead, BitWriter.Sent, Decodes, Sends;
      AllSent();
    }

    /** The end of a flush that does not finish the stream. Everything can be decoded; after a sync or a full flush also from a byte
        boundary on. */
    method Mark(flush: Flush)
      requires Valid() && phase == Busy && s.From() == |s.m.data|
      modifies s`marked, s.coder.w, s.m`ins, s.m`mark, s.m`forgets, s.m.head
      ensures s.m.forgets == old(s.m.forgets) + if flush == FullFlush then {|s.m.data|} else {}
      ensures Valid() && phase == Busy && AllOut() && (flush != PartialFlush ==> UpToDate()) && (flush == FullFlush ==> Forgotten())
      ensures old(s.coder.w.pending) <= s.coder.w.pending
    {
      hide Valid, State.Ready, State.Closed, Lead, BitWriter.Sent, UpToDate, AllOut, Forgotten, Sends, Within;
      BusySent();
      ghost var sent := s.coder.w.Sent();
      SendMark(flush);
      BusySent();
      if flush == PartialFlush {
        IsAllOut(sent);
      } else {
        IsUpToDate();
        UpToDateIsAllOut();
      }
    }

    /** What a flush has done when there was room for it. */
    ghost predicate Flushed(flush: Flush)
      reads s, s.m, s.coder, s.coder.w
    {
      && (flush == PartialFlush || flush == SyncFlush || flush == FullFlush ==> AllOut())
      && (flush == SyncFlush || flush == FullFlush ==> UpToDate()) && (flush == FullFlush ==> Forgotten())
    }

    /** The order of the flush parameters. */
    function Rank(flush: Flush): int {
      match flush
      case NoFlush => 0
      case PartialFlush => 1
      case SyncFlush => 2
      case FullFlush => 3
      case Finish => 4
    }

    lemma RanksRise()
      ensures 0 == Rank(NoFlush) < Rank(PartialFlush) < Rank(SyncFlush) < Rank(FullFlush) < Rank(Finish)
    {
    }

    /** What the caller has got so far. */
    ghost function Received(): seq<nat>
      requires s.out.handed <= |s.coder.w.pending|
      reads s.out, s.coder.w
    {
      s.coder.w.pending[..s.out.handed]
    }

    /** flush_pending, between the parts of a call. */
    method FlushPending()
      requires Valid()
      modifies s.out
      ensures Valid() && s.Handing() && s.HandedOver() && s.coder.w.pending == old(s.coder.w.pending) && phase == old(phase)
    {
      hide State.Ready, State.Closed, Lead, BitWriter.Sent, Decodes, Extends;
      s.FlushPending();
    }

    /** avail_out of a call. */
    method SetSpace(availOut: nat)
      requires Valid()
      modifies s.out
      ensures Valid() && s.out.availOut == availOut && s.out.handed == old(s.out.handed)
    {
      hide State.Ready, State.Closed, Lead, BitWriter.Sent, Decodes;
      s.out.availOut := availOut;
    }

    lemma HandedBound()
      requires Valid()
      ensures s.out.handed <= |s.coder.w.pending|
    {
      hide State.Ready, State.Closed, Lead, BitWriter.Sent, Decodes;
    }

    lemma HandingIs()
      ensures s.Handing() <==> s.out.handed <= |s.coder.w.pending| && (s.out.availOut == 0 || s.out.handed == |s.coder.w.pending|)
    {
    }

    /** The last part of a call with Z_FINISH: the trailer, if it has not been written. */
    method Close() returns (code: Code)
      requires Valid() && phase == Over && s.Handing() && s.out.availOut > 0
      modifies this`trailed, s.coder.w, s.out
      ensures Valid() && s.Handing() && s.HandedOver() && phase == Over && (code == Ok || code == StreamEnd)
      ensures code == Ok ==> s.out.availOut == 0
      ensures code == StreamEnd ==> Complete() && s.out.handed == |s.coder.w.pending|
    {
      hide Valid, State.Ready, State.Closed, Lead, Decodes, BitWriter.Sent, Extends, State.Handing, Complete;
      ghost var p0 := s.coder.w.pending;
      ExtendsSelf(p0);
      HandingIs();
      if !wrap || trailed {
        IsComplete();
        return StreamEnd;
      }
      WriteTrailer();
      MakeExtends(p0, s.coder.w.pending);
      FlushPending();
      HandingIs();
      code := if s.out.handed != |s.coder.w.pending| then Ok else StreamEnd;
    }

    /** The mark, handed over as far as there is space. */
    method EndFlush(flush: Flush)
      requires Valid() && phase == Busy && s.From() == |s.m.data|
      modifies s`marked, s.coder.w, s.m`ins, s.m`mark, s.m`forgets, s.m.head, s.out
      ensures s.m.forgets == old(s.m.forgets) + if flush == FullFlush then {|s.m.data|} else {}
      ensures Valid() && phase == Busy && s.Handing() && s.HandedOver() && Flushed(flush)
    {
      hide Valid, BitWriter.Sent, UpToDate, AllOut, Forgotten, Extends, State.Handing;
      ghost var p0 := s.coder.w.pending;
      Mark(flush);
      MakeExtends(p0, s.coder.w.pending);
      FlushPending();
    }

    /** The part of a call up to where the stream may be finished: what there is to compress, and the mark of a flush. `done`: the call
        returns, for want of output space or with nothing more to do. */
    method CompressAll(input: seq<byte>, flush: Flush) returns (done: bool, used: nat)
      requires Valid() && phase != Init && s.Handing() && s.out.availOut > 0 && (phase == Over ==> flush == Finish && |input| == 0)
      modifies this`phase, this`lastFlush, s`tallied, s`reasons, s`marked, s.m, s.m.window, s.m.prev, s.m.head, s.Frame()
      ensures Valid() && used <= |input| && s.m.data == old(s.m.data) + input[..used] && s.Handing() && s.HandedOver()
      ensures done ==> if s.out.availOut == 0 then lastFlush == -1 else used == |input| && flush == NoFlush && lastFlush == old(lastFlush)
      ensures !done ==> s.out.availOut > 0 && used == |input| && lastFlush == old(lastFlush) && Flushed(flush)
      ensures !done && flush == Finish ==> phase == Over
      ensures s.m.ends <= old(s.m.ends) + {old(|s.m.data|) + |input|}
      ensures s.m.forgets <= old(s.m.forgets) + if flush == FullFlush then {|s.m.data|} else {}
    {
      hide Valid, State.Ready, State.Closed, Lead, Decodes, BitWriter.Sent, UpToDate, AllOut, Forgotten, Extends, State.Handing, Complete;
      done, used := false, 0;
      ghost var p0 := s.coder.w.pending;
      assert s.m.data + input[..0] == s.m.data;
      ExtendsSelf(p0);
      HandingIs();
      if |input| != 0 || s.m.lookahead != 0 || (flush != NoFlush && phase != Over) {
        OverIs();
        var r, full;
        r, used, full := CompressMore(input, flush);
        if r == NeedMore || r == FinishStarted {
          if full {
            lastFlush := -1;
          }
          return true, used;
        }
        if r == BlockDone {
          ghost var p1 := s.coder.w.pending;
          EndFlush(flush);
          ExtendsMore(p0, p1, s.coder.w.pending);
          if s.out.availOut == 0 {
            lastFlush := -1;
            return true, used;
          }
        }
      }
    }

    /** A call from where there is something to do and room for output. */
    method Work(input: seq<byte>, flush: Flush) returns (code: Code, used: nat)
      requires Valid() && phase != Init && s.Handing() && s.out.availOut > 0 && (phase == Over ==> flush == Finish && |input| == 0)
      modifies this, s`tallied, s`reasons, s`marked, s`lead, s.m, s.m.window, s.m.prev, s.m.head, s.Frame()
      ensures Valid() && used <= |input| && s.m.data == old(s.m.data) + input[..used]
      ensures s.Handing() && s.HandedOver() && (code == Ok || code == StreamEnd)
      ensures code == Ok ==> s.out.availOut == 0 || (used == |input| && flush != Finish)
      ensures code == Ok ==> if s.out.availOut > 0 then lastFlush == old(lastFlush) else flush == Finish || lastFlush == -1
      ensures code == Ok && s.out.availOut > 0 ==> Flushed(flush)
      ensures code == StreamEnd ==> Complete() && used == |input| && flush == Finish && s.out.handed == |s.coder.w.pending|
      ensures s.m.ends <= old(s.m.ends) + {old(|s.m.data|) + |input|}
      ensures s.m.forgets <= old(s.m.forgets) + if flush == FullFlush then {|s.m.data|} else {}
    {
      hide Valid, State.Ready, State.Closed, Lead, Decodes, BitWriter.Sent, UpToDate, AllOut, Forgotten, Extends, State.Handing, Complete;
      ghost var p0 := s.coder.w.pending;
      var done;
      done, used := CompressAll(input, flush);
      if done || flush != Finish {
        return Ok, used;
      }
      ghost var p1 := s.coder.w.pending;
      code := Close();
      ExtendsMore(p0, p1, s.coder.w.pending);
    }

    lemma MakeExtends(a: seq<nat>, b: seq<nat>)
      requires a <= b
      ensures Extends(a, b)
    {
    }

    /** There is nothing to be done, or no room for it: no output space; no input, nothing pending and no stronger flush than in the last
        call; or input after the end. */
    predicate Idle(over: bool, left: int, lastFlush: int, input: seq<byte>, flush: Flush, availOut: nat) {
      || availOut == 0 || (left == 0 && |input| == 0 && Rank(flush) <= lastFlush && flush != Finish)
      || (over && |input| != 0 && left < availOut)
    }

    /** The bytes sent but not handed over, with the header if it comes first. */
    ghost function Waiting(): int
      reads this`phase, s.out, s.coder.w
    {
      |s.coder.w.pending| - s.out.handed + if phase == Init then 2 else 0
    }

    /** The first part of a call: the arguments are checked, and what is still pending is handed over. */
    method Begin(input: seq<byte>, flush: Flush, availOut: nat) returns (go: bool, code: Code)
      requires Valid()
      modifies this, s`lead, s.coder.w, s.out
      ensures Valid() && old(s.coder.w.pending) <= s.coder.w.pending && old(s.out.handed) <= s.out.handed
      ensures s.out.handed + s.out.availOut == old(s.out.handed) + availOut
      ensures go ==> phase != Init && s.Handing() && s.out.availOut > 0
      ensures go ==> (phase == Over ==> flush == Finish && |input| == 0) && (old(phase) == Over ==> phase == Over)
      ensures !go ==> code != StreamEnd && (code == Ok ==> s.out.availOut == 0)
      ensures !go && code != Ok ==> phase == old(phase)
      ensures (!go && code == StreamError) <==> old(phase) == Over && flush != Finish
      ensures (!go && code == BufError) <==>
        (old(phase) != Over || flush == Finish) && Idle(old(phase) == Over, old(Waiting()), old(lastFlush), input, flush, availOut)
      ensures go ==> lastFlush == Rank(flush)
      ensures !go && code == Ok ==> lastFlush == -1
    {
      hide Valid, State.Ready, State.Closed, Lead, Decodes, BitWriter.Sent, UpToDate, Extends, State.Handing;
      go, code := false, BufError;
      SetSpace(availOut);
      if phase == Over && flush != Finish {
        code := StreamError;
        return;
      }
      if availOut == 0 {
        return;
      }
      var oldFlush := lastFlush;
      lastFlush := Rank(flush);
      HandedBound();
      if phase == Init {
        WriteHeader();
      }
      if |s.coder.w.pending| != s.out.handed {
        ghost var p1 := s.coder.w.pending;
        FlushPending();
        HandingIs();
        if s.out.availOut == 0 {
          lastFlush := -1;
          code := Ok;
          return;
        }
      } else if |input| == 0 && Rank(flush) <= oldFlush && flush != Finish {
        return;
      }
      HandingIs();
      go := phase != Over || |input| == 0;
    }

    /** deflate, with room for so many bytes of output. A call that goes well either fills that room or takes all of the input and
        hands over all that is sent. */
    method Deflate(input: seq<byte>, flush: Flush, availOut: nat) returns (code: Code, used: nat)
      requires Valid()
      modifies this, s`tallied, s`reasons, s`marked, s`lead, s.m, s.m.window, s.m.prev, s.m.head, s.Frame()
      ensures Valid() && used <= |input| && s.m.data == old(s.m.data) + input[..used]
      ensures old(s.coder.w.pending) <= s.coder.w.pending && old(s.out.handed) <= s.out.handed
      ensures s.out.handed + s.out.availOut == old(s.out.handed) + availOut && s.out.handed <= |s.coder.w.pending|
      ensures code == Ok ==> s.out.availOut == 0 || (used == |input| && flush != Finish && s.out.handed == |s.coder.w.pending|)
      ensures code == Ok && s.out.availOut > 0 ==> Flushed(flush)
      ensures code == StreamEnd ==> Complete() && used == |input| && flush == Finish && s.out.handed == |s.coder.w.pending|
      ensures code == StreamError <==> old(phase) == Over && flush != Finish
      ensures code == BufError <==>
        (old(phase) != Over || flush == Finish) && Idle(old(phase) == Over, old(Waiting()), old(lastFlush), input, flush, availOut)
      ensures code == Ok ==> if s.out.availOut > 0 then lastFlush == Rank(flush) else flush == Finish || lastFlush == -1
      ensures code == BufError || code == StreamError ==> used == 0 && phase == old(phase)
      ensures s.m.ends <= old(s.m.ends) + {old(|s.m.data|) + |input|}
      ensures s.m.forgets <= old(s.m.forgets) + if flush == FullFlush then {|s.m.data|} else {}
    {
      hide Valid, State.Ready, State.Closed, Lead, Decodes, BitWriter.Sent, Flushed, Extends, State.Handing, Complete;
      assert s.m.data + input[..0] == s.m.data;
      var go;
      go, code := Begin(input, flush, availOut);
      used := 0;
      if go {
        ghost var p0, p1 := old(s.coder.w.pending), s.coder.w.pending;
        code, used := Work(input, flush);
        HandingIs();
        ExtendsIs(p1, s.coder.w.pending);
        PrefixOfPrefix(p0, p1, s.coder.w.pending);
      }
      HandedBound();
    }

    lemma PrefixOfPrefix(a: seq<nat>, b: seq<nat>, c: seq<nat>)
      requires a <= b <= c
      ensures a <= c
    {
    }

    lemma ExtendsIs(a: seq<nat>, b: seq<nat>)
      requires Extends(a, b)
      ensures a <= b
    {
    }
  }
}
