/** Deflate and inflate together: whatever the calls on either side, what was compressed comes out. */
module RoundTrip {
  import opened Streams
  import opened Inflation
  import opened Inflate
  import opened ZlibFormat
  import Deflate
  import Inflater

  /** All that has been sent has been handed over, as it has when deflate returns with output space left or at the end. */
  ghost predicate AllReceived(t: Deflate.Stream)
    reads t.s.out, t.s.coder.w
  {
    t.s.out.handed == |t.s.coder.w.pending|
  }

  /** A decoder that is fed any beginning of what deflate has sent for a complete stream, in any pieces, outputs a beginning of the data; and when
      it comes to an end, that is the end of the stream, not an error, and the output is the data. */
  lemma InflateUndoesDeflate(t: Deflate.Stream, u: Inflater.State, rest: seq<byte>)
    requires t.Complete() && u.Valid() && u.wrap == t.wrap && u.consumed + rest == t.s.coder.w.pending
    ensures u.machine.history <= t.s.m.data
    ensures Final(u.mode) ==> u.mode == DONE && u.machine.history == t.s.m.data
  {
    hide Inflater.State.Valid, Run, BitsOf, Final;
    Inflater.SettledIs(u);
    Inflater.Determined(u, rest);
  }

  /** And it does come to that end: a call that is given the rest of the stream and returns with output space left has reached it. */
  lemma InflateFinishes(t: Deflate.Stream, u: Inflater.State, input: seq<byte>, next: nat, left: nat)
    requires t.Complete() && AllReceived(t) && u.Valid() && u.wrap == t.wrap && next <= |input|
    requires u.consumed + input[next..] == t.Received()
    requires left > 0 && Proper(u.machine) && Halts(u.machine, u.hold, u.bits, input, next, left)
    ensures u.mode == DONE && u.machine.history == t.s.m.data
  {
    hide Inflater.State.Valid, Run, BitsOf, Halts, Proper;
    assert t.Received() == t.s.coder.w.pending;
    Inflater.SettledIs(u);
    Inflater.Complete(u, input, next, left);
  }

  /** Flushing: after a partial, sync or full flush that had enough output space, a decoder that is given all that was handed over so far and has
      output space left has put out all that the compressor was given so far. */
  lemma InflateKeepsUp(t: Deflate.Stream, u: Inflater.State, input: seq<byte>, next: nat, left: nat)
    requires t.AllOut() && AllReceived(t) && u.Valid() && u.wrap == t.wrap && next <= |input|
    requires u.consumed + input[next..] == t.Received()
    requires left > 0 && Proper(u.machine) && Halts(u.machine, u.hold, u.bits, input, next, left)
    ensures !Final(u.mode) && u.machine.history == t.s.m.data
  {
    hide Inflater.State.Valid, Run, BitsOf, Halts, Proper;
    assert t.Received() == t.s.coder.w.pending;
    Inflater.SettledIs(u);
    Inflater.Complete(u, input, next, left);
  }
}
