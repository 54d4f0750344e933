/** What the bytes of a compressed stream say, in numbers: the header about the window and the level, the trailer about the data. */
module StreamBytes {
  import opened Bits
  import opened Inflation
  import opened Blocks
  import opened Advancing
  import opened Covering
  import opened Reasons
  import opened ZlibFormat
  import opened Wrapper
  import Adler32
  import Searching
  import Deflater
  import Deflate

  /** The tokens of a stream stand for data that was read, in whatever state the stream is. */
  lemma StreamAccounted(t: Deflate.Stream)
    requires t.Valid()
    ensures t.s.Accounted()
  {
    hide Deflater.State.Valid, Deflater.State.ValidStored, Deflater.State.Shaped, Deflate.Stream.Complete, Deflater.State.Ended,
         Deflate.Stream.Lead, Deflate.Stream.Headed;
    if t.phase != Deflate.Over && t.s.m.level > 0 {
      ReadyAccounted(t.s);
    }
  }

  lemma ReadyAccounted(s: Deflater.State)
    requires s.Ready() && s.m.level > 0
    ensures s.Accounted()
  {
    hide Searching.Matcher.Valid, Deflater.State.Shaped, Deflater.State.Sent, Deflater.State.Collected, Deflater.State.Accounted;
    s.CollectedIsAccounted(s.Position());
  }

  /** The header in front of a stream: compression method 8, the window that the compressor uses, no preset dictionary, the level, and
      a multiple of 31 in all. */
  lemma HeaderTells(t: Deflate.Stream)
    requires t.Valid() && t.wrap && t.phase != Deflate.Init
    ensures var p := t.s.coder.w.pending;
      && |p| >= 2 && p[0] % 16 == 8 && p[0] / 16 <= 7 && t.s.m.p.wSize == Pow2(p[0] / 16 + 8)
      && (256 * p[0] + p[1]) % 31 == 0 && p[1] / 32 % 2 == 0
    ensures var p, l, y := t.s.coder.w.pending, t.s.m.level, t.s.m.strategy;
      |p| >= 2 && p[1] / 64 ==
        if l < 2 || y == HuffmanOnly || y == Rle || y == Strategy.Fixed then 0 else if l < 6 then 1 else if l == 6 then 2 else 3
  {
    hide Deflater.State.Ready, Deflater.State.Closed, Deflate.Stream.Complete, Deflate.Stream.Lead, Pow2;
    var f := t.LevelFlags();
    var k, c := HeaderParts(t.wBits, f);
    var h := Header(t.wBits, f);
    assert Msb(h) <= t.s.coder.w.pending;
    assert t.s.coder.w.pending[0] == Msb(h)[0] && t.s.coder.w.pending[1] == Msb(h)[1];
    Quotients(k, c, f);
  }

  lemma Quotients(k: nat, c: nat, f: nat)
    requires k < 8 && c < 32 && f < 4
    ensures (8 + 16 * k) % 16 == 8 && (8 + 16 * k) / 16 == k
    ensures (c + 32 * (2 * f)) / 32 % 2 == 0 && (c + 32 * (2 * f)) / 64 == f
  {
  }

  /** No match of the stream reaches further back than the window that its first byte declares, less 262 bytes. */
  lemma DistancesWithinDeclaredWindow(t: Deflate.Stream, i: nat)
    requires t.Valid() && t.wrap && t.phase != Deflate.Init && t.s.m.level > 0
    requires i < |t.s.tallied| && t.s.tallied[i].Match?
    ensures var p := t.s.coder.w.pending; |p| >= 2 && t.s.tallied[i].dist <= Pow2(p[0] / 16 + 8) - 262
  {
    hide Deflate.Stream.Valid, Pow2, Reasoned, AllReach, ExpandAll, Place;
    StreamAccounted(t);
    HeaderTells(t);
    assert Near(t.s.tallied[i], t.s.m.p.MaxDist());
  }

  /** The last four bytes of a complete stream are the two sums of its data modulo 65521, the second one first, each most significant
      byte first. */
  lemma TrailerTells(t: Deflate.Stream)
    requires t.Complete() && t.wrap
    ensures var p, u := t.s.coder.w.pending, Adler32.Unreduced(1, 0, t.s.m.data); var n := |p|;
      && n >= 4 && p[n - 4] < 256 && p[n - 3] < 256 && p[n - 2] < 256 && p[n - 1] < 256
      && 256 * p[n - 4] + p[n - 3] == u.1 % 65521 && 256 * p[n - 2] + p[n - 1] == u.0 % 65521
  {
    hide Decodes, Adler32.Unreduced;
  }
}
