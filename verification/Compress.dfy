/** compress_block (src/ext/zlib/trees.c): the buffered literals and matches, sent with given codes. */
module Compress {
  import opened Bits
  import opened Canonical
  import opened Streams
  import opened DecodeTables
  import opened InfTrees
  import opened Reading
  import opened Inflation
  import opened SendBits
  import opened Blocks
  import opened StaticTables
  import opened Tally

  /** The arrays Code and Len hold the canonical codes for the lengths. */
  ghost predicate Encodes(code: seq<nat>, len: seq<nat>, lens: seq<nat>) {
    forall s | 0 <= s < |lens| && s < |code| && s < |len| && 0 < lens[s] <= 15 ::
      len[s] == lens[s] && code[s] == FixedCode(lens, s)
  }

  lemma CodeIsBitstring(code: seq<nat>, len: seq<nat>, lens: seq<nat>, s: nat)
    requires Encodes(code, len, lens) && HasCode(lens, s) && s < |code| && s < |len|
    ensures len[s] == lens[s] && code[s] < Pow2(len[s]) && LsbBits(code[s], len[s]) == Bitstring(lens, s)
  {
    hide Code, Counts, Reversed, MsbBits, LsbBits, Pow2;
    var c := Code(lens, Counts(lens), s);
    ReversedBound(c, lens[s]);
    ReversedBits(c, lens[s]);
  }

  method SendSymbol(w: BitWriter, code: seq<nat>, len: seq<nat>, s: nat, ghost lens: seq<nat>)
    requires w.Valid() && Encodes(code, len, lens) && HasCode(lens, s) && s < |code| && s < |len|
    modifies w
    ensures old(w.pending) <= w.pending
    ensures w.Valid() && w.Sent() == old(w.Sent()) + Bitstring(lens, s)
  {
    hide Encodes, LsbBits, Bitstring, Pow2;
    CodeIsBitstring(code, len, lens, s);
    w.SendBits(code[s], len[s]);
  }

  /** Extra bits, when there are any. */
  method SendExtra(w: BitWriter, v: nat, base: nat, extra: nat)
    requires w.Valid() && extra <= 16 && (extra != 0 ==> base <= v < base + Pow2(extra))
    modifies w
    ensures old(w.pending) <= w.pending
    ensures w.Valid() && w.Sent() == old(w.Sent()) + LsbBits(if extra == 0 then 0 else v - base, extra)
  {
    hide Pow2, LsbBits, BitWriter.Sent, BitWriter.Valid;
    NoExtra(0);
    assert w.Sent() + [] == w.Sent();
    if extra != 0 {
      w.SendBits(v - base, extra);
    }
  }

  lemma NoExtra(v: nat)
    ensures LsbBits(v, 0) == []
  {
  }

  /** One buffered entry as a token; distance 0 marks a literal. */
  function TokenOf(dist: nat, lc: nat): Token {
    if dist == 0 then Literal(lc) else Match(lc + 3, dist)
  }

  ghost predicate Buffered(dBuf: seq<nat>, lBuf: seq<nat>, n: nat, ts: seq<Token>) {
    && n == |ts| <= |dBuf| && n <= |lBuf|
    && forall i | 0 <= i < n :: TokenOf(dBuf[i], lBuf[i]) == ts[i] && GoodToken(ts[i])
  }

  method SendLength(w: BitWriter, tables: Tables, lcode: seq<nat>, llen: seq<nat>, lc: nat, ghost ll: seq<nat>)
    requires w.Valid() && tables.Valid() && lc < 256 && |lcode| >= 286 && |llen| >= 286
    requires Encodes(lcode, llen, ll) && HasCode(ll, 257 + LengthCode(lc))
    modifies w
    ensures old(w.pending) <= w.pending
    ensures w.Valid() && w.Sent() == old(w.Sent()) + LengthBits(ll, lc + 3)
  {
    hide Encodes, Bitstring, LsbBits, Pow2, LengthCode, LBase, LExt, FixedCode, FixedLengths, DCode, DistanceCode;
    LengthInCode(lc);
    var code := tables.lengthCode[lc];
    SendSymbol(w, lcode, llen, code + 257, ll);
    ghost var sent := w.Sent();
    var extra := LengthExtra(code);
    LengthExtraSmall(code);
    SendExtra(w, lc, tables.baseLength[code], extra);
    if extra == 0 {
      NoExtra(0);
      NoExtra(lc + 3 - LBase(257 + code));
    }
    assert w.Sent() == old(w.Sent()) + (Bitstring(ll, 257 + code) + LsbBits(lc + 3 - LBase(257 + code), extra));
  }

  lemma LengthExtraSmall(c: nat)
    requires c < 29
    ensures LengthExtra(c) <= 5 && (LengthExtra(c) != 0 ==> c < 28)
  {
  }

  lemma DistanceExtraSmall(c: nat)
    requires c < 30
    ensures DistanceExtra(c) <= 13
  {
  }

  method SendDistance(w: BitWriter, tables: Tables, dcode: seq<nat>, dlen: seq<nat>, dist: nat, ghost dd: seq<nat>)
    requires w.Valid() && tables.Valid() && dist < 32768 && |dcode| >= 30 && |dlen| >= 30
    requires Encodes(dcode, dlen, dd) && HasCode(dd, DistanceCode(dist))
    modifies w
    ensures old(w.pending) <= w.pending
    ensures w.Valid() && w.Sent() == old(w.Sent()) + DistanceBits(dd, dist + 1)
  {
    hide Encodes, Bitstring, LsbBits, Pow2, LengthCode, DBase, DExt, FixedCode, FixedLengths, DistanceCode;
    DistanceInCode(dist);
    assert DCode(tables.distCode, dist) == DistanceCode(dist);
    var code := if dist < 256 then tables.distCode[dist] else tables.distCode[256 + dist / 128];
    SendSymbol(w, dcode, dlen, code, dd);
    var extra := DistanceExtra(code);
    DistanceExtraSmall(code);
    SendExtra(w, dist, tables.baseDist[code], extra);
    if extra == 0 {
      NoExtra(0);
      NoExtra(dist + 1 - DBase(code));
    }
    assert w.Sent() == old(w.Sent()) + (Bitstring(dd, code) + LsbBits(dist + 1 - DBase(code), extra));
  }

  lemma TokensLast(ll: seq<nat>, dd: seq<nat>, ts: seq<Token>, n: nat)
    requires AllCoded(ll, dd, ts) && n < |ts|
    ensures AllCoded(ll, dd, ts[..n]) && AllCoded(ll, dd, ts[..n + 1]) && GoodToken(ts[n]) && HasCodes(ll, dd, ts[n])
    ensures TokensBits(ll, dd, ts[..n + 1]) == TokensBits(ll, dd, ts[..n]) + TokenBits(ll, dd, ts[n])
  {
    hide TokenBits, HasCodes;
    assert ts[..n + 1][..n] == ts[..n];
  }

  lemma Regroup(a: seq<bool>, x: seq<bool>, y: seq<bool>)
    ensures a + x + y == a + (x + y)
  {
  }

  /** A literal byte, or a match with its length and distance. */
  method SendToken(w: BitWriter, tables: Tables, lcode: seq<nat>, llen: seq<nat>, dcode: seq<nat>, dlen: seq<nat>,
                   dist: nat, lc: nat, ghost ll: seq<nat>, ghost dd: seq<nat>)
    requires w.Valid() && tables.Valid() && GoodToken(TokenOf(dist, lc)) && HasCodes(ll, dd, TokenOf(dist, lc))
    requires |lcode| >= 286 && |llen| >= 286 && |dcode| >= 30 && |dlen| >= 30
    requires Encodes(lcode, llen, ll) && Encodes(dcode, dlen, dd)
    modifies w
    ensures old(w.pending) <= w.pending
    ensures w.Valid() && w.Sent() == old(w.Sent()) + TokenBits(ll, dd, TokenOf(dist, lc))
  {
    hide Encodes, Bitstring, LengthBits, DistanceBits, LengthCode, DistanceCode, FixedCode, FixedLengths, DCode;
    if dist == 0 {
      SendSymbol(w, lcode, llen, lc, ll);
    } else {
      ghost var sent, l := w.Sent(), lc + 3;
      SendLength(w, tables, lcode, llen, lc, ll);
      SendDistance(w, tables, dcode, dlen, dist - 1, dd);
      Regroup(sent, LengthBits(ll, l), DistanceBits(dd, dist));
    }
  }

  /** Sends the buffered block and the end of block symbol. */
  method CompressBlock(w: BitWriter, tables: Tables, dBuf: array<nat>, lBuf: array<nat>, lastLit: nat,
                       lcode: seq<nat>, llen: seq<nat>, dcode: seq<nat>, dlen: seq<nat>,
                       ghost ll: seq<nat>, ghost dd: seq<nat>, ghost ts: seq<Token>)
    requires w.Valid() && tables.Valid() && Buffered(dBuf[..], lBuf[..], lastLit, ts) && AllCoded(ll, dd, ts)
    requires |lcode| >= 286 && |llen| >= 286 && |dcode| >= 30 && |dlen| >= 30
    requires Encodes(lcode, llen, ll) && Encodes(dcode, dlen, dd)
    modifies w
    ensures old(w.pending) <= w.pending
    ensures w.Valid() && w.Sent() == old(w.Sent()) + BlockBits(ll, dd, ts)
  {
    hide Encodes, Bitstring, TokenBits, HasCodes, LengthCode, DistanceCode, TokensBits, FixedCode, FixedLengths, DCode, TokenOf,
         BitWriter.Sent, BitWriter.Valid;
    ghost var sent0 := w.Sent();
    var lx := 0;
    TokensNone(ll, dd);
    assert ts[..0] == [];
    if lastLit != 0 {
      while true
        invariant 0 <= lx < lastLit && w.Valid() && AllCoded(ll, dd, ts[..lx])
        invariant w.Sent() == sent0 + TokensBits(ll, dd, ts[..lx])
        invariant old(w.pending) <= w.pending
        decreases lastLit - lx
      {
        TokensLast(ll, dd, ts, lx);
        var dist, lc := dBuf[lx], lBuf[lx];
        assert TokenOf(dBuf[..][lx], lBuf[..][lx]) == ts[lx];
        ghost var sent := w.Sent();
        lx := lx + 1;
        SendToken(w, tables, lcode, llen, dcode, dlen, dist, lc, ll, dd);
        Regroup(sent0, TokensBits(ll, dd, ts[..lx - 1]), TokenBits(ll, dd, ts[lx - 1]));
        if lx >= lastLit {
          break;
        }
      }
    }
    assert ts[..lx] == ts;
    SendSymbol(w, lcode, llen, 256, ll);
    Regroup(sent0, TokensBits(ll, dd, ts), Bitstring(ll, 256));
  }

  lemma TokensNone(ll: seq<nat>, dd: seq<nat>)
    requires HasCode(ll, 256)
    ensures AllCoded(ll, dd, []) && TokensBits(ll, dd, []) == []
  {
  }
}
