/** The part of deflate_state that src/ext/zlib/trees.c works on: token buffer, trees, bit buffer. */
module BlockCoder {
  import opened Bits
  import opened Canonical
  import opened Streams
  import opened DecodeTables
  import opened InfTrees
  import opened Reading
  import opened Inflation
  import opened SendBits
  import opened Blocks
  import opened Headers
  import opened StaticTables
  import opened Tally
  import opened Compress
  import opened SendTrees
  import opened Delivery
  import opened TreeBuilding
  import opened FlushBlock
  import opened GenCodes
  import opened RunLength

  datatype Form = Stored | Static | Dynamic

  /** A block's size in bytes, its three header bits included, as the forms are compared. */
  function InBytes(bits: nat): nat {
    (bits + 3 + 7) / 8
  }

  /** b is a block of the tokens with dynamic codes. */
  ghost predicate IsDynamic(b: seq<bool>, ts: seq<Token>, eof: bool) {
    exists ll, dd, cl, n, lops, dops :: IsDynamicWith(b, ts, eof, ll, dd, cl, n, lops, dops)
  }

  ghost predicate IsDynamicWith(b: seq<bool>, ts: seq<Token>, eof: bool, ll: seq<nat>, dd: seq<nat>, cl: seq<nat>, n: nat,
                                lops: seq<Op>, dops: seq<Op>)
  {
    Describes(ll, dd, cl, n, lops, dops) && AllCoded(ll, dd, ts) && b == DynamicBits(ll, dd, cl, n, lops, dops, ts, eof)
  }

  /** b is the block of the tokens with the codes that the trees built for it give. */
  ghost predicate IsBuilt(b: seq<bool>, ts: seq<Token>, eof: bool) {
    exists trees, n :: IsBuiltWith(b, ts, eof, trees, n)
  }

  ghost predicate IsBuiltWith(b: seq<bool>, ts: seq<Token>, eof: bool, trees: BlockTrees, n: nat) {
    && TreesFor(trees, ts, n)
    && IsDynamicWith(b, ts, eof, Trim(trees.lit.len), Trim(trees.dist.len), trees.codes.len, n,
                     OpsOf(Trim(trees.lit.len)), OpsOf(Trim(trees.dist.len)))
  }

  lemma BuiltIsDynamic(b: seq<bool>, ts: seq<Token>, eof: bool)
    requires IsBuilt(b, ts, eof)
    ensures IsDynamic(b, ts, eof)
  {
    hide TreesFor, Trim, OpsOf, IsDynamicWith;
    var trees, n :| IsBuiltWith(b, ts, eof, trees, n);
    assert IsDynamicWith(b, ts, eof, Trim(trees.lit.len), Trim(trees.dist.len), trees.codes.len, n,
                         OpsOf(Trim(trees.lit.len)), OpsOf(Trim(trees.dist.len)));
  }

  /** The form of a block, as _tr_flush_block compares them: a stored block, which needs its bytes at hand, counts as four bytes more
      than these, the other two as what they cost; Z_FIXED rules out dynamic codes. */
  ghost predicate Chosen(form: Form, stat: nat, dyn: nat, storedLen: nat, haveBuf: bool, fixedOnly: bool) {
    && (form.Stored? <==> haveBuf && storedLen + 4 <= InBytes(stat) && storedLen + 4 <= InBytes(dyn))
    && (form.Static? <==> !form.Stored? && (fixedOnly || InBytes(stat) <= InBytes(dyn)))
  }

  /** Where the bits of a block come from, by its form. */
  ghost predicate SentAs(b: seq<bool>, form: Form, at: nat, ts: seq<Token>, buf: seq<byte>, eof: bool, dynamic: seq<bool>) {
    match form
    case Stored => |buf| < 65536 && b == StoredBits(at, buf, eof)
    case Static => AllCoded(FixedLengths(), FixedDistances(), ts) && b == StaticBits(ts, eof)
    case Dynamic => IsDynamic(dynamic, ts, eof) && b == dynamic
  }

  /** Whatever its form, a block delivers what its tokens stand for. */
  lemma AnyFormDelivers(b: seq<bool>, form: Form, at: nat, ts: seq<Token>, buf: seq<byte>, eof: bool, dynamic: seq<bool>,
                        h: seq<byte>)
    requires SentAs(b, form, at, ts, buf, eof, dynamic) && AllReach(h, ts) && (form.Stored? ==> ExpandAll(h, ts) == h + buf)
    ensures Delivers(b, at, h, ExpandAll(h, ts), eof)
  {
    hide Delivers, StoredBits, StaticBits, DynamicBits, AllReach, ExpandAll, AllCoded, Describes;
    match form
    case Stored => StoredDelivers(at, buf, eof, h);
    case Static => StaticDelivers(at, ts, eof, h);
    case Dynamic =>
      var ll, dd, cl, n, lops, dops :| IsDynamicWith(b, ts, eof, ll, dd, cl, n, lops, dops);
      DynamicDelivers(at, ll, dd, cl, n, lops, dops, ts, eof, h);
  }

  // ---------------------------------------------------------------- sending the three forms

  /** copy_block: the length and its complement on a byte boundary, then the bytes. */
  method CopyBlock(w: BitWriter, buf: seq<byte>)
    requires w.Valid() && |buf| < 65536
    modifies w
    ensures old(w.pending) <= w.pending
    ensures w.Valid() && w.biValid == 0
    ensures w.Sent() == old(w.Sent()) + Zeros(Padding(|old(w.Sent())|)) + LsbBits(|buf|, 16) + LsbBits(65535 - |buf|, 16)
      + BitsOf(buf)
  {
    hide LsbBits, BitsOf, Low, Shr, Pow2, Zeros;
    w.BiWindup();
    ghost var s := w.Sent();
    ghost var p := w.pending;
    ShortBytes(|buf|);
    ShortBytes(65535 - |buf|);
    w.PutShort(|buf|);
    w.PutShort(65535 - |buf|);
    ghost var q := w.pending;
    BitsOfAppend(p, [Low(|buf|, 8), Shr(|buf|, 8)]);
    BitsOfAppend(p + [Low(|buf|, 8), Shr(|buf|, 8)], [Low(65535 - |buf|, 8), Shr(65535 - |buf|, 8)]);
    for i := 0 to |buf|
      invariant w.pending == q + buf[..i] && w.biValid == 0 && w.biBuf == 0
    {
      w.pending := w.pending + [buf[i]];
      assert buf[..i + 1] == buf[..i] + [buf[i]];
    }
    assert buf[..|buf|] == buf;
    BitsOfAppend(q, buf);
    NoBits();
  }

  /** _tr_stored_block */
  method StoredBlock(w: BitWriter, buf: seq<byte>, eof: bool)
    requires w.Valid() && |buf| < 65536
    modifies w
    ensures old(w.pending) <= w.pending
    ensures w.Valid() && w.Sent() == old(w.Sent()) + StoredBits(|old(w.Sent())|, buf, eof) && w.biValid == 0
  {
    hide LsbBits, BitsOf, Zeros, Pow2;
    Pow2Values();
    ghost var s := w.Sent();
    w.SendBits(if eof then 1 else 0, 3);
    CopyBlock(w, buf);
    FiveParts(s, TypeBits(0, eof), Zeros(Padding(|s| + 3)), LsbBits(|buf|, 16), LsbBits(65535 - |buf|, 16), BitsOf(buf));
  }

  lemma FiveParts(s: seq<bool>, a: seq<bool>, b: seq<bool>, c: seq<bool>, d: seq<bool>, e: seq<bool>)
    ensures s + a + b + c + d + e == s + (a + b + c + d + e)
  {
  }

  lemma StaticEncodes(tables: Tables)
    requires tables.Valid()
    ensures Encodes(tables.lcode, tables.llen, FixedLengths()) && Encodes(tables.dcode, tables.dlen, FixedDistances())
    ensures |tables.lcode| == |tables.llen| == 288 && |tables.dcode| == |tables.dlen| == 30
  {
    hide FixedCode, LengthCode, DistanceCode;
  }

  /** A block with the fixed codes. */
  method StaticBlock(w: BitWriter, tables: Tables, dBuf: array<nat>, lBuf: array<nat>, lastLit: nat, eof: bool, ghost ts: seq<Token>)
    requires w.Valid() && tables.Valid() && Buffered(dBuf[..], lBuf[..], lastLit, ts)
    requires AllCoded(FixedLengths(), FixedDistances(), ts)
    modifies w
    ensures old(w.pending) <= w.pending
    ensures w.Valid() && w.Sent() == old(w.Sent()) + StaticBits(ts, eof)
  {
    hide LsbBits, Pow2, Tables.Valid, AllCoded, Buffered, Encodes, FixedLengths, FixedDistances, BlockBits;
    Pow2Values();
    StaticEncodes(tables);
    ghost var s := w.Sent();
    w.SendBits(2 + (if eof then 1 else 0), 3);
    assert dBuf[..] == old(dBuf[..]) && lBuf[..] == old(lBuf[..]);
    CompressBlock(w, tables, dBuf, lBuf, lastLit, tables.lcode, tables.llen, tables.dcode, tables.dlen,
                  FixedLengths(), FixedDistances(), ts);
    Compress.Regroup(s, TypeBits(1, eof), BlockBits(FixedLengths(), FixedDistances(), ts));
  }

  /** A block with its own codes. */
  method DynamicBlock(w: BitWriter, tables: Tables, dBuf: array<nat>, lBuf: array<nat>, lastLit: nat, eof: bool,
                      lfc: array<nat>, ldl: array<nat>, dfc: array<nat>, ddl: array<nat>, bfc: array<nat>, bdl: array<nat>,
                      lMax: nat, dMax: nat, maxBlindex: nat, ghost ll: seq<nat>, ghost dd: seq<nat>, ghost cl: seq<nat>,
                      ghost trees: BlockTrees, ghost ts: seq<Token>)
    requires w.Valid() && tables.Valid() && Buffered(dBuf[..], lBuf[..], lastLit, ts)
    requires lMax + 1 < ldl.Length && dMax + 1 < ddl.Length && AllCoded(ll, dd, ts)
    requires Describes(ll, dd, cl, maxBlindex + 1, OpsFor(ldl[..], lMax + 1), OpsFor(ddl[..], dMax + 1))
    requires Built(ts, lfc[..], ldl[..], dfc[..], ddl[..], bfc[..], bdl[..], lMax, dMax, maxBlindex, ll, dd, cl, trees)
    requires lfc.Length >= 286 && ldl.Length >= 286 && dfc.Length >= 30 && ddl.Length >= 30
    modifies w
    ensures old(w.pending) <= w.pending
    ensures w.Valid() && w.Sent() == old(w.Sent())
      + DynamicBits(ll, dd, cl, maxBlindex + 1, OpsFor(ldl[..], lMax + 1), OpsFor(ddl[..], dMax + 1), ts, eof)
  {
    hide LsbBits, Pow2, Tables.Valid, AllCoded, Buffered, Encodes, BlockBits, HeaderBits, OpsFor, Describes, BlTree, Small, Planned;
    Pow2Values();
    ghost var s, lops, dops := w.Sent(), OpsFor(ldl[..], lMax + 1), OpsFor(ddl[..], dMax + 1);
    HeaderShape(ll, dd, cl, maxBlindex + 1, lops, dops);
    w.SendBits(4 + (if eof then 1 else 0), 3);
    assert ldl[..] == old(ldl[..]) && ddl[..] == old(ddl[..]) && bfc[..] == old(bfc[..]) && bdl[..] == old(bdl[..]);
    SendAllTrees(w, ldl, lMax + 1, ddl, dMax + 1, maxBlindex + 1, bfc, bdl, cl);
    assert dBuf[..] == old(dBuf[..]) && lBuf[..] == old(lBuf[..]);
    assert ldl[..] == old(ldl[..]) && ddl[..] == old(ddl[..]) && lfc[..] == old(lfc[..]) && dfc[..] == old(dfc[..]);
    CompressBlock(w, tables, dBuf, lBuf, lastLit, lfc[..], ldl[..], dfc[..], ddl[..], ll, dd, ts);
    ThreeParts(s, TypeBits(2, eof), HeaderBits(|ll|, |dd|, cl, maxBlindex + 1, lops, dops), BlockBits(ll, dd, ts));
  }

  lemma ThreeParts(s: seq<bool>, a: seq<bool>, b: seq<bool>, c: seq<bool>)
    ensures s + a + b + c == s + (a + b + c)
  {
  }

  /** A stand-in while no trees are built. */
  ghost function NoTrees(): BlockTrees {
    var t := HuffmanTree([], [], [], [], [], [], []);
    BlockTrees(t, t, t)
  }

  /** The form that the two sizes in bytes lead to. */
  function Picked(storedLen: nat, haveBuf: bool, fixedOnly: bool, optLenb: int, staticLenb: int): Form {
    if storedLen + 4 <= optLenb && haveBuf then Stored
    else if fixedOnly || staticLenb == optLenb then Static else Dynamic
  }

  lemma ChosenIs(form: Form, stat: nat, dyn: nat, storedLen: nat, haveBuf: bool, fixedOnly: bool, optLenb: int, staticLenb: int)
    requires staticLenb == (stat + 3 + 7) / 8
    requires optLenb == if staticLenb <= (dyn + 3 + 7) / 8 then staticLenb else (dyn + 3 + 7) / 8
    requires form == Picked(storedLen, haveBuf, fixedOnly, optLenb, staticLenb)
    ensures Chosen(form, stat, dyn, storedLen, haveBuf, fixedOnly)
  {
  }

  /** What flushing a block sends: one of the forms, and, unless compression is off, the one that wins the comparison. */
  ghost predicate Outcome(form: Form, sent: seq<bool>, dynamic: seq<bool>, at: nat, ts: seq<Token>, buf: seq<byte>,
                          haveBuf: bool, storedLen: nat, eof: bool, level: nat, fixedOnly: bool)
    requires AllCoded(FixedLengths(), FixedDistances(), ts)
  {
    && SentAs(sent, form, at, ts, buf, eof, dynamic) && (form.Stored? ==> haveBuf)
    && (level > 0 ==>
          (IsBuilt(dynamic, ts, eof) && |dynamic| >= 3
           && Chosen(form, |BlockBits(FixedLengths(), FixedDistances(), ts)|, |dynamic| - 3, storedLen, haveBuf, fixedOnly)))
    && (level == 0 ==> form == if haveBuf then Stored else Static)
  }

  class Coder {
    const lfc: array<nat>
    const ldl: array<nat>
    const dfc: array<nat>
    const ddl: array<nat>
    const bfc: array<nat>
    const bdl: array<nat>
    const builder: TreeBuilder
    const w: BitWriter
    const tables: Tables
    const dBuf: array<nat>
    const lBuf: array<nat>
    var lastLit: nat
    ghost var tokens: seq<Token>

    /** The arrays are what they should be, and apart from each other. */
    ghost predicate Shaped() {
      && builder.Valid() && builder.Fits(lfc, ldl, 286) && builder.Fits(dfc, ddl, 30) && builder.Fits(bfc, bdl, 19)
      && lfc != dfc && lfc != ddl && lfc != bfc && lfc != bdl && ldl != dfc && ldl != ddl && ldl != bfc && ldl != bdl
      && dfc != bfc && dfc != bdl && ddl != bfc && ddl != bdl
      && 1 < dBuf.Length == lBuf.Length <= 32768 && dBuf != lBuf
      && Trees() !! {dBuf, lBuf} && tables.Valid()
    }

    ghost function Trees(): set<array<nat>> {
      {lfc, ldl, dfc, ddl, bfc, bdl, builder.heap, builder.depth, builder.blCount}
    }

    /** Between blocks and while tokens are collected: the frequencies count the buffered tokens. */
    ghost predicate Valid()
      reads this, w, builder, lfc, dfc, bfc, dBuf, lBuf
    {
      && Shaped() && w.Valid()
      && lastLit == |tokens| < dBuf.Length && Buffered(dBuf[..], lBuf[..], lastLit, tokens)
      && lfc[..286] == LitFreq(tokens) && dfc[..30] == DistFreq(tokens) && bfc[..19] == NoFreq(19)
      && builder.optLen == 0 && builder.staticLen == 0
    }

    constructor (litBufsize: nat)
      requires 1 < litBufsize <= 32768
      ensures Valid() && tokens == [] && w.Sent() == [] && w.pending == [] && dBuf.Length == litBufsize
      ensures fresh(w) && fresh(builder) && fresh(dBuf) && fresh(lBuf) && fresh(lfc) && fresh(ldl) && fresh(dfc)
        && fresh(ddl)
      ensures fresh(bfc) && fresh(bdl) && fresh(builder.heap) && fresh(builder.depth) && fresh(builder.blCount)
    {
      hide Tables.Valid, LitFreq, DistFreq, Buffered, NoFreq;
      lfc, ldl := new nat[573], new nat[573];
      dfc, ddl := new nat[61], new nat[61];
      bfc, bdl := new nat[39], new nat[39];
      var b := new TreeBuilder(573);
      builder := b;
      w := new BitWriter();
      var t := TrStaticInit();
      tables := t;
      dBuf, lBuf := new nat[litBufsize], new nat[litBufsize];
      lastLit, tokens := 0, [];
      new;
      InitBlock();
    }

    /** init_block */
    method InitBlock()
      requires Shaped() && w.Valid()
      modifies this`lastLit, this`tokens, lfc, dfc, bfc, builder
      ensures Valid() && tokens == [] && w.Sent() == old(w.Sent())
    {
      hide Tables.Valid;
      for n := 0 to 286
        invariant forall i | 0 <= i < n :: lfc[i] == 0
      {
        lfc[n] := 0;
      }
      for n := 0 to 30
        invariant forall i | 0 <= i < n :: dfc[i] == 0
        invariant forall i | 0 <= i < 286 :: lfc[i] == 0
      {
        dfc[n] := 0;
      }
      for n := 0 to 19
        invariant forall i | 0 <= i < n :: bfc[i] == 0
        invariant forall i | 0 <= i < 30 :: dfc[i] == 0
        invariant forall i | 0 <= i < 286 :: lfc[i] == 0
      {
        bfc[n] := 0;
      }
      lfc[256] := 1;
      builder.optLen, builder.staticLen := 0, 0;
      lastLit, tokens := 0, [];
      assert lfc[..286] == LitFreq([]) && dfc[..30] == DistFreq([]) && bfc[..19] == NoFreq(19);
    }

    /** _tr_tally: buffers and counts one literal (dist 0) or match, and says whether the block is full. */
    method Tally(dist: nat, lc: nat) returns (full: bool)
      requires Valid() && lastLit < dBuf.Length - 1 && GoodToken(TokenOf(dist, lc))
      modifies this`lastLit, this`tokens, lfc, dfc, dBuf, lBuf
      ensures Valid() && tokens == old(tokens) + [TokenOf(dist, lc)] && full == (lastLit == dBuf.Length - 1)
      ensures w.Sent() == old(w.Sent())
    {
      hide LitFreq, DistFreq, GoodToken, Tables.Valid;
      ghost var ts := tokens;
      TallyToken(tables, lfc, dfc, dBuf, lBuf, lastLit, dist, lc, ts);
      lastLit := lastLit + 1;
      tokens := ts + [TokenOf(dist, lc)];
      full := lastLit == dBuf.Length - 1;
    }

    /** The last part of _tr_flush_block: the block is sent in the form that the two sizes lead to. */
    method SendChosen(buf: seq<byte>, haveBuf: bool, storedLen: nat, eof: bool, fixedOnly: bool, optLenb: int, staticLenb: int,
                      lMax: nat, dMax: nat, maxBlindex: nat, ghost ll: seq<nat>, ghost dd: seq<nat>, ghost cl: seq<nat>,
                      ghost trees: BlockTrees, ghost dynamic: seq<bool>)
      returns (ghost form: Form, ghost sent: seq<bool>)
      requires Shaped() && w.Valid() && Buffered(dBuf[..], lBuf[..], lastLit, tokens)
      requires (haveBuf ==> |buf| == storedLen < 65536) && AllCoded(FixedLengths(), FixedDistances(), tokens)
      requires Picked(storedLen, haveBuf, fixedOnly, optLenb, staticLenb).Dynamic? ==>
        Ready(dynamic, eof, lMax, dMax, maxBlindex, ll, dd, cl, trees)
      modifies w
      ensures old(w.pending) <= w.pending
      ensures w.Valid() && w.Sent() == old(w.Sent()) + sent
        && form == Picked(storedLen, haveBuf, fixedOnly, optLenb, staticLenb)
      ensures SentAs(sent, form, |old(w.Sent())|, tokens, buf, eof, dynamic)
    {
      hide Tables.Valid, Buffered, Built, AllCoded, Encodes, OpsFor, Shaped, IsDynamic, Ready, Describes,
           StoredBits, StaticBits, DynamicBits, FixedLengths, FixedDistances, BitWriter.Valid;
      form := Picked(storedLen, haveBuf, fixedOnly, optLenb, staticLenb);
      if storedLen + 4 <= optLenb && haveBuf {
        sent := StoredBits(|w.Sent()|, buf, eof);
        StoredBlock(w, buf, eof);
      } else if fixedOnly || staticLenb == optLenb {
        sent := StaticBits(tokens, eof);
        TablesValid();
        StaticBlock(w, tables, dBuf, lBuf, lastLit, eof, tokens);
      } else {
        sent := dynamic;
        TablesValid();
        ReadyParts(dynamic, eof, lMax, dMax, maxBlindex, ll, dd, cl, trees);
        DynamicBlock(w, tables, dBuf, lBuf, lastLit, eof, lfc, ldl, dfc, ddl, bfc, bdl, lMax, dMax, maxBlindex, ll, dd, cl, trees,
                     tokens);
      }
    }

    lemma TablesValid()
      requires Shaped()
      ensures tables.Valid() && lfc.Length >= 286 && ldl.Length >= 286 && dfc.Length >= 30 && ddl.Length >= 30
    {
      hide Tables.Valid;
    }

    /** The trees are built, and `dynamic` is the block with them. */
    ghost predicate Ready(dynamic: seq<bool>, eof: bool, lMax: nat, dMax: nat, maxBlindex: nat, ll: seq<nat>, dd: seq<nat>,
                          cl: seq<nat>, trees: BlockTrees)
      reads this, lfc, ldl, dfc, ddl, bfc, bdl
    {
      && lMax + 1 < ldl.Length && dMax + 1 < ddl.Length && AllCoded(ll, dd, tokens)
      && Describes(ll, dd, cl, maxBlindex + 1, OpsFor(ldl[..], lMax + 1), OpsFor(ddl[..], dMax + 1))
      && dynamic == DynamicBits(ll, dd, cl, maxBlindex + 1, OpsFor(ldl[..], lMax + 1), OpsFor(ddl[..], dMax + 1), tokens, eof)
      && IsDynamic(dynamic, tokens, eof)
      && Built(tokens, lfc[..], ldl[..], dfc[..], ddl[..], bfc[..], bdl[..], lMax, dMax, maxBlindex, ll, dd, cl, trees)
    }

    lemma ReadyParts(dynamic: seq<bool>, eof: bool, lMax: nat, dMax: nat, maxBlindex: nat, ll: seq<nat>, dd: seq<nat>,
                     cl: seq<nat>, trees: BlockTrees)
      requires Ready(dynamic, eof, lMax, dMax, maxBlindex, ll, dd, cl, trees)
      ensures lMax + 1 < ldl.Length && dMax + 1 < ddl.Length && AllCoded(ll, dd, tokens) && IsDynamic(dynamic, tokens, eof)
      ensures Describes(ll, dd, cl, maxBlindex + 1, OpsFor(ldl[..], lMax + 1), OpsFor(ddl[..], dMax + 1))
      ensures Built(tokens, lfc[..], ldl[..], dfc[..], ddl[..], bfc[..], bdl[..], lMax, dMax, maxBlindex, ll, dd, cl, trees)
      ensures dynamic == DynamicBits(ll, dd, cl, maxBlindex + 1, OpsFor(ldl[..], lMax + 1), OpsFor(ddl[..], dMax + 1), tokens, eof)
    {
      hide Describes, AllCoded, OpsFor, IsDynamic, Encodes, BlTree, Planned, Small, DynamicBits;
    }

    /** The part of _tr_flush_block that builds the trees, chooses a form and sends the block. */
    method SendBlock(buf: seq<byte>, haveBuf: bool, storedLen: nat, eof: bool, level: nat, fixedOnly: bool)
      returns (ghost form: Form, ghost sent: seq<bool>, ghost dynamic: seq<bool>)
      requires Valid() && (haveBuf ==> |buf| == storedLen < 65536)
      modifies w, builder, builder.heap, builder.depth, builder.blCount, lfc, ldl, dfc, ddl, bfc, bdl
      ensures old(w.pending) <= w.pending
      ensures w.Valid() && w.Sent() == old(w.Sent()) + sent
      ensures AllCoded(FixedLengths(), FixedDistances(), tokens)
      ensures Outcome(form, sent, dynamic, |old(w.Sent())|, tokens, buf, haveBuf, storedLen, eof, level, fixedOnly)
    {
      hide Tables.Valid, LitFreq, DistFreq, Buffered, Built, Describes, AllCoded, Encodes, BlockBits, HeaderBits, OpsFor, SentAs,
           StoredBits, StaticBits, DynamicBits, BlTree, FixedLengths, FixedDistances, Zeros, Chosen, BitWriter.Valid, IsDynamic,
           IsBuilt, Planned, OpsCoded;
      ghost var at, ts := |w.Sent()|, tokens;
      var optLenb, staticLenb := storedLen + 5, storedLen + 5;
      var lMax, dMax, maxBlindex: nat := 0, 0, 0;
      ghost var ll, dd, cl := [], [], [];
      ghost var trees: BlockTrees := NoTrees();
      dynamic := [];
      BufferedGood(dBuf[..], lBuf[..], lastLit, ts);
      FixedCodesAll(ts);
      if level > 0 {
        lMax, dMax, maxBlindex, ll, dd, cl, trees := BuildTrees(builder, tables, lfc, ldl, dfc, ddl, bfc, bdl, ts);
        BuiltParts(ts, lfc[..], ldl[..], dfc[..], ddl[..], bfc[..], bdl[..], lMax, dMax, maxBlindex, ll, dd, cl, trees);
        ghost var n, lops, dops := maxBlindex + 1, OpsFor(ldl[..], lMax + 1), OpsFor(ddl[..], dMax + 1);
        PlannedIsBuilt(ts, ll, dd, cl, n, lops, dops, trees, eof);
        DynamicSize(ll, dd, cl, n, lops, dops, ts, eof);
        dynamic := DynamicBits(ll, dd, cl, n, lops, dops, ts, eof);
        optLenb, staticLenb := (builder.optLen + 3 + 7) / 8, (builder.staticLen + 3 + 7) / 8;
        if staticLenb <= optLenb {
          optLenb := staticLenb;
        }
        ChosenIs(Picked(storedLen, haveBuf, fixedOnly, optLenb, staticLenb), |BlockBits(FixedLengths(), FixedDistances(), ts)|,
                 |dynamic| - 3, storedLen, haveBuf, fixedOnly, optLenb, staticLenb);
      }
      form, sent := SendChosen(buf, haveBuf, storedLen, eof, fixedOnly, optLenb, staticLenb, lMax, dMax, maxBlindex, ll, dd, cl, trees,
                               dynamic);
    }

    /** _tr_flush_block: sends the buffered tokens in the form that wins and starts the next block. `buf` are the bytes they
        stand for, if they are still at hand. */
    method FlushBlock(buf: seq<byte>, haveBuf: bool, storedLen: nat, eof: bool, level: nat, fixedOnly: bool)
      returns (ghost form: Form, ghost sent: seq<bool>, ghost dynamic: seq<bool>)
      requires Valid() && (haveBuf ==> |buf| == storedLen < 65536)
      modifies this`lastLit, this`tokens, w, builder, builder.heap, builder.depth, builder.blCount, lfc, ldl, dfc, ddl, bfc, bdl
      ensures old(w.pending) <= w.pending
      ensures Valid() && tokens == [] && (eof ==> w.biValid == 0 && w.biBuf == 0)
      ensures w.Sent() == old(w.Sent()) + sent + if eof then Zeros(Padding(|old(w.Sent())| + |sent|)) else []
      ensures AllCoded(FixedLengths(), FixedDistances(), old(tokens))
      ensures Outcome(form, sent, dynamic, |old(w.Sent())|, old(tokens), buf, haveBuf, storedLen, eof, level, fixedOnly)
    {
      hide Outcome, AllCoded, BlockBits, FixedLengths, FixedDistances, Zeros, Padding, BitWriter.Valid, BitWriter.Sent,
           LitFreq, DistFreq, Buffered;
      form, sent, dynamic := SendBlock(buf, haveBuf, storedLen, eof, level, fixedOnly);
      InitBlock();
      if eof {
        w.BiWindup();
      }
      ghost var s := w.Sent();
      assert s + [] == s;
    }


    lemma WriterValid()
      requires Valid()
      ensures w.Valid()
    {
      hide Tables.Valid, LitFreq, DistFreq, Buffered, BitWriter.Valid, Shaped;
    }

    /** put_byte, while no bits are waiting. */
    method PutBytes(bytes: seq<nat>)
      requires w.Valid() && w.biValid == 0 && forall i | 0 <= i < |bytes| :: bytes[i] < 256
      modifies w
      ensures w.Valid() && w.biValid == 0 && w.biBuf == old(w.biBuf) && w.pending == old(w.pending) + bytes
      ensures w.Sent() == old(w.Sent()) + BitsOf(bytes)
    {
      hide BitsOf;
      BitsOfAppend(w.pending, bytes);
      assert LsbBits(w.biBuf, 0) == [];
      w.pending := w.pending + bytes;
    }

    /** The same, between blocks. */
    method PutBytesFirst(bytes: seq<nat>)
      requires Valid() && w.biValid == 0 && forall i | 0 <= i < |bytes| :: bytes[i] < 256
      modifies w
      ensures w.pending == old(w.pending) + bytes
      ensures Valid() && tokens == old(tokens) && w.Sent() == old(w.Sent()) + BitsOf(bytes)
    {
      hide Tables.Valid, LitFreq, DistFreq, Buffered, BitWriter.Valid, BitWriter.Sent, Shaped, BitsOf;
      PutBytes(bytes);
    }

    /** _tr_stored_block, without bytes: what a full or sync flush ends with. */
    method EmptyStored()
      requires Valid()
      modifies w
      ensures old(w.pending) <= w.pending
      ensures Valid() && tokens == old(tokens) && w.Sent() == old(w.Sent()) + StoredBits(|old(w.Sent())|, [], false)
        && w.biValid == 0
    {
      hide Tables.Valid, LitFreq, DistFreq, Buffered, BitWriter.Valid, StoredBits, Shaped;
      StoredBlock(w, [], false);
    }

    /** _tr_align: an empty block with the fixed codes, and perhaps another one. Which, depends on the length of the last code that
        was sent; both are considered. */
    method Align() returns (ghost twice: bool)
      requires Valid()
      modifies w
      ensures old(w.pending) <= w.pending
      ensures Valid() && tokens == old(tokens) && AllCoded(FixedLengths(), FixedDistances(), [])
      ensures w.Sent() == old(w.Sent()) + StaticBits([], false) + if twice then StaticBits([], false) else []
      ensures w.biValid < 8
    {
      hide Tables.Valid, LitFreq, DistFreq, BitWriter.Valid, StaticBits, FixedLengths, FixedDistances, BitWriter.Sent;
      FixedCodesAll([]);
      StaticBlock(w, tables, dBuf, lBuf, 0, false, []);
      w.BiFlush();
      ghost var one := w.Sent();
      var again: bool := *;
      twice := again;
      if again {
        StaticBlock(w, tables, dBuf, lBuf, 0, false, []);
        w.BiFlush();
      } else {
        assert one + [] == one;
      }
    }
  }

  method TallyToken(tables: Tables, lfc: array<nat>, dfc: array<nat>, dBuf: array<nat>, lBuf: array<nat>, n: nat, dist: nat,
                    lc: nat, ghost ts: seq<Token>)
    requires tables.Valid() && n == |ts| < dBuf.Length == lBuf.Length && GoodToken(TokenOf(dist, lc))
    requires lfc != dfc && dBuf != lBuf && {lfc, dfc} !! {dBuf, lBuf} && lfc.Length >= 286 && dfc.Length >= 30
    requires Buffered(dBuf[..], lBuf[..], n, ts) && lfc[..286] == LitFreq(ts) && dfc[..30] == DistFreq(ts)
    modifies lfc, dfc, dBuf, lBuf
    ensures Buffered(dBuf[..], lBuf[..], n + 1, ts + [TokenOf(dist, lc)])
    ensures lfc[..286] == LitFreq(ts + [TokenOf(dist, lc)]) && dfc[..30] == DistFreq(ts + [TokenOf(dist, lc)])
  {
    hide LitFreq, DistFreq, LengthCode, DistanceCode, Tables.Valid, DCode;
    ghost var t := TokenOf(dist, lc);
    ghost var d0, l0, lf, df := dBuf[..], lBuf[..], lfc[..286], dfc[..30];
    TablesRight(tables);
    dBuf[n] := dist;
    lBuf[n] := lc;
    if dist == 0 {
      lfc[lc] := lfc[lc] + 1;
    } else {
      var d := dist - 1;
      var code := tables.lengthCode[lc];
      lfc[code + 257] := lfc[code + 257] + 1;
      var dc := DCode(tables.distCode, d);
      dfc[dc] := dfc[dc] + 1;
      assert dfc[..30] == Bump(df, DistanceCode(d));
    }
    assert lfc[..286] == Bump(lf, LitSymbol(t));
    assert dBuf[..] == d0[n := dist] && lBuf[..] == l0[n := lc];
    BufferedMore(d0, l0, ts, dist, lc);
    FreqMore(ts, t);
  }

  lemma TablesRight(tables: Tables)
    requires tables.Valid()
    ensures |tables.lengthCode| == 256 && |tables.distCode| == 512
    ensures forall l | 0 <= l < 256 :: tables.lengthCode[l] == LengthCode(l)
    ensures forall d | 0 <= d < 32768 :: DCode(tables.distCode, d) == DistanceCode(d)
  {
  }

  lemma BufferedMore(dBuf: seq<nat>, lBuf: seq<nat>, ts: seq<Token>, dist: nat, lc: nat)
    requires Buffered(dBuf, lBuf, |ts|, ts) && |ts| < |dBuf| && |ts| < |lBuf| && GoodToken(TokenOf(dist, lc))
    ensures Buffered(dBuf[|ts| := dist], lBuf[|ts| := lc], |ts| + 1, ts + [TokenOf(dist, lc)])
  {
  }

  lemma FreqMore(ts: seq<Token>, t: Token)
    requires AllGood(ts) && GoodToken(t)
    ensures AllGood(ts + [t]) && LitFreq(ts + [t]) == Bump(LitFreq(ts), LitSymbol(t))
    ensures DistFreq(ts + [t]) == match t case Literal(c) => DistFreq(ts) case Match(l, d) => Bump(DistFreq(ts), DistanceCode(d - 1))
  {
    hide LengthCode, DistanceCode;
    assert (ts + [t])[..|ts|] == ts;
  }

  lemma BufferedGood(dBuf: seq<nat>, lBuf: seq<nat>, n: nat, ts: seq<Token>)
    requires Buffered(dBuf, lBuf, n, ts)
    ensures AllGood(ts)
  {
  }

  lemma PlannedIsBuilt(ts: seq<Token>, ll: seq<nat>, dd: seq<nat>, cl: seq<nat>, n: nat, lops: seq<Op>, dops: seq<Op>,
                       trees: BlockTrees, eof: bool)
    requires Describes(ll, dd, cl, n, lops, dops) && AllCoded(ll, dd, ts) && Planned(trees, ts, n, ll, dd, cl, lops, dops)
    ensures IsBuilt(DynamicBits(ll, dd, cl, n, lops, dops, ts, eof), ts, eof)
    ensures IsDynamic(DynamicBits(ll, dd, cl, n, lops, dops, ts, eof), ts, eof)
  {
    hide TreesFor, Trim, OpsOf, IsDynamic, Describes, AllCoded, DynamicBits;
    assert IsBuiltWith(DynamicBits(ll, dd, cl, n, lops, dops, ts, eof), ts, eof, trees, n);
    BuiltIsDynamic(DynamicBits(ll, dd, cl, n, lops, dops, ts, eof), ts, eof);
  }

  lemma DynamicSize(ll: seq<nat>, dd: seq<nat>, cl: seq<nat>, n: nat, lops: seq<Op>, dops: seq<Op>, ts: seq<Token>, eof: bool)
    requires Describes(ll, dd, cl, n, lops, dops) && AllCoded(ll, dd, ts)
    ensures 257 <= |ll| <= 286 && 1 <= |dd| <= 30 && |cl| == 19 && 4 <= n <= 19 && OpsCoded(cl, lops) && OpsCoded(cl, dops)
    ensures |DynamicBits(ll, dd, cl, n, lops, dops, ts, eof)|
         == 3 + |HeaderBits(|ll|, |dd|, cl, n, lops, dops)| + |BlockBits(ll, dd, ts)|
  {
    hide AllCoded, BlockBits, HeaderBits, Usable, OpsCoded, Decodable, Grown;
  }

  lemma BuiltParts(ts: seq<Token>, lfc: seq<nat>, ldl: seq<nat>, dfc: seq<nat>, ddl: seq<nat>, bfc: seq<nat>, bdl: seq<nat>,
                   lMax: nat, dMax: nat, maxBlindex: nat, ll: seq<nat>, dd: seq<nat>, cl: seq<nat>, trees: BlockTrees)
    requires Built(ts, lfc, ldl, dfc, ddl, bfc, bdl, lMax, dMax, maxBlindex, ll, dd, cl, trees)
    ensures lMax + 1 < |ldl| && dMax + 1 < |ddl| && AllCoded(ll, dd, ts)
    ensures Describes(ll, dd, cl, maxBlindex + 1, OpsFor(ldl, lMax + 1), OpsFor(ddl, dMax + 1))
    ensures Planned(trees, ts, maxBlindex + 1, ll, dd, cl, OpsFor(ldl, lMax + 1), OpsFor(ddl, dMax + 1))
  {
    hide OpsFor, Describes, AllCoded, BlTree, Encodes, Planned, Small;
  }

  /** A flushed block delivers what its tokens stand for. */
  lemma OutcomeDelivers(form: Form, sent: seq<bool>, dynamic: seq<bool>, at: nat, ts: seq<Token>, buf: seq<byte>,
                        haveBuf: bool, storedLen: nat, eof: bool, level: nat, fixedOnly: bool, h: seq<byte>)
    requires AllCoded(FixedLengths(), FixedDistances(), ts)
    requires Outcome(form, sent, dynamic, at, ts, buf, haveBuf, storedLen, eof, level, fixedOnly)
    requires AllReach(h, ts) && (haveBuf ==> ExpandAll(h, ts) == h + buf)
    ensures Delivers(sent, at, h, ExpandAll(h, ts), eof)
  {
    hide SentAs, AllCoded, AllReach, ExpandAll, Delivers, Chosen;
    AnyFormDelivers(sent, form, at, ts, buf, eof, dynamic, h);
  }

  /** The form sent is no larger than any other that was available when a stored block is counted as the code counts it. What it
      really costs is the subject of module BlockSizes. */
  lemma SmallestAsCounted(form: Form, sent: seq<bool>, dynamic: seq<bool>, at: nat, ts: seq<Token>, buf: seq<byte>,
                     haveBuf: bool, storedLen: nat, eof: bool, level: nat)
    requires AllCoded(FixedLengths(), FixedDistances(), ts) && level > 0 && (haveBuf ==> |buf| == storedLen)
    requires Outcome(form, sent, dynamic, at, ts, buf, haveBuf, storedLen, eof, level, false)
    ensures var size := if form.Stored? then storedLen + 4 else (|sent| + 7) / 8;
      && size <= (|StaticBits(ts, eof)| + 7) / 8 && size <= (|dynamic| + 7) / 8 && (haveBuf ==> size <= storedLen + 4)
      && IsBuilt(dynamic, ts, eof)
  {
    hide AllCoded, BlockBits, FixedLengths, FixedDistances, TypeBits, IsDynamic, IsBuilt, StoredBits;
  }
}
