/** When the form that _tr_flush_block of src/ext/zlib/trees.c chooses for a block is the smallest in what is really sent. The code
    takes a stored block to cost its bytes and four more; it costs five or six more, with the three header bits and the padding. */
module BlockSizes {
  import opened Bits
  import opened PairTree
  import opened CodeLengths
  import opened Canonical
  import opened Streams
  import opened DecodeTables
  import opened InfTrees
  import opened Reading
  import opened Inflation
  import opened SendBits
  import opened Blocks
  import opened Headers
  import opened Delivery
  import opened BlockCoder
  import opened RunLength

  /** The bytes that a block of so many bits takes up. */
  function Bytes(bits: nat): nat {
    (bits + 7) / 8
  }

  /** What a stored block of n bytes costs from bit `at` on. */
  lemma StoredSize(at: nat, buf: seq<byte>, eof: bool)
    requires |buf| < 65536
    ensures |StoredBits(at, buf, eof)| == 35 + Padding(at + 3) + 8 * |buf|
    ensures Bytes(|StoredBits(at, buf, eof)|) == |buf| + if at % 8 <= 5 then 5 else 6
  {
    hide LsbBits, BitsOf, TypeBits, Zeros, Padding, Bytes;
    RoundedUp(at, |buf|);
  }

  lemma RoundedUp(at: nat, n: nat)
    ensures Bytes(35 + Padding(at + 3) + 8 * n) == n + if at % 8 <= 5 then 5 else 6
  {
    hide Padding;
    PaddingOf(at + 3);
    var p := Padding(at + 3);
    assert (35 + p + 8 * n + 7) / 8 == n + (42 + p) / 8;
  }

  /** The numbers that the choice is made from. */
  predicate StoredWins(haveBuf: bool, storedLen: nat, stat: nat, dyn: nat) {
    haveBuf && storedLen + 4 <= InBytes(stat) && storedLen + 4 <= InBytes(dyn)
  }

  /** No form that was available is smaller, in bytes that it takes up. */
  ghost predicate SmallestInBytes(sent: seq<bool>, dynamic: seq<bool>, at: nat, stat: seq<bool>, buf: seq<byte>, haveBuf: bool, eof: bool)
    requires |buf| < 65536
  {
    && Bytes(|sent|) <= Bytes(|stat|) && Bytes(|sent|) <= Bytes(|dynamic|)
    && (haveBuf ==> Bytes(|sent|) <= Bytes(|StoredBits(at, buf, eof)|))
  }

  ghost predicate SmallestInBits(sent: seq<bool>, dynamic: seq<bool>, at: nat, stat: seq<bool>, buf: seq<byte>, haveBuf: bool, eof: bool)
    requires |buf| < 65536
  {
    && |sent| <= |stat| && |sent| <= |dynamic|
    && (haveBuf ==> |sent| <= |StoredBits(at, buf, eof)|)
  }

  /** A choice, by its sizes: stat and dyn are what the code counts, without the three header bits. */
  lemma Choice(form: Form, sent: seq<bool>, dynamic: seq<bool>, at: nat, ts: seq<Token>, buf: seq<byte>,
               haveBuf: bool, storedLen: nat, eof: bool, level: nat, stat: nat, dyn: nat)
    requires AllCoded(FixedLengths(), FixedDistances(), ts) && level > 0 && (haveBuf ==> |buf| == storedLen < 65536)
    requires Outcome(form, sent, dynamic, at, ts, buf, haveBuf, storedLen, eof, level, false)
    requires stat == |StaticBits(ts, eof)| - 3 && dyn == |dynamic| - 3
    ensures IsBuilt(dynamic, ts, eof) && (form.Stored? <==> StoredWins(haveBuf, storedLen, stat, dyn))
    ensures form.Static? <==> !form.Stored? && InBytes(stat) <= InBytes(dyn)
    ensures |sent| == match form
                      case Stored => 35 + Padding(at + 3) + 8 * storedLen
                      case Static => stat + 3
                      case Dynamic => dyn + 3
    ensures form.Stored? ==> haveBuf
  {
    hide AllCoded, BlockBits, FixedLengths, FixedDistances, TypeBits, IsBuilt, StoredBits, Padding;
    if haveBuf {
      StoredSize(at, buf, eof);
    }
  }

  /** In bytes, the form that is sent is the smallest one if and only if it is not a stored block that another form beats by the one
      or two bytes that the code does not count. */
  lemma SmallestInBytesIff(form: Form, sent: seq<bool>, dynamic: seq<bool>, at: nat, ts: seq<Token>, buf: seq<byte>,
                           haveBuf: bool, storedLen: nat, eof: bool, level: nat, stat: nat, dyn: nat)
    requires AllCoded(FixedLengths(), FixedDistances(), ts) && level > 0 && |buf| < 65536
      && (haveBuf ==> |buf| == storedLen)
    requires Outcome(form, sent, dynamic, at, ts, buf, haveBuf, storedLen, eof, level, false)
    requires stat == |StaticBits(ts, eof)| - 3 && dyn == |dynamic| - 3
    ensures IsBuilt(dynamic, ts, eof)
    ensures SmallestInBytes(sent, dynamic, at, StaticBits(ts, eof), buf, haveBuf, eof) <==>
      !(StoredWins(haveBuf, storedLen, stat, dyn)
        && (InBytes(stat) < storedLen + (if at % 8 <= 5 then 5 else 6) || InBytes(dyn) < storedLen + if at % 8 <= 5 then 5 else 6))
    ensures Bytes(|sent|) <= Bytes(|StaticBits(ts, eof)|) + 2 && Bytes(|sent|) <= Bytes(|dynamic|) + 2
    ensures at % 8 <= 5 ==> Bytes(|sent|) <= Bytes(|StaticBits(ts, eof)|) + 1 && Bytes(|sent|) <= Bytes(|dynamic|) + 1
  {
    hide AllCoded, StaticBits, FixedLengths, FixedDistances, StoredBits, Padding, Outcome, IsBuilt;
    Choice(form, sent, dynamic, at, ts, buf, haveBuf, storedLen, eof, level, stat, dyn);
    StoredSize(at, buf, eof);
    PaddingOf(at + 3);
  }

  lemma PaddingOf(n: nat)
    ensures Padding(n) == if n % 8 == 0 then 0 else 8 - n % 8
  {
  }

  /** In bits, too: a stored block must be no longer than the others with its own header and padding, and the fixed codes must not
      have won by the rounding to bytes alone. What is missed is at most 17 bits. */
  lemma SmallestInBitsIff(form: Form, sent: seq<bool>, dynamic: seq<bool>, at: nat, ts: seq<Token>, buf: seq<byte>,
                          haveBuf: bool, storedLen: nat, eof: bool, level: nat, stat: nat, dyn: nat)
    requires AllCoded(FixedLengths(), FixedDistances(), ts) && level > 0 && |buf| < 65536
      && (haveBuf ==> |buf| == storedLen)
    requires Outcome(form, sent, dynamic, at, ts, buf, haveBuf, storedLen, eof, level, false)
    requires stat == |StaticBits(ts, eof)| - 3 && dyn == |dynamic| - 3
    ensures IsBuilt(dynamic, ts, eof)
    ensures SmallestInBits(sent, dynamic, at, StaticBits(ts, eof), buf, haveBuf, eof) <==>
      if StoredWins(haveBuf, storedLen, stat, dyn)
      then 8 * storedLen + 32 + (13 - at % 8) % 8 <= stat && 8 * storedLen + 32 + (13 - at % 8) % 8 <= dyn
      else InBytes(stat) <= InBytes(dyn) ==> stat <= dyn
    ensures |sent| <= |StaticBits(ts, eof)| + 17 && |sent| <= |dynamic| + 17
  {
    hide AllCoded, StaticBits, FixedLengths, FixedDistances, StoredBits, Padding, Outcome, IsBuilt;
    Choice(form, sent, dynamic, at, ts, buf, haveBuf, storedLen, eof, level, stat, dyn);
    StoredSize(at, buf, eof);
    PaddingOf(at + 3);
  }

  lemma StaticParts(ts: seq<Token>, eof: bool)
    requires AllCoded(FixedLengths(), FixedDistances(), ts)
    ensures |StaticBits(ts, eof)| == 3 + |BlockBits(FixedLengths(), FixedDistances(), ts)|
  {
    hide BlockBits, FixedLengths, FixedDistances, AllCoded, TypeBits;
  }
}
