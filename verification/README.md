# The DEFLATE codec and fragment merging of CLucene, in Dafny

CLucene bundles zlib 1.2.3 in `src/ext/zlib`. This project models its compressor, its decompressor and its checksums as they are
written (window, hash chains, heap, tables, bit buffers and decoder state are arrays and fields that methods update) and proves that

- compressing any data, in any pieces, at any level, strategy, window and memory size, and decompressing the bytes, in any pieces
  and with any output space, gives the data back;
- at every level and strategy the tokens are the right ones: a literal only where the chains hold no match within the search limits or
  a longer one follows, and a match as long as any;
- each of the clever parts computes what its simple definition says: the sliced and combined CRC-32, the deferred Adler-32, the
  Huffman trees with their length limit, the two-level decoding tables, the run-length coded code lengths, the hash chains, the
  sliding window, the circular window and the fast decoding loop;
- the sizes the compressor compares are exact, for the very trees that it builds, and exactly when that comparison picks the smallest
  form of a block.

It also models the highlighter's merging of contiguous text fragments (`src/contribs-lib/CLucene/highlighter`).

## How it is laid out

Simple definitions come first, and the code is proved against them.

- Bits and numbers: `Bits` (xor, shifts and low bits on naturals), `Streams` (a byte sequence as a bit sequence), `Reversal`.
- Checksums: `Crc32`, `Adler32`, `Checking`.
- Huffman trees: `PairTree`, `Optimal`, `Heap`, `Forest`, `TreeBuilding`, `LengthLimit`, `CodeLengths`, `BitLengths`, `Canonical`,
  `GenCodes`.
- Decoding tables: `CodeOrder`, `SubTables`, `DecodeTables`, `InfTrees`, `Reading`.
- The decoder of sections 3.2.3 to 3.2.7 of RFC 1951, as an abstract machine that takes bits from a stream: `Inflation`. `Blocks`,
  `Headers`, `RunLength`, `Delivery` and `ZlibFormat` say which bits take it where; `FixedCodes`, `FormatNumbers` and `Wrapper` say
  it once more in the numbers of RFC 1950 and RFC 1951, without the definitions that both sides share.
- Sending blocks: `SendBits`, `StaticTables`, `Tally`, `Compress`, `SendTrees`, `FlushBlock`, `BlockText`, `BlockCoder`,
  `BlockSizes`, `StoredExample`.
- Finding matches: `Hashing`, `Matching`, `Sliding`, `Advancing`, `Searching`, `Covering`, `Deflater`; the whole of deflate():
  `Deflate`, `StreamBytes`. `Looking`, `Reasons` and `Choices` say what the searches mean for the data, and which tokens are chosen.
- The resumable decoder: `Simulation` (staying in step with the abstract machine), `Window`, `Inflate` (the states), `InfFast`,
  `Inflater` (the whole of inflate()).
- Both together: `RoundTrip`.
- The highlighter: `Fragments`.

A method's ghost parameters and fields hold what the source only has in mind: the data compressed so far, where the window lies in
it, which strings are in the hash chains, the machine that a decoder state stands for. All integers are unbounded; where the source's
16-bit and 32-bit arithmetic can be reached, the reduction is written out, and elsewhere the bounds are proved.

## Findings

Properties one might expect that the code does not have, each with its exact condition.

- `adler32_combine` (`src/ext/zlib/adler32.c:128-149`) returns 65521 where a half of the checksum of the concatenation is 0. It gives
  the checksum of the concatenation if and only if neither half comes out as 0, which can be told from the two checksums and the
  length: `Adler32.CombineIsConcatenation`; `Adler32.CombineMissesZero` has the data. Both halves are always right modulo 65521.
- `_tr_flush_block` (`src/ext/zlib/trees.c:957-981`) counts a stored block as its bytes and 4 more. Its 3-bit header and the padding
  cost another byte or two, so it may send a stored block although the fixed or dynamic codes are shorter by one byte, or by two if
  fewer than three bits are left in the last byte: `BlockSizes.SmallestInBytesIff`, `BlockSizes.SmallestInBitsIff`. Fifteen bytes for
  which it always does so are in `StoredExample.StoredIsNotSmallest`, and `StoredExample.SendSpread` sends them. The sizes of the other
  two forms are exact.
- The comment on `ENOUGH` (`src/ext/zlib/inftrees.h:36-43`) calls the table size found by a search that is not exhaustive. It is
  large enough for every set of lengths, so with 9 root bits `inflate_table` never returns 1 (`InfTrees.InflateTable`); the checks at `src/ext/zlib/inftrees.c:212` and `:280` never fire.
- `inflate_table` accepts a set of lengths that are all zero, for each of the three kinds, and the tables then answer every input with
  the invalid code (`src/ext/zlib/inftrees.c:117-124`). Over-subscribed sets are refused, and all other incomplete ones but a lone
  one-bit literal/length or distance code: `InfTrees.InflateTable`.
- `hash_head` keeps an old value when fewer than three bytes are ahead (`src/ext/zlib/deflate.c:1452`, `:1472-1474`). That is harmless:
  what `longest_match` finds there is never long enough to be used (`Matching.LongestMatch`, `Advancing.FindSlow`).
- The entry condition "state->bits < 8" in the comment on `inflate_fast` (`src/ext/zlib/inffast.c:46`) does not hold after a suspension
  inside a code. What holds, and is enough, is that fewer than 8 bits are held or that the held bits complete no code:
  `InfFast.InflateFast`.

## Model

| member | source | states |
|---|---|---|
| `RoundTrip.InflateUndoesDeflate` | src/ext/zlib/deflate.c:552-855 | once deflate has returned Z_STREAM_END, a decoder fed any beginning of its bytes, in any pieces and with any output space, has put out a beginning of the data; it can only end in DONE, never in an error, and then the output is the data and the check value has matched |
| `RoundTrip.InflateFinishes` | src/ext/zlib/inflate.c:1114-1153 | and it does end: a call that is given the rest of the bytes that the caller of deflate received, and returns with output space left, has reached DONE with all of the data |
| `RoundTrip.InflateKeepsUp` | src/ext/zlib/deflate.c:803-823 | after a partial, sync or full flush that left output space, a decoder given all bytes handed over so far, with space left, has put out all data compressed so far |
| `Deflate.Stream.constructor` | src/ext/zlib/deflate.c:216-310 | for every level 0..9, window bits 8..15, memory level 1..9, strategy and wrapper choice: a stream ready to compress, with nothing consumed, a window of 2 to the window bits, 8 becoming 9, and hash table, token buffer and search limits as the memory level and the level say |
| `Deflate.Stream.Deflate` | src/ext/zlib/deflate.c:552-855 | for any input, flush parameter and output space: what is consumed is appended to the data; the bytes handed over are as many as the space has shrunk and never taken back; Z_STREAM_END means that all has been handed over and decodes to exactly the data consumed; Z_OK means that the space is full, or else that all input is consumed, all that was sent is handed over, the flush was not Z_FINISH, after a partial, sync or full flush all consumed data can be decoded already, after the last two also from a byte boundary on, and after a full flush nothing read so far will be referred to; Z_BUF_ERROR comes if and only if there is no output space, or no input, nothing pending and no stronger flush than in the last call, or input after the end with room for what is pending; Z_STREAM_ERROR if and only if the stream was finished and the flush is not Z_FINISH; errors consume nothing |
| `Deflate.Stream.Begin` | src/ext/zlib/deflate.c:558-783 | the checks before compressing: exactly when a call is refused, as misused or with nothing to do, or ends because the space is full; pending bytes are handed over first |
| `Deflate.Stream.WriteHeader` | src/ext/zlib/deflate.c:622-649 | the stream stays in order: what is sent begins with the two header bytes, which the decoder accepts and `StreamBytes.HeaderTells` spells out for the rest of the stream |
| `Deflate.Stream.WriteTrailer` | src/ext/zlib/deflate.c:842-850 | completes the stream: the decoder ends well with all the data, and the last four bytes are the two sums of RFC 1950 over the data |
| `Deflate.Stream.Mark` | src/ext/zlib/deflate.c:803-817 | the empty block of a flush makes everything decodable, after a sync or full flush at a byte boundary; a full flush forgets the history |
| `StreamBytes.HeaderTells` | src/ext/zlib/deflate.c:622-649 | in every later state the first byte sent is 8 modulo 16, and 2 to its upper half plus 8 is the very window that the compressor uses; the two bytes are a multiple of 31 and ask for no dictionary; the upper two bits of the second tell the level as the source ranks it |
| `StreamBytes.DistancesWithinDeclaredWindow` | src/ext/zlib/deflate.c:1483-1484 | no match tallied, before or after the end of the stream, reaches further back than the window declared in the first byte, less 262 |
| `StreamBytes.TrailerTells` | src/ext/zlib/deflate.c:846-850 | the last four bytes of a complete wrapped stream, as two 16-bit numbers most significant byte first, are the two undeferred sums of its data modulo 65521, the second sum first |
| `Wrapper.HeaderDecides` | src/ext/zlib/inflate.c:589-633 | for any two bytes and whatever follows: the decoder is in error at once, without output, if they are no multiple of 31, have another method than 8 or a window above 32K; after any others it asks for the dictionary or begins with the blocks, as bit 5 of the second byte says |
| `Wrapper.CheckDecides` | src/ext/zlib/inflate.c:1077-1098 | after the last block the next four bytes decide: it ends well if they are the two sums of the output modulo 65521, and else in error |
| `Wrapper.DoneIff` | src/ext/zlib/inflate.c:1077-1116 | a wrapped stream ends well if and only if decoding comes to the end of its blocks with those four bytes next, and the output is what had been put out there |
| `Wrapper.OtherwiseBad` | src/ext/zlib/inflate.c:1090-1094 | with any other four bytes there it ends in an error |
| `ZlibFormat.StreamDecodes` | src/ext/zlib/inflate.c:589-633 | header, blocks, padding and trailer put together decode to what the blocks deliver, with or without wrapper (RFC 1950) |
| `ZlibFormat.MarkedDecodes` | src/ext/zlib/trees.c:892-915 | if the whole bytes sent end somewhere inside empty blocks, a decoder of them has put out everything before, and has come to no end |
| `Deflater.TokensExpandToData` | src/ext/zlib/deflate.c:1448-1674 | LZ77 preserves the data: between any two steps, for every input, split, level, strategy and size, the tokens tallied expand to all data but what is ahead and at most one waiting byte; no distance exceeds MAX_DIST and none reaches before the start |
| `Deflater.State.constructor` | src/ext/zlib/deflate.c:216-310 | the compressor's state satisfies the invariant at the start for every setting |
| `Deflater.State.DeflateFast` | src/ext/zlib/deflate.c:1448-1546 | keeps the invariant for any input and flush, which says that the tokens stand for the data and that each of them was the right choice (`Choices.GreedyLiterals`, `Choices.MatchIsLongest`); stops for want of input only without flush and with all input read; a finished block or stream stands for all data read, with nothing ahead |
| `Deflater.State.DeflateSlow` | src/ext/zlib/deflate.c:1554-1674 | the same with lazy evaluation (`Choices.LazyLiterals`, `Choices.MatchIsLongest`), where a literal or a match one byte back may be waiting between steps |
| `Choices.GreedyLiterals` | src/ext/zlib/deflate.c:1479-1533 | levels 1 to 3: where a literal was tallied, every earlier string that begins with the same three bytes, is near enough and not forgotten by a full flush, was out of reach, because as many later strings of its hash as the level allows came first; but for strings of which fewer than three bytes had been offered, and those inside a match too long to be inserted |
| `Choices.LazyLiterals` | src/ext/zlib/deflate.c:1583-1657 | levels 4 to 9: the same, or a match was found there and given up: because it is of length 3 and further back than 4096 or, with Z_FILTERED, no longer than 5, or because the search at the next byte found a longer one |
| `Choices.MatchIsLongest` | src/ext/zlib/deflate.c:1479-1625 | every match tallied is one of the strings looked at, and none of them agrees in more bytes, unless it has length 258 or goes to the end of what was read; with lazy evaluation the next byte has no longer one, unless the match was long enough not to look |
| `Choices.StrategiesAreKept` | src/ext/zlib/deflate.c:1489-1494 | with Z_HUFFMAN_ONLY no token is a match, with Z_RLE every distance is 1 |
| `Choices.FullFlushForgets` | src/ext/zlib/deflate.c:816-818 | no match tallied after a full flush reaches back behind it |
| `Deflater.ConfigurationInNumbers` | src/ext/zlib/deflate.c:137-151 | the search limits of the levels 1 to 9 |
| `Deflater.EffortRises` | src/ext/zlib/deflate.c:137-151 | a higher level of the same kind searches no less |
| `Deflater.State.DeflateStored` | src/ext/zlib/deflate.c:1390-1439 | level 0: every byte read is in a sent block or still in the window, blocks fit their length field, and the end stands for all data |
| `Deflater.State.FlushBlock` | src/ext/zlib/deflate.c:1360-1378 | the bits sent deliver the data up to strstart, whether or not the block's first byte is still in the window, the last block ends on a byte boundary, and the answer is whether the output space is used up |
| `Deflater.State.FlushPending` | src/ext/zlib/deflate.c:532-548 | hands over as much as there is space for: afterwards the space is used up or nothing is pending, and no byte is lost or repeated |
| `Deflater.State.Compress` | src/ext/zlib/deflate.c:133-151 | whichever function the level selects: the data grows by the input consumed and the state is ready for another call or closed |
| `Searching.Matcher.SearchSlow` | src/ext/zlib/deflate.c:1583-1614 | what the lazy search reports, if it beats the previous match, is a match in the data within MAX_DIST; and it has looked at all strings of the chains that may be longer, in terms of the data, unless the previous match is good enough |
| `Advancing.InsertNow` | src/ext/zlib/deflate.c:1469-1474 | the string at strstart joins its chain if three bytes are ahead; otherwise the old hash_head stays harmless |
| `Advancing.FindFast` | src/ext/zlib/deflate.c:1479-1496 | a length of three or more is a true match at a distance of at most MAX_DIST; if hash_head is near enough, no string of its chain, walked as far as the distance and the number allowed go or up to a nice match, has a longer one; with Z_RLE the same for the string one byte back; otherwise nothing is found |
| `Advancing.FindSlow` | src/ext/zlib/deflate.c:1583-1614 | the same for a length beyond the one to beat, if that is below max_lazy; the answer differs from the longest match found only by the filters for short matches |
| `Advancing.PassSlow` | src/ext/zlib/deflate.c:1621-1637 | all strings of a match that have three bytes are inserted, and no others, and the window stays a view of the data |
| `Advancing.PassFast` | src/ext/zlib/deflate.c:1505-1526 | all strings of a match that is not too long are inserted, if three bytes follow it, and otherwise none; the window stays a view of the data |
| `Looking.SoughtIsThorough` | src/ext/zlib/deflate.c:1479-1496 | what a search means for the data: the strings looked at are the latest ones that were inserted, in falling order; none that begins with the same three bytes, and is near enough, was passed by before the search was cut short; none agrees in more bytes than the answer says |
| `Sliding.FillWindow` | src/ext/zlib/deflate.c:1266-1358 | reading and sliding keep the window a view of the data: absolute positions of strstart, block_start, match_start and of every inserted string do not change, even where the fields drop below zero; chains and running hash stay right; the check value covers what was read; it stops with enough ahead or no input |
| `Sliding.Slide` | src/ext/zlib/deflate.c:1290-1322 | moving the upper half down and reducing head and prev keeps chains, positions and data, and drops just the positions that fall out |
| `Matching.LongestMatch` | src/ext/zlib/deflate.c:1027-1168 | a result beyond prev_length and of at least 3 is a match of that many bytes within MAX_DIST and no longer than what is ahead; no position visited on the chain matches longer; and the visit covers the chain up to the allowed number of positions unless the match is nice enough |
| `Matching.WalkedToTheEnd` | src/ext/zlib/deflate.c:1165-1166 | a walk that came to the end of its chain has visited every inserted position of the same hash that is near enough |
| `Matching.LongestMatchFast` | src/ext/zlib/deflate.c:1175-1224 | the same for a single candidate, which has no longer match than the answer |
| `Matching.MatchExpands` | src/ext/zlib/inflate.c:1046-1070 | copying a match byte by byte from its distance reproduces the bytes it covers, overlap included |
| `Hashing.InsertString` | src/ext/zlib/deflate.c:184-193 | keeps the chains complete: the new string is the head of its chain and linked to match_head, which is the latest string inserted before with the same hash, or 0 if there is none above position 0 |
| `Hashing.ChainWalk` | src/ext/zlib/deflate.c:1165-1166 | following head and prev above the limit visits strictly falling inserted positions whose three bytes have that hash |
| `Hashing.ChainedSlide` | src/ext/zlib/deflate.c:1305-1322 | a slide by w_size, saturating at zero, keeps the chains true and complete within the new window |
| `Hashing.ThirdByte` | src/ext/zlib/deflate.c:1126-1134 | two equal bytes and an equal hash force the third byte equal, for every hash size and shift in use, which longest_match relies on |
| `Hashing.RolledHash` | src/ext/zlib/deflate.c:164-170 | the rolling update forgets everything but the last three bytes |
| `BlockCoder.OutcomeDelivers` | src/ext/zlib/trees.c:921-1016 | whichever form a block is sent in, the bits take any decoder whose history the tokens reach into to the history expanded by the tokens, and to the next block or the end, whatever follows |
| `BlockCoder.Coder.FlushBlock` | src/ext/zlib/trees.c:921-1016 | the bits sent are those of the form that the comparison of exact sizes selects for the buffered tokens, where the dynamic form is the one that the trees built for their frequencies give; the buffers start over; the last block is padded to a byte |
| `BlockCoder.Coder.Tally` | src/ext/zlib/trees.c:1022-1067 | the buffers and all frequencies are those of the token list with one more token, and the answer says whether the buffer is full |
| `BlockCoder.SmallestAsCounted` | src/ext/zlib/trees.c:947-999 | with a stored block counted as its bytes and 4, the form sent is no larger than the fixed codes, the dynamic codes that are built for the block, or storing it |
| `BlockSizes.StoredSize` | src/ext/zlib/trees.c:867-881 | what a stored block really costs: 5 bytes more than its data, or 6 if fewer than three bits are left in the last byte |
| `BlockSizes.SmallestInBytesIff` | src/ext/zlib/trees.c:957-999 | the form sent is the smallest in bytes, against the fixed codes and the dynamic codes built for the block, if and only if it is not a stored block that the others beat by the bytes left out of the count; it misses by at most two bytes |
| `BlockSizes.SmallestInBitsIff` | src/ext/zlib/trees.c:957-999 | the same in bits, where rounding may also favour the fixed codes; it misses by at most 17 bits |
| `StoredExample.StoredIsNotSmallest` | src/ext/zlib/trees.c:968-981 | fifteen bytes at the start of a stream are sent stored in 20 bytes where the fixed codes take 19, whichever trees are built for them and at whatever level above 0 |
| `StoredExample.SpreadDynamic` | src/ext/zlib/trees.c:929-960 | with the trees built for them these bytes take at least 145 bits: 16 codes make a text of 64 bits or more, and 33 symbols describe them |
| `StoredExample.SendSpread` | src/ext/zlib/trees.c:921-1016 | tallied and flushed they do come out as those 20 bytes |
| `FlushBlock.BuildTrees` | src/ext/zlib/trees.c:929-960 | the three trees are those for the frequencies of the tokens and of the run-length symbols of their lengths; opt_len and static_len have grown by exactly the bits that the dynamic block with its header, and the fixed block, take |
| `BlockText.BuiltTextIsShortest` | src/ext/zlib/trees.c:929-960 | when neither tree was cut off at the limit, no usable pair of literal/length and distance codes, the fixed one included, encodes the tokens in fewer bits |
| `BlockText.TreeIsShortest` | src/ext/zlib/trees.c:619-701 | for one tree that was not cut off: no code for the symbols in use makes their text shorter, extra bits and forced symbols included |
| `Tally.BlockSize` | src/ext/zlib/trees.c:545-546 | for any codes, the sum of frequency times code length and extra bits is the number of bits of the encoded token list |
| `Tally.FreqTotals` | src/ext/zlib/trees.c:1022-1067 | the frequencies add up to the number of symbols sent, so the 16-bit counters hold |
| `Compress.CompressBlock` | src/ext/zlib/trees.c:1072-1117 | sends exactly the codes and extra bits of the tokens and the end of block symbol, for fixed and dynamic trees alike |
| `SendTrees.BuildBlTree` | src/ext/zlib/trees.c:803-831 | the code length code covers all symbols to be sent, trailing lengths left out are zero, and opt_len grows by exactly the size of the header |
| `SendTrees.SendAllTrees` | src/ext/zlib/trees.c:838-862 | sends the header bits that HeaderDecodes reads back |
| `Headers.HeaderDecodes` | src/ext/zlib/inflate.c:837-948 | the decoder reads a dynamic block's header back to the very lengths that it was made from, whatever follows |
| `Headers.OpsDecodeAll` | src/ext/zlib/inflate.c:876-923 | the decoder's code length loop turns run-length symbols and extra bits into the lengths they stand for |
| `RunLength.OpsDecode` | src/ext/zlib/trees.c:752-797 | the run-length symbols for any lengths expand to those lengths again, and every repeat count fits its field |
| `RunLength.ScanTree` | src/ext/zlib/trees.c:707-746 | adds to each symbol's frequency the number of times send_tree will send it |
| `RunLength.SendTree` | src/ext/zlib/trees.c:752-797 | sends just those symbols, in order, with their extra bits |
| `RunLength.RunsAreCoded` | src/ext/zlib/trees.c:752-797 | no run is left uncoded: among the symbols for any lengths no three zeros and no four equal lengths follow each other as they are, and a run of zeros or repetitions is only followed by more of them if it is as long as one can be |
| `Blocks.BlockDecodes` | src/ext/zlib/inflate.c:950-1076 | for every token list and any usable codes the encoded bits are read back to these tokens and the end of block; a distance before the start of the output is an error at that token |
| `Blocks.AppliedAllIs` | src/ext/zlib/inflate.c:1046-1076 | the tokens are accepted if and only if every distance stays inside the history, which then grows by their expansion; otherwise decoding fails at the first that does not |
| `SendBits.BitWriter.SendBits` | src/ext/zlib/trees.c:192-236 | appends the bits, lowest first, across the 16-bit buffer |
| `SendBits.BitWriter.BiWindup` | src/ext/zlib/trees.c:1178-1191 | pads with zeros to a whole byte and nothing more |
| `StaticTables.TrStaticInit` | src/ext/zlib/trees.c:238-315 | the generated tables give every length and distance its code of section 3.2.5 of RFC 1951, and the fixed codes are, reversed, those of section 3.2.6: 48 + s in 8 bits for s up to 143, 400 + (s - 144) in 9 to 255, s - 256 in 7 to 279, 192 + (s - 280) in 8 to 287, and five-bit distances |
| `FixedCodes.FixedSymbol` | src/ext/zlib/inflate.c:789-987 | behind the three bits of a block of type 1 the decoder reads a symbol with those bits as that literal, the end of the block or that length, and refuses the two that are no lengths |
| `FixedCodes.FixedDistance` | src/ext/zlib/inflate.c:1000-1024 | in the same block five bits, first bit highest, are read as that distance symbol, and the two that are none are refused |
| `FormatNumbers.LengthNumbers` | src/ext/zlib/inftrees.c:60-65 | the shortest length and the extra bits of every length symbol, by formula |
| `FormatNumbers.DistanceNumbers` | src/ext/zlib/inftrees.c:66-74 | the same for distance symbols |
| `FormatNumbers.LengthSymbol` | src/ext/zlib/trees.c:258-275 | the symbol that a length is sent with is the one whose range it lies in, and 285 for 258 only |
| `FormatNumbers.DistanceSymbol` | src/ext/zlib/trees.c:275-290 | the same for distances |
| `FormatNumbers.OrderNumbers` | src/ext/zlib/inflate.c:574-575 | the lengths of the code length code come for 16, 17, 18, 0 and then outwards from 8 |
| `FormatNumbers.TypeNumbers` | src/ext/zlib/inflate.c:773-806 | what the three bits in front of a block mean, and that type 3 is refused |
| `FormatNumbers.StoredNumbers` | src/ext/zlib/inflate.c:807-819 | the four bytes of a stored block are accepted if and only if the second two are the complements of the first two, and then the length is those, least significant byte first |
| `FormatNumbers.TableNumbers` | src/ext/zlib/inflate.c:837-854 | the three counts of a dynamic block, and that more than 286 or 30 symbols are refused |
| `FormatNumbers.RepeatNumbers` | src/ext/zlib/inflate.c:876-923 | a code length symbol below 16 is a length, 16 repeats the last one 3 to 6 times and is an error at the beginning, 17 and 18 stand for 3 to 10 and 11 to 138 zeros; what does not fit is an error |
| `FormatNumbers.StreamOfADecodes` | src/ext/zlib/inflate.c:554-1153 | the bytes 78 9C 4B 04 00 00 62 00 62, which are zlib's for "a", decode to it |
| `GenCodes.BuildTree` | src/ext/zlib/trees.c:619-701 | for any frequencies: at least two symbols have codes, lengths within the limit with Kraft sum exactly one and canonical codes; the lengths are the depths of a tree that joins the two least frequent nodes until one is left, of the frequencies with exactly the symbols forced that the source forces; without overflow they are optimal, with overflow they are the repaired counts given out so that no symbol's code is longer than one's that was taken off the heap before it; rarer symbols never have shorter codes; opt_len and static_len grow by the exact cost, forced symbols cancelling out |
| `GenCodes.OptimumBeatsPrefixCodes` | src/ext/zlib/trees.c:619-701 | optimal means: no prefix-free assignment of codewords to the used symbols, whatever the codewords, makes the text shorter |
| `GenCodes.OptimumBeats` | src/ext/zlib/trees.c:619-701 | nor do any lengths that satisfy the Kraft inequality |
| `GenCodes.GenCodes` | src/ext/zlib/trees.c:577-609 | every symbol with a length gets the bit-reversed canonical code of section 3.2.2 of RFC 1951 |
| `Canonical.CanonicalIsPrefixFree` | src/ext/zlib/trees.c:577-609 | with a Kraft sum of at most one, no code is the beginning of another |
| `Canonical.LastCodeIsAllOnes` | src/ext/zlib/trees.c:592-597 | with a Kraft sum of one the last code consists of ones |
| `Optimal.LowerBoundStep` | src/ext/zlib/trees.c:667-690 | if the merged weights cannot cost less than c, the weights before merging the two least cannot cost less than c plus their sum |
| `Optimal.PrefixCodesAreFeasible` | src/ext/zlib/trees.c:577-609 | the lengths of any prefix-free list of codewords satisfy the Kraft inequality |
| `BitLengths.GenBitlen` | src/ext/zlib/trees.c:490-567 | turns the tree's father links into a complete code within the limit, optimal if nothing overflowed, ordered by the heap if something did, with exact bookkeeping |
| `LengthLimit.RepairCounts` | src/ext/zlib/trees.c:543-556 | the repair loop takes exactly overflow/2 turns, always finds a shorter length to move, keeps the number of leaves, ends with Kraft sum one, and leaves the counts that moving the longest movable code each time gives |
| `Heap.PqDownHeap` | src/ext/zlib/trees.c:455-480 | restores the heap order of frequency and depth from position k on and only rearranges |
| `TreeBuilding.TreeBuilder.BuildForest` | src/ext/zlib/trees.c:619-692 | the two least frequent nodes are joined until one is left; every node is kept once, sons before fathers, in order of frequency |
| `InfTrees.InflateTable` | src/ext/zlib/inftrees.c:32-329 | refuses exactly the over-subscribed and the incomplete sets (none, and a lone one-bit code, excepted); otherwise every input is answered by root and at most one sub-table with the symbol whose canonical code it begins with and that code's length, or with the invalid code if none does; with the 9 root bits in use it never runs out of table space, whatever the lengths |
| `Reading.TableReads` | src/ext/zlib/inflate.c:951-966 | for the bits held in the accumulator: the entry found is longer than them if and only if they are too short to tell the symbol, and else it is the symbol that the stream says |
| `CodeOrder.NextCode` | src/ext/zlib/inftrees.c:241-263 | canonical codes in sorted order: the next is one more, with zeros appended where the length grows |
| `Reversal.IncIsNext` | src/ext/zlib/inftrees.c:241-251 | adding one to a code is the backward increment of its reversal |
| `Reversal.BackIncrement` | src/ext/zlib/inftrees.c:241-251 | the loop computes that backward increment |
| `Inflation.NextProper` | src/ext/zlib/inflate.c:554-1153 | every step of the decoder takes only bits that are there and keeps its state well-formed, for arbitrary input |
| `Inflation.RunInParts` | src/ext/zlib/inflate.c:554-1153 | decoding a stream in two parts is decoding it whole |
| `Inflater.State.constructor` | src/ext/zlib/inflate.c:144-185 | a new decoder stands for the machine at the start of a stream |
| `Inflater.State.Inflate` | src/ext/zlib/inflate.c:554-1153 | for any input and output space, valid stream or not: the decoder goes on standing for the machine that has read the input consumed, the bytes written are what its output grew by, only the given space is written, it stops only at an end or for want of input or space, and the status says which; a call that has two bytes which are no header, in the numbers of `Wrapper.HeaderDecides`, answers Z_DATA_ERROR and writes nothing |
| `Inflater.Determined` | src/ext/zlib/inflate.c:554-1153 | whatever the calls were, the output is a beginning of what the whole input determines, and an end reached is the one it determines |
| `Inflater.Complete` | src/ext/zlib/inflate.c:554-1153 | a call that returns with output space left has done all that its input allows |
| `Inflater.CutsDoNotMatter` | src/ext/zlib/inflate.c:554-1153 | two decoders fed the same stream in different pieces end alike, with the same output, and until then one's output is a beginning of the other's |
| `Inflater.MakeFixed` | src/ext/zlib/inflate.c:205-237 | whatever bits follow, the tables find the symbol whose bits in section 3.2.6 of RFC 1951 the input begins with, and its length |
| `Inflate.DecodeSymbol` | src/ext/zlib/inflate.c:951-966 | pulling bytes one at a time reads the symbol that the stream says, holding fewer than 8 bits more than needed |
| `Inflate.StepType` | src/ext/zlib/inflate.c:773-806 | block types and the alignment after the last block, in step with the machine |
| `Inflate.StepCodeLens` | src/ext/zlib/inflate.c:876-923 | the code length loop, suspended anywhere, stays in step with the machine; bad repeats end in an error |
| `Inflate.StepMatch` | src/ext/zlib/inflate.c:1046-1070 | copying from the window or the output, a piece at a time, extends the output as the match says, however often it is suspended |
| `InfFast.InflateFast` | src/ext/zlib/inffast.c:67-302 | the unrolled loop is a number of steps of the same machine: same output, same outcome, the same input position after unused bytes are given back, at most avail_in read and avail_out written |
| `InfFast.FastCopy` | src/ext/zlib/inffast.c:147-255 | the three circular-window cases and the overlapping copies by threes write what byte-by-byte copying would |
| `Window.CircularWindow.UpdateWindow` | src/ext/zlib/inflate.c:323-371 | the window goes on recording the last output bytes, for any amount copied |
| `Window.ReadBack` | src/ext/zlib/inflate.c:323-371 | read from its oldest byte around its end, the window is the last whave bytes of all output in order; until it is full it has not wrapped |
| `Crc32.MakeCrcTable` | src/ext/zlib/crc32.c:106-167 | all eight tables hold the shift register's answers for one byte followed by zeros, the second four with bytes reversed |
| `Crc32.Crc32Bytewise` | src/ext/zlib/crc32.c:219-253 | the byte loop equals the one-bit shift register of section 8 of RFC 1952 |
| `Crc32.ChecksumOfA` | src/ext/zlib/crc32.c:219-253 | for the byte "a" that is e8b7be43 |
| `Crc32.Crc32Little` | src/ext/zlib/crc32.c:262-289 | so does the little-endian form, four bytes at a time, for every start value, length and alignment |
| `Crc32.Crc32Big` | src/ext/zlib/crc32.c:302-331 | and the big-endian form |
| `Crc32.Gf2MatrixTimes` | src/ext/zlib/crc32.c:342-356 | the loop over the vector's bits is the sum of the columns it selects |
| `Crc32.TimesIsShift` | src/ext/zlib/crc32.c:342-356 | a matrix whose columns are n shifts of the unit vectors shifts any vector n times |
| `Crc32.Gf2MatrixSquare` | src/ext/zlib/crc32.c:359-367 | squaring the operator for n zero bits gives the one for 2n |
| `Crc32.CombineIsConcatenation` | src/ext/zlib/crc32.c:370-423 | shifting the first checksum by the second's length and adding the second is the checksum of the concatenation |
| `Crc32.CombineChecksums` | src/ext/zlib/crc32.c:370-423 | crc32_combine computes that by repeated squaring, for every length |
| `Adler32.Adler32` | src/ext/zlib/adler32.c:57-125 | the deferred sums give the bytewise checksum of section 2.2 of RFC 1950 and never exceed 32 bits |
| `Adler32.NmaxIsLargest` | src/ext/zlib/adler32.c:12-14 | NMAX is the largest number of bytes for which that bound holds |
| `Adler32.LimitIsReached` | src/ext/zlib/adler32.c:12-14 | and bytes of 255 reach the bound |
| `Adler32.Adler32Combine` | src/ext/zlib/adler32.c:128-149 | the two conditional subtractions reduce both halves into 1..65521 |
| `Adler32.CombinedHalvesAreConcatenation` | src/ext/zlib/adler32.c:128-149 | the halves computed modulo 65521 are those of the concatenation |
| `Adler32.CombineIsConcatenation` | src/ext/zlib/adler32.c:128-149 | the result is the checksum of the concatenation if and only if neither half is 0; the halves are congruent to it always |
| `Adler32.CombineMissesZero` | src/ext/zlib/adler32.c:146-148 | data for which it is not |
| `Fragments.MergeContiguousFragments` | src/contribs-lib/CLucene/highlighter/Highlighter.cpp:399-468 | terminates; no survivor follows another; each fragment ends in exactly one survivor, whose span is the concatenation of its parts in order and whose score is their maximum; a survivor sits where one of its best-scoring parts was; with an empty first place nothing changes |
| `Fragments.NeighboursMeet` | src/contribs-lib/CLucene/highlighter/Highlighter.cpp:399-468 | for non-empty fragments that share no beginning or end, two are neighbours in a survivor if and only if one follows the other, so the survivors are the longest unbroken stretches whatever the order of the array |
| `Fragments.MergePair` | src/contribs-lib/CLucene/highlighter/Highlighter.cpp:417-460 | a comparison either shows that neither fragment follows the other and changes nothing, or leaves one fragment less with all of the above kept |

## Left out

- gzip headers and trailers, `gzio.c` and the gzip streams: plumbing around the codec.
- Preset dictionaries, `deflateParams`, `deflateTune`, `deflatePrime`, `inflatePrime`, `inflateSync`, `inflateCopy`, `deflateCopy`:
  they change level, history or position from outside; the theorems are about streams on which they are not called.
- `Z_BLOCK`, and window sizes below 32K in the decoder: inflate is modelled with windowBits 15, as `inflateInit` sets it.
- Deflate.Stream.Deflate: the bytes sent stay in one sequence of which the caller has received a beginning; that pending_buf is large
  enough for what is not yet handed over is not stated.
- GenCodes.BuildTree: which of several nodes of the same frequency is joined first (the source prefers the shallower one, and the heap
  decides the rest) is left open; every theorem holds for each order.
- The overlay of `pending_buf` on the token buffers, and that the bytes of a block never overtake the tokens still to be read
  (`src/ext/zlib/trees.c:1111`): the buffers are arrays of their own.
- Which of one or two empty blocks `_tr_align` sends depends on the length of the last code; both are considered. The guess of the
  data type (`set_data_type`) influences nothing and is not modelled.
- Inflater.State.Inflate: `next_in` and `next_out` are positions in sequences and arrays; null pointers, total counters and
  allocation failures are not modelled.
- Matching.LongestMatch: the comparison unrolled by eight is one loop, and positions are integers, so the wrap-around of unsigned
  subtraction is not modelled; `match_start` may be negative after a slide.
- Crc32.CombineChecksums, Adler32.Adler32Combine: negative lengths, for which `crc32_combine` would not end, are not considered.
- Crc32.Crc32Little: the address of the buffer counts by its low two bits only.
- Inflater.CutsDoNotMatter: the statements are about output and terminal outcome; the status of a single call depends on the space
  it was given.
- Fragments.MergeContiguousFragments: scores are reals (only their order matters), deleted fragments are just out of the array.
- `compressBound`, `deflateBound`: constants without an argument for arbitrary input.
- Build variants (FASTEST, UNALIGNED_OK, NO_DIVIDE, INFLATE_STRICT, MAKEFIXED, TRUNCATE_BLOCK), `deflate_rle`, which is not compiled,
  and the literal tables in `crc32.h`, `trees.h` and `inffixed.h`, which their generators replace here.
- The rest of CLucene: index, search, analysis, and the parts of the highlighter that choose and mark fragments.
