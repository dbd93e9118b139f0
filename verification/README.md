# Verified model of the bzip2 and zlib codecs

This project models the compression library in `dep/bzip2`, and from `dep/zlib` the string matching of deflate, the sending of its blocks,
inflateBack and the two checksums. It proves that they are lossless, stage by stage and as a whole.

**bzip2.** The compressor takes in bytes, stores runs in a shortened form, sorts the cyclic rotations of each block, keeps the last column,
recodes it by move-to-front with run coding, chooses among up to six Huffman tables for every fifty symbols, and packs
the result into bits. The decompressor undoes each step. Every stage is a method in the form the source has (arrays
changed in place, bit buffers, explicit stacks, resumable state), and is proved against a specification that says what the stage means,
not how it is computed:

- sorting: the order is a permutation sorted by rotation, where equal rotations may stand in any order; the main sorter reaches it as long as its
  budget lasts, and the fallback sorter always;
- the inverse transform restores the block for every such order, also for periodic blocks;
- the segmented move-to-front table refines a plain list, packed cost sums refine plain sums, the 20-bit link form refines the direct inverse;
- code lengths are optimal among all prefix codes, and the construction terminates;
- what is sent for a block is read back bit for bit, and the rest of the stream is left alone;
- over all sequences of calls with buffers of any size, no byte of input is lost, doubled or reordered.

The two ends meet in one predicate, `BuffToBuff.Encodes`: compression returns data that encodes its source, and decompression returns
the content of any data that encodes one.

**zlib.** Deflate finds repetitions through hash chains over a sliding window and tallies literals and matches; expanding what it tallies gives
back the bytes it consumed, for both its fast and its lazy form and over any sequence of calls. Inflate builds two-level decoding tables from code
lengths; they take any bits to the symbol whose canonical code begins them. Its two decoding loops, the tested one and the fast one, turn the
bits of a coded block into the text its tokens stand for, and around them inflateBack reads stored, fixed and dynamic blocks. The fast one accepts some
distances that reach back further than there is text; `InflateStream.Inflate` says exactly when a stream reported as complete is a valid one. The shared vocabulary is
`Lz77` for tokens and `InflateStream.StreamHere` for bits. Sending any block, in any of its three forms, keeps the invariant `DeflateStream.Writes`: inflate
reads what has been sent, whatever is sent after it. Output and tokens share one buffer, and the code does not look whether the output comes to a token before
it is read. With the fixed codes that never happens if and only if no distance is above 256 (`DeflateSpoiled.InTimeIff`, with inputs on which it does). So
`ZlibRoundTrip.RoundTrip`: deflate with the fixed codes and then inflateBack give back every input, unless a token is lost in this way; none is with the
smallest window.
CRC-32 and Adler-32 are defined bit by bit and byte by byte, and the table-driven, word-wise and
deferred forms and the formulas for joining two checksums agree with those definitions.

The modules follow the source files: `Fallback*`, `SortArea`, `Main*`, `ShellSort`, `PairBuckets`, `SameRun` and `Bucket*` (blocksort.c), `Huffman*`, `PrefixCodes` and
`CanonicalCode` (huffman.c), `MtfEncode`, `TableChoice`, `CodingTables`, `BlockEncoder` (compress.c), `MtfTable`, `MtfDecode`, `BwtDecode`, `BwtSmall`, `BlockDecoder` (decompress.c),
`InputBlock`, `RunOutput`, `Compressor`, `Decompressor`, `BuffToBuff` (bzlib.c); `BlockBody` and the format modules hold both directions of one format side by side.
For zlib: `RollingHash`, `HashChains`, `DeflateText`, `Deflate` (deflate.c), `DeflateCodes`, `CodePlaces`, `NextCodes`, `SymbolSort`, `TableLayout`, `InflateTable` (inftrees.c),
`InflateBits`, `InflateSource`, `BackWindow`, `InflateBack`, `InflateHeader`, `InflateStream` (infback.c), `InflateFast` (inffast.c), `DeflateSender`, `DeflateChunks`, `DeflateTrees`,
`DeflateOverlay`, `DeflateClear`, `DeflateSpoiled`, `DeflateHeads`, `DeflateStream` (trees.c), `Crc32`, `Adler`; `Lz77`, `DeflateTokens` and `DeflateBlocks` say what tokens and blocks mean.

## Model

| member | source | states |
|---|---|---|
| FallbackQuickSort.SimpleSort | dep/bzip2/blocksort.c:30-66 | Sorts a range of the order array by class, moving no entry outside the range and leaving a rearrangement of the range. |
| FallbackQuickSort.Partition | dep/bzip2/blocksort.c:132-166 | Around any class present in the range: entries below, equal to and above it end up in three consecutive parts, nothing else moves; a range of equal classes is reported as done. |
| FallbackQuickSort.QSort3 | dep/bzip2/blocksort.c:92-182 | Sorts any range by class for every choice of pivots, terminates, and never has more ranges waiting than the source's stack of 100 holds. |
| FallbackInitial.PlacePositions | dep/bzip2/blocksort.c:237-248 | After the one-byte radix pass the order is a permutation of the positions, sorted by first byte, and the counts have become bucket starts. |
| FallbackPass.MarkHeads | dep/bzip2/blocksort.c:303-308 | Rescanning a sorted bucket sets a header bit exactly where the key of twice the depth changes. |
| FallbackPass.FindBucket | dep/bzip2/blocksort.c:282-299 | The word-at-a-time bit scan finds exactly the next bucket with more than one entry, or that there is none. |
| FallbackPass.Pass | dep/bzip2/blocksort.c:269-313 | One pass turns an order by the first H bytes with exact bucket bits into an order by the first 2H bytes with exact bucket bits; the count of unresolved entries is zero only if all buckets are single. |
| FallbackSort.Reconstruct | dep/bzip2/blocksort.c:324-332 | Handing out the counted bytes in sorted order gives the original block back. |
| FallbackSort.Sort | dep/bzip2/blocksort.c:211-329 | For every block: the order array ends as a permutation of the positions sorted by cyclic rotation, and the byte view of the class array holds the original block again. |
| Rotations.SortedKeysMeans | dep/bzip2/blocksort.c:184-197 | Lexicographic order of rotations and numeric order of their base-256 keys are the same order, equal rotations included. |
| Bwt.RowFollows | dep/bzip2/decompress.c:559-573 | In sorted order, the row that the inverse permutation leads to holds the rotation that follows, byte for byte, although equal rotations may have traded places. |
| Bwt.WalkRecovers | dep/bzip2/decompress.c:524-573 | Walking the inverse permutation of the last column from the row of the block gives the block, for every block, periodic ones included. |
| BwtDecode.BuildCftab | dep/bzip2/decompress.c:487-519 | The three range checks accept exactly the counts whose running sums fit the block, and then yield the running sums. |
| BwtDecode.CountsAccepted | dep/bzip2/decompress.c:491-519 | Counts taken from an actual column are always accepted, and their sums are its bucket starts. |
| BwtDecode.BuildFast | dep/bzip2/decompress.c:559-566 | Adding links above the bytes in one array yields the inverse permutation and keeps every byte. |
| BwtDecode.GetFast | dep/bzip2/bzlib_private.h:444-456 | Fetches the byte and the link at the position, or reports a position outside the block area. |
| BwtSmall.SetLink | dep/bzip2/bzlib_private.h:458-470 | Writing a 20-bit link into the 16-bit and 4-bit arrays changes that link and no other. |
| BwtSmall.BuildSlots | dep/bzip2/decompress.c:529-536 | Links written over the bytes they are computed from form the sorted-slot permutation of the column. |
| BwtSmall.ReverseCycle | dep/bzip2/decompress.c:538-547 | Reversing only the cycle through the original row, in place, makes following the links meet the same rows as the inverse permutation; the loop ends. |
| BwtSmall.IndexIntoF | dep/bzip2/bzlib.c:687-698 | The binary search finds the bucket that an index falls in. |
| BwtSmall.SmallAgrees | dep/bzip2/bzlib_private.h:472-479 | The bucket of the slot reached by the reversed links is the column byte one step on: the SMALL form delivers what the FAST form does. |
| BlockSource.InverseUnique | dep/bzip2/decompress.c:524-566 | A column has exactly one inverse permutation, so both constructions build the same one. |
| BlockSource.RestoredIs | dep/bzip2/decompress.c:524-573 | From a column and row that a block transforms to, the inverse transform restores that block. |
| BlockSource.BlockStore.Link | dep/bzip2/decompress.c:487-573 | Any column that was received can be linked up, in either form; byte by byte the store then delivers the restored block. |
| BlockSource.BlockStore.Get | dep/bzip2/bzlib_private.h:444-479 | The next byte of the block, in either form; a block in place never reads as corrupt. |
| HuffmanHeap.UpHeap | dep/bzip2/huffman.c:32-41 | Raising a node restores the heap order and keeps the nodes in the heap. |
| HuffmanHeap.DownHeap | dep/bzip2/huffman.c:43-59 | Sinking a node restores the heap order and keeps the nodes in the heap. |
| HuffmanTree.DepthsOptimal | dep/bzip2/huffman.c:95-112 | Merging two lightest trees until one is left gives depths no other workable lengths beat, and they fill the code space exactly. |
| HuffmanTree.HeightWeight | dep/bzip2/huffman.c:82-112 | A node of height h weighs at least the h-th Fibonacci number. |
| HuffmanLengths.BuildTree | dep/bzip2/huffman.c:82-112 | The heap loop builds a tree in which every merge joined two lightest open nodes, the depth in the low bits only breaking ties. |
| HuffmanLengths.TooLongShrinks | dep/bzip2/huffman.c:123-147 | If a length is too long, scaling the weights down makes their total smaller. |
| HuffmanLengths.MakeCodeLengths | dep/bzip2/huffman.c:63-148 | For 2 to 258 symbols with total below 2^23: terminates with all lengths in 1..maxLen, filling the code space exactly and optimal for the weights of the last round; a round of scaling only happens if the total reaches Fibonacci maxLen+1. |
| PrefixCodes.PrefixFreeFits | dep/bzip2/huffman.c:63-148 | Kraft's inequality: the codes of any prefix code fit the code space. |
| PrefixCodes.BeatsPrefixCodes | dep/bzip2/huffman.c:63-148 | The lengths computed cost no more than those of any prefix code for the same weights. |
| CanonicalCode.PrefixFree | dep/bzip2/huffman.c:152-166 | No canonical code is a prefix of another. |
| CanonicalCode.AssignCodes | dep/bzip2/huffman.c:152-166 | Every symbol gets its canonical code. |
| CanonicalCode.CreateDecodeTables | dep/bzip2/huffman.c:170-204 | limit, base and perm describe the canonical code of the lengths. |
| CanonicalCode.ReadSymbol | dep/bzip2/decompress.c:75-101 | If the unread bits start with a symbol's code, that symbol is read and exactly its bits are consumed. |
| CanonicalCode.LimitTest | dep/bzip2/decompress.c:88-101 | The bits read so far fall under the limit at the length of the symbol's code and at no shorter length. |
| BitStream.BitWriter.W | dep/bzip2/compress.c:54-78 | Appends exactly the low n bits of the value; the buffer never holds more than 32 bits. |
| BitStream.BitWriter.Finish | dep/bzip2/compress.c:45-54 | Writes out everything, padded with fewer than eight bits. |
| BitStream.BitReader.GetBits | dep/bzip2/decompress.c:44-66 | Reads the next n bits, or reports that input ran out with nothing lost. |
| BitStream.BitsAppend | dep/bzip2/compress.c:71-78 | A number built from two parts has the bits of both, in order. |
| MtfEncode.MakeMaps | dep/bzip2/compress.c:104-114 | Bytes in use are numbered by rank. |
| MtfEncode.MoveToFront | dep/bzip2/compress.c:194-209 | The shifting scan moves the byte to the front and returns where it stood. |
| MtfEncode.PutRun | dep/bzip2/compress.c:171-187 | A run of any length is written as its bijective base-two digits. |
| MtfEncode.GenerateMtfValues | dep/bzip2/compress.c:118-230 | Overwriting the sorted order from the front, the symbols written are the move-to-front encoding of the column; there are at most nblock+1 of them, their frequencies are exact, and no entry is overwritten before it is read. |
| MtfTheory.RunValueOfDigits | dep/bzip2/decompress.c:377-400 | Reading the run digits gives back the run length, for every length. |
| MtfTheory.DecodeEncode | dep/bzip2/decompress.c:375-486 | Decoding the symbols of any list of byte numbers gives that list back. |
| MtfTheory.SymbolsInRange | dep/bzip2/compress.c:157-230 | Every symbol is at most the end mark, which comes last and only there. |
| MtfTable.Initialize | dep/bzip2/decompress.c:358-369 | The sixteen segments start as the identity list. |
| MtfTable.Repack | dep/bzip2/decompress.c:461-471 | Packing the segments against the top again does not change the list they hold. |
| MtfTable.FirstSegment | dep/bzip2/decompress.c:423-474 | Between symbols the first segment starts within 1..3840. |
| MtfTable.MtfList.Take | dep/bzip2/decompress.c:423-474 | For every index, both the short and the general case do to the segmented table exactly what moving an entry to the front does to a plain list of 256; segments never overlap. |
| MtfDecode.ReadRun | dep/bzip2/decompress.c:377-400 | Reads the whole run; the overflow guard never fires on a run that fits a block. |
| MtfDecode.ReadColumn | dep/bzip2/decompress.c:353-486 | If the stream holds the symbols of a column, that column is stored, its byte counts are exact, and the bits behind it are left; any other stream is read without leaving the block area. |
| MtfDecode.DecodesToColumn | dep/bzip2/decompress.c:375-486 | The symbols the compressor makes from a column decode to that column. |
| Selectors.PicksOfRanks | dep/bzip2/decompress.c:296-308 | Selectors come back from their places in the move-to-front list. |
| Selectors.RankSelectors | dep/bzip2/compress.c:454-472 | Every selector is replaced by its place. |
| Selectors.PickSelectors | dep/bzip2/decompress.c:296-308 | Every place is replaced by its selector. |
| TableChoice.InitialTables | dep/bzip2/compress.c:288-339 | Every symbol starts out cheap in exactly one table, and the tables own consecutive symbols. |
| TableChoice.PairCost | dep/bzip2/compress.c:381-416 | Adding packed words adds both 16-bit sums: they equal the plain sums of the two tables. |
| TableChoice.GroupCosts | dep/bzip2/compress.c:369-424 | The fast and the slow way both give the bits each table needs for the group. |
| TableChoice.ChooseTables | dep/bzip2/compress.c:354-480 | Each group of fifty gets the first of the cheapest tables, there are at most 18002 groups, and the frequencies count exactly the symbols each table codes. |
| CodingTables.BuildTables | dep/bzip2/compress.c:342-495 | After four rounds every table is a best fit for the symbols the last choice of selectors gave it. |
| MappingTable.SendMapping | dep/bzip2/compress.c:493-520 | Sends the flags of used groups and of the bytes in them. |
| MappingTable.ReadMapping | dep/bzip2/decompress.c:248-266 | Reads the flags back. |
| TableFormat.SendTable | dep/bzip2/compress.c:535-547 | Sends the lengths of a table as steps from one to the next. |
| TableFormat.ReadTable | dep/bzip2/decompress.c:310-325 | Reads the lengths back; every length accepted is within 1..20. |
| TableFormat.ReadSelectors | dep/bzip2/decompress.c:280-294 | On any bits and on every way out: stores exactly the selector places whose unary codes lie complete and acceptable at the front of the bits, up to the number announced, each below the number of tables, and touches no other entry; it succeeds exactly if that is all of them, and then uses up exactly their bits. |
| BlockCodes.SendCodes | dep/bzip2/compress.c:551-594 | Every symbol is sent with the code of the table selected for its group. |
| BlockCodes.SymbolSource.GetMtfVal | dep/bzip2/decompress.c:75-101 | Reads the symbols back one by one, changing tables every fifty. |
| BlockBody.SendMtfValues | dep/bzip2/compress.c:236-598 | For every column: the bits sent are the mapping table, selectors, tables and codes of a valid plan for it. |
| BlockBody.ReceiveBody | dep/bzip2/decompress.c:248-486 | A column sent by any valid plan is read back, and exactly its bits are consumed. |
| BlockEncoder.BlockSort | dep/bzip2/blocksort.c:1031-1089 | Sorts the rotations, leaves the block in place, and finds the row that holds the block itself. |
| BlockEncoder.SendBlock | dep/bzip2/compress.c:602-650 | The bits sent for a block hold that block and its checksum. |
| BlockDecoder.ReceiveBlock | dep/bzip2/decompress.c:218-573 | Bits that hold a block give it back: afterwards the store delivers exactly its bytes. |
| RunLength.UnpackPack | dep/bzip2/bzlib.c:216-329 | Expanding stored runs gives back the bytes they stand for, for all runs in all orders the compressor can store. |
| InputBlock.InputBlock.AddPairToBlock | dep/bzip2/bzlib.c:215-247 | Stores the pending run as up to four copies and a count, marks its bytes, and feeds the checksum. |
| InputBlock.InputBlock.AddChar | dep/bzip2/bzlib.c:258-283 | The bytes accepted grow by exactly the one taken in, whichever branch applies; the block never exceeds nblockMAX+4. |
| InputBlock.InputBlock.FlushRL | dep/bzip2/bzlib.c:250-256 | The pending run is stored without changing what was accepted; the block never exceeds nblockMAX+9. |
| RunOutput.RunOutput.ScanRun | dep/bzip2/bzlib.c:625-661 | Finds the next run of the block: up to three equal bytes, or four and a count. |
| RunOutput.RunOutput.UnRleFast | dep/bzip2/bzlib.c:600-682 | For every amount of room: the bytes put out continue the expansion of the block, stopping only when the room or the block is used up. |
| RunOutput.RunOutput.UnRleSmall | dep/bzip2/bzlib.c:704-804 | The same for the SMALL form, which stops as soon as there is no room. |
| StreamFormat.ContentPush | dep/bzip2/bzlib.c:360-400 | What a stream stands for is what its blocks stand for, in order. |
| Compressor.EState.CopyInputUntilStop | dep/bzip2/bzlib.c:288-329 | Takes in bytes in order until the block is full or the input is used up, keeping the expected count in step. |
| Compressor.EState.CopyOutputUntilStop | dep/bzip2/bzlib.c:332-356 | Hands over bytes in order until the room or the block is used up. |
| Compressor.EState.CompressBlock | dep/bzip2/compress.c:602-666 | Adds the block to the stream; the last one is followed by the trailer with the combined checksum. |
| Compressor.EState.HandleCompress | dep/bzip2/bzlib.c:359-401 | Terminates; input taken in equals, in order, what is in sent blocks, in the current block and pending; progress is reported exactly when there was some. |
| Compressor.EState.Compress | dep/bzip2/bzlib.c:404-464 | Over all runs of calls with any buffers: STREAM_END is returned only when a complete stream for exactly the accepted input has been handed over; a flush that is done has sent everything accepted; calls out of order are refused. |
| Decompressor.ReadHeader | dep/bzip2/decompress.c:187-203 | Reads the header back, or reports that it is not one. |
| Decompressor.ReadNext | dep/bzip2/decompress.c:207-241 | Reads the next block of a stream, or its end. |
| Decompressor.DState.OutputIsPrefix | dep/bzip2/bzlib.c:807-857 | Whatever has been put out so far is the beginning of what the stream stands for. |
| Decompressor.DState.Decompress | dep/bzip2/bzlib.c:807-857 | For a stream of any blocks and any output room: no error is ever reported, the checksums agree, and STREAM_END comes exactly when everything has been put out. |
| BuffToBuff.Compress | dep/bzip2/bzlib.c:1246-1295 | What is returned with OK encodes the source; room for three times the source and 6460 bytes always suffices. |
| BlockSize.HoldsSize | dep/bzip2/compress.c:236-598 | A block takes at most 18 bits a byte and 51540 more. |
| BlockSize.FitsBehind | dep/bzip2/compress.c:618-665 | The bits of a block, with the header of the stream, its trailer and the bits held back, fit the area behind the block that they are put into. |
| Compressor.EState.OutSize | dep/bzip2/bzlib.c:359-401 | What has been handed over is no more than the blocks of the accepted input come to, all of which but the last before a flush or the end were full. |
| BuffToBuff.Decompress | dep/bzip2/bzlib.c:1298-1369 | Data that encodes some content gives that content back in both forms, or reports that it does not fit. |
| MainCompare.MainGtU | dep/bzip2/blocksort.c:345-475 | For every two positions: answers rightly whether the first rotation is greater, from bytes and quadrant values together, whatever the quadrants not yet known; nothing at or beyond nblock+34 is read, and the comparison ends for equal rotations too. |
| MainSimpleSort.SimpleSort | dep/bzip2/blocksort.c:484-556 | The shell sort leaves the range sorted by rotation, or gives up once the budget is spent, with the entries only rearranged. |
| MainPartition.Partition | dep/bzip2/blocksort.c:652-705 | Splits a range by the byte at depth d into smaller, equal and larger entries, each in consecutive places, with nothing else moved. |
| MainQuickSort.QSort3 | dep/bzip2/blocksort.c:618-718 | A range whose rotations agree in their first bytes ends sorted by rotation unless the budget runs out; the explicit stack never overflows. |
| PairBuckets.InitialBuckets | dep/bzip2/blocksort.c:769-830 | After the two-byte radix pass the order is a permutation sorted by the first two bytes, the table holds the start of every small bucket, and the overshoot repeats the block. |
| MainSort.RunningOrder | dep/bzip2/blocksort.c:832-860 | The shell sort of the big buckets lists all 256 of them, from the least full on. |
| MainSort.ScanBig | dep/bzip2/blocksort.c:911-946 | Scanning a sorted big bucket from both ends fills every small bucket [t, ss] completely and in rotation order, its own included. |
| MainSort.UpdateQuadrants | dep/bzip2/blocksort.c:987-1004 | The quadrant values written keep the promise the comparison relies on: where bytes agree, a smaller value means an earlier rotation, in the overshoot too. |
| BucketResult.SweepEnds | dep/bzip2/blocksort.c:923-944 | The two scans meet: what each wrote is the whole bucket, also when the bucket is the whole block. |
| MainSort.Sort | dep/bzip2/blocksort.c:750-1011 | If it ends with budget left, the order is a permutation sorted by cyclic rotation, for every block. |
| BlockBody.BoundedSelectors | dep/bzip2/decompress.c:280-308 | The decoder stores no more selectors than there are places for, whatever bits follow, exactly if the number announced is at most 18002. For a larger number what follows decides: it overflows if more than 18002 codes are there and acceptable. |
| BlockBody.SelectorsBeyond | dep/bzip2/decompress.c:280-308 | A stream that overflows: 18003 announced and 18003 zero bits behind it, for any number of tables; the decoder takes all 18003 and stores one too many. |
| BlockBody.PlanInBounds | dep/bzip2/compress.c:433-452 | On the bits the compressor sends for any column, the decoder stores exactly the places of the selectors sent, at most 18002 of them. |
| RollingHash.RolledGives | dep/zlib/deflate.c:160-167 | The hash rolled over three bytes or more depends on the last three only. |
| RollingHash.ThirdByteEqual | dep/zlib/deflate.c:1236-1250 | Two strings with equal hashes and equal first two bytes have equal third bytes: the reason why the third is never compared. |
| HashChains.ChainsInsert | dep/zlib/deflate.c:169-191 | Inserting a string keeps the invariant of the hash chains and adds just its position to what they reach. |
| HashChains.ChainsSlide | dep/zlib/deflate.c:1418-1441 | Sliding the window keeps the invariant of the hash chains; positions that fall out of the window are no longer reached. |
| Lz77.CopyIsRepeat | dep/zlib/deflate.c:1356-1381 | Copying back over a stretch of text that repeats an earlier one gives that text, also where the copy overlaps itself. |
| Deflate.DeflateState.constructor | dep/zlib/deflate.c:1106-1137 | A new compressor satisfies the invariant under which all the following holds. |
| Deflate.DeflateState.InsertString | dep/zlib/deflate.c:169-191 | Enters the string at a position into its chain and returns the previous head of the chain. |
| Deflate.DeflateState.FillWindow | dep/zlib/deflate.c:1390-1513 | Reads on, sliding the window when needed; window and chains go on describing the same text, and nothing of it is lost. |
| Deflate.DeflateState.LongestMatch | dep/zlib/deflate.c:1148-1289 | Visits the hash chain from the first candidate on, entry by entry, as long as the next one is within reach, and stops only at its end, after as many tries as the level allows (a quarter if the previous match is good), or at the first match that is nice or as long as the lookahead. The match returned is a true repetition of that length within reach, and no candidate visited gives a longer one. |
| Deflate.DeflateState.FlushBlockOnly | dep/zlib/deflate.c:1538-1549 | Hands on exactly the tokens tallied since the last block. |
| Deflate.DeflateState.DeflateFast | dep/zlib/deflate.c:1628-1722 | Expanding all tokens tallied gives exactly the bytes consumed; every match has length 3 to 258 and a distance within MAX_DIST. |
| Deflate.DeflateState.DeflateSlow | dep/zlib/deflate.c:1730-1853 | The same with lazy matching, less the one literal held back while match_available. |
| Deflate.DeflateState.Lossless | dep/zlib/deflate.c:1628-1853 | Whatever sequence of calls led there: the tokens stand for the text consumed, less a literal held back. |
| Deflate.DeflateState.NoneAcross | dep/zlib/deflate.c:926-934 | Whatever sequence of calls led there: the tokens since the last full flush stand by themselves for the bytes since then, and no match among them reaches back further than to the flush. |
| Deflate.DeflateState.Deflate | dep/zlib/deflate.c:903-905 | The function for the level takes in what there is; only a final flush ends the stream, and a block that is done leaves nothing pending. |
| Deflate.DeflateState.ForgetHistory | dep/zlib/deflate.c:926-934 | After a full flush the history is cut where the text read so far ends: nothing waits in the block, and no position remains in the hash chains. |
| DeflateCodes.FirstCodeAt | dep/zlib/inftrees.c:76-104 | The codes of each length begin where the shorter ones end in the code space. |
| DeflateCodes.KraftIs | dep/zlib/inftrees.c:76-104 | Adding the shares of the code space symbol by symbol or length by length gives the same. |
| CodePlaces.LeadsOnce | dep/zlib/inftrees.c:76-87 | No bits begin with two codes. |
| CodePlaces.SomeLeads | dep/zlib/inftrees.c:130-138 | If the codes fill the code space, all bits begin with one. |
| NextCodes.NextCode | dep/zlib/inftrees.c:241-250 | Counting a code up from its last bit gives the next code as it will arrive, over any change of length. |
| NextCodes.SubTableBits | dep/zlib/inftrees.c:268-276 | The look-ahead finds a table size that every code with the same first bits fits. |
| SymbolSort.CheckLengths | dep/zlib/inftrees.c:130-138 | Tells an over-subscribed set of lengths from one that fits, and how much of the code space is left. |
| SymbolSort.SortSymbols | dep/zlib/inftrees.c:140-147 | The offsets sort the symbols by length and, within a length, by symbol. |
| TableLayout.FillKeeps | dep/zlib/inftrees.c:232-239 | Writing the copies of one entry disturbs no code entered before. |
| TableLayout.LinkKeeps | dep/zlib/inftrees.c:259-288 | The link to a new table falls on an entry that no code entered before leads to. |
| InflateTable.DepthIs | dep/zlib/inftrees.c:268-276 | The second table has exactly as many index bits as the longest code in it needs. |
| InflateTable.InflateTable | dep/zlib/inftrees.c:32-306 | Returns -1 exactly for over-subscribed lengths and for incomplete ones other than a single one-bit length or distance code, 1 exactly if the tables outgrow their room, and otherwise 0 with tables, within the entries from the first to the last one made and these within the room, that take any bits to the symbol whose canonical code begins them, using up just that code, and any other bits to the invalid entry; entries before them stay as they were. |
| InflateSource.BitSource.Lookup | dep/zlib/infback.c:492-508 | Finds the symbol the coming bits begin with, through one table or two, uses up exactly its code, fails only if the input ends within it, and takes in no byte too early. |
| InflateSource.BitSource.LookupFast | dep/zlib/inffast.c:120-131 | With 15 bits held, the untested lookup finds the same entry. |
| InflateSource.BitSource.TakeBits | dep/zlib/infback.c:180-199 | Extra bits are the lowest of the bits to come, however the input is cut into pieces. |
| BackWindow.Window.CopyMatch | dep/zlib/infback.c:585-604 | A match copied within the circular window, through any number of times round, is the repetition of the output it stands for. |
| BackWindow.Window.CopyFast | dep/zlib/inffast.c:185-281 | The same without tests of room: right for every match that reaches back no further than there is output, and accepted exactly if the distance is at most the place of the next byte and what is noted as filled together. |
| InflateBack.Inflater.DecodeToken | dep/zlib/infback.c:481-604 | Decodes the token the bits begin with; whatever the bits, what is put out is the token they spell, and its distance reaches back no further than there is output. |
| InflateFast.GiveBack | dep/zlib/inffast.c:309-324 | Bytes taken in too early go back to the input, and the bits to come are the same as before. |
| InflateFast.InflateFast | dep/zlib/inffast.c:67-324 | On bits that code a block, the untested loop decodes as the tested one does and never reads beyond the piece of input at hand. On any bits it spells out tokens, and puts out what they stand for unless a distance reaches back too far; with a window of at most 258 bytes none does. |
| InflateFast.FastToken | dep/zlib/inffast.c:107-307 | One token: a match is accepted exactly if its distance is at most out - beg plus whave. |
| InflateFast.LimitIs | dep/zlib/infback.c:482-489 | That limit is what is within reach exactly where nothing has been put out since the window last went round. |
| InflateFast.AcceptsTwoBack | dep/zlib/inffast.c:186-195 | Elsewhere it is more: behind one byte of output, in any window of more than 258 bytes, a match of distance 2 is accepted. |
| InflateBack.Inflater.DecodeBlock | dep/zlib/infback.c:481-604 | A block of coded tokens is decoded to the end, in whatever pieces the input comes: its text has been put out, and exactly its bits are used up. Conversely, where the end is reported the bits used up were codes of the block, each with its extra bits, and the code for the end; their text has been put out, if no distance reaches back too far. |
| DeflateTokens.TokenCoded | dep/zlib/inftrees.c:60-73 | Every literal and every match of 3 to 258 bytes at most 32768 back has a length and distance symbol with extra bits. |
| DeflateBlocks.BlockGivesText | dep/zlib/infback.c:481-604 | Coded tokens that stand for a text, read by inflate with any pair of codes, give that text. |
| InflateTable.BuiltCut | dep/zlib/inftrees.c:190-305 | No bits lead to an entry behind the tables, so that others may be built there. |
| InflateHeader.ReadShort | dep/zlib/infback.c:376-383 | Reads the lengths of the code for lengths, in the order of the format; those not sent are 0. |
| InflateHeader.ReadLengths | dep/zlib/infback.c:397-444 | Reads coded lengths, repeats and runs of zeros up to the number announced: what it stores is what the items found unroll to, and any items that lie there are the ones found. |
| InflateHeader.MakeTables | dep/zlib/infback.c:449-479 | Builds both tables of a block, the second behind the first in one array, exactly if the block can end, neither set of lengths is refused and the tables fit; then each is good for its code. |
| InflateHeader.ReadHead | dep/zlib/infback.c:358-478 | Accepts the head of a dynamic block exactly if one lies at the bits to come, uses up exactly its bits, and has the tables for its two codes. |
| InflateStream.FixedTables | dep/zlib/infback.c:82-123 | The fixed codes fill the code space and need no second tables; their tables are good for them. |
| InflateStream.ReadStored | dep/zlib/infback.c:326-356 | Succeeds exactly on a stored block: at the next whole byte its length, the complement of that, and so many bytes, which it copies through the window however input and window cut them. |
| InflateStream.ReadBlock | dep/zlib/infback.c:292-481 | Any block that lies at the bits to come, of any of the three types, is decoded to its end, and told whether it is the last; where it reports success, the bits used up were such a block, put out right if no distance in it reaches back too far. |
| InflateStream.StreamEnds | dep/zlib/infback.c:287-618 | A stream of blocks stands for the texts of its blocks one after the other. |
| InflateStream.Inflate | dep/zlib/infback.c:250-630 | Every valid stream of blocks, in whatever pieces it arrives and whatever the size of the window, is decoded to its end with exactly its text put out. Conversely, where the end is reported the bits used up were blocks of the format, with codes that may be used, and just the last one marked so; they were a valid stream, and their text is what has been put out, exactly if no distance in them reaches back too far. With a window of at most 258 bytes that is always so. |
| DeflateSender.Sender.SendBits | dep/zlib/trees.c:213-226 | Over the 16-bit buffer: what has been put out and what is held back are together exactly the numbers sent, the first lowest; bytes go out two at a time, and nothing in the buffer changes behind them. |
| DeflateSender.Sender.Flush | dep/zlib/trees.c:1169-1181 | Puts out whole bytes held back and changes nothing of what has been sent. |
| DeflateSender.Sender.FlushPending | dep/zlib/deflate.c:642-662 | Hands over as many of the bytes pending as there is room for; none is lost or doubled, and where room is left nothing is pending. |
| DeflateSender.Sender.WindUp | dep/zlib/trees.c:1186-1199 | Fills up the last byte with fewer than eight zero bits. |
| DeflateSender.Sender.CopyBlock | dep/zlib/trees.c:1205-1226 | From the next whole byte on: the length, its complement, and the bytes. |
| DeflateTrees.BiReverse | dep/zlib/trees.c:1154-1164 | Gives the low bits of a code in the opposite order. |
| DeflateTrees.GenCodes | dep/zlib/trees.c:575-608 | Gives every symbol the canonical code for its length, reversed; none outgrows its length, so that sixteen bits hold it. |
| DeflateTrees.StaticTables.constructor | dep/zlib/trees.c:256-288 | For every match length and every distance up to 32768 the tables lead to the last code that begins in time; 258 gets the code of its own. |
| DeflateTrees.StaticTables.DCode | dep/zlib/deflate.h:305-306 | One table of 512 entries, indexed by the distance or by its part above seven bits, gives the code of every distance. |
| DeflateTrees.StaticLTree | dep/zlib/trees.c:290-301 | The fixed tree holds the canonical codes of the fixed lengths. |
| DeflateTrees.StaticDTree | dep/zlib/trees.c:303-307 | Numbering the fixed distance codes gives the canonical codes of their lengths. |
| DeflateChunks.FormIs | dep/zlib/trees.c:1060-1105 | The symbols and extra bits chosen for a match stand for just that match, and the extra bits fit. |
| DeflateOverlay.CompressBlock | dep/zlib/trees.c:1060-1105 | The tokens are read from the buffer that output is put into. They are sent, with the end of the block, exactly if the output comes to no entry before it is read; else the ones before the first such entry have been sent, and the output is past it. |
| DeflateOverlay.EntryWritten | dep/zlib/deflate.c:301-313 | Writing the three bytes of an entry changes that token and no other. |
| DeflateClear.FixedTotal | dep/zlib/trees.c:1070-1105 | The size of a block with the fixed codes is the sum of what its tokens take. |
| DeflateClear.FixedSizeBound | dep/zlib/deflate.c:229-231 | With the fixed codes a token takes at most 24 bits if its distance is at most 256, and never more than 31. |
| DeflateClear.FewInTime | dep/zlib/trees.c:1098-1100 | Half a buffer of tokens, with whatever distances, is read before the output comes to it. |
| DeflateSpoiled.InTimeIff | dep/zlib/trees.c:1098-1100 | With the fixed codes every block of fewer tokens than the buffer has entries is read as it was tallied if and only if no distance may be above 256. |
| DeflateSpoiled.EntryIs | dep/zlib/trees.c:1070-1105 | In a block of equal matches, what is read where the output has come to an entry are the sixteen bits put out there. |
| DeflateSpoiled.NearSpoiled | dep/zlib/trees.c:1070-1105 | In a block of matches of length 140 at distance 257 the distance read there is never 257. |
| DeflateSpoiled.FarSpoiled | dep/zlib/trees.c:1070-1105 | 127 matches of length 258 at distance 20000, in the smallest buffer: the output comes to token 104, and the distance read is 34767. |
| DeflateChunks.BlockSent | dep/zlib/trees.c:1060-1105 | With any codes that give every symbol needed a length: the bits sent for tokens that reach back no further than there is text are a block inflate can read, and it leads to the text the tokens stand for and to what was sent next. |
| DeflateHeads.TreeItemsFlat | dep/zlib/trees.c:750-795 | The run-length form of the lengths of a tree unrolls to just these lengths, and never repeats a length before there is one. |
| DeflateHeads.SendTree | dep/zlib/trees.c:750-795 | Sends exactly that form. |
| DeflateHeads.SendAllTrees | dep/zlib/trees.c:836-859 | Sends the counts, the code for lengths and both trees. |
| DeflateHeads.HeadSent | dep/zlib/trees.c:836-859 | The head that was sent is the one inflate reads, and what was sent next follows it. |
| DeflateStream.StoredSends | dep/zlib/trees.c:865-876 | A stored block that was sent is one that inflate reads, wherever in a byte it begins. |
| DeflateStream.CodedSends | dep/zlib/trees.c:972-993 | So is one with the fixed codes, and one with codes of its own. |
| DeflateStream.FlushBlock | dep/zlib/trees.c:907-1004 | Whichever of the three forms is chosen, it fits the buffer; if its tokens are read in time, what has been sent is then a stream for the text so far and the text of the block, and behind the last block a complete one. A stored block is always right, one with codes exactly if the output comes to no entry before it is read. |
| DeflateStream.Unpack | dep/zlib/infback.c:250-630 | inflateBack gives back the text of any complete stream, whatever pieces it arrives in. |
| Deflate.DeflateState.Tally | dep/zlib/deflate.h:323-339 | A token entered behind those tallied, where nothing is pending, leaves them and all that has been put out as they are. |
| Deflate.DeflateState.SendBlock | dep/zlib/deflate.c:1538-1549 | Sends the current block, from the window as long as that holds all of it; what has been sent then stands for all text up to the current position, unless a token was lost, which happens exactly if some block that went out with the fixed codes was not read in time. |
| Deflate.DeflateState.LostOnly | dep/zlib/deflate.c:228-231 | A token was lost exactly if the tokens of some block sent with the fixed codes were not all read before the output came to them; that takes a window larger than 512 bytes, and more than half a buffer of text. |
| Deflate.DeflateState.MarkFlush | dep/zlib/deflate.c:923-930 | A flush is marked by an empty block, stored or with the fixed codes, that inflate reads as such; or not at all for Z_BLOCK. |
| Deflate.DeflateState.Call | dep/zlib/deflate.c:665-957 | Any call of deflate, with any flush: no input is lost, and Z_STREAM_END is returned only when the last block has been sent and all of it handed over. A call that is to finish and has room ends the stream or leaves less to do. |
| Deflate.DeflateState.StreamSent | dep/zlib/deflate.c:903-945 | Once deflate has finished, the bytes handed over are a complete stream for all the input, unless a token was lost. |
| ZlibRoundTrip.RoundTrip | dep/zlib/deflate.c:665-957 | For every input in any calls with any flushes, level from 1 to 9, window and memory size, however little room for output there is at a time: with the fixed codes deflate ends, and inflateBack gives exactly the input back unless a token was lost, which is so exactly if some block was not read in time. None is lost with a window of 512 bytes, nor with an input of at most 2^(memLevel+5) bytes. |
| PrefixCodes.SameCode | dep/zlib/trees.c:575-608 | Where every symbol has a code, the canonical codes of deflate and of bzip2 are the same. |
| Adler.Fold28Is | dep/zlib/adler32.c:29-39 | The reduction by shifts agrees with the remainder for every value below 2^28. |
| Adler.Fold32Is | dep/zlib/adler32.c:40-44 | And for every 32-bit value. |
| Adler.Fold63Is | dep/zlib/adler32.c:45-57 | And for every value of 63 bits. |
| Adler.Adler32 | dep/zlib/adler32.c:65-132 | For every buffer the deferred sums, which never exceed 32 bits, give the checksum defined byte by byte. |
| Adler.Combine | dep/zlib/adler32.c:135-162 | From the checksums of two strings and the length of the second comes the checksum of the two joined. |
| Crc32.MakePoly | dep/zlib/crc32.c:95-108 | The list of powers gives the polynomial used everywhere else. |
| Crc32.CrcTable.constructor | dep/zlib/crc32.c:94-137 | Row k of the tables gives the register left by each byte and k zero bytes, and row k + 4 the same with its bytes in the opposite order. |
| Crc32.FeedIsZeros | dep/zlib/crc32.c:48-72 | Feeding bits one at a time and adding them all at once before shifting give the same register. |
| Crc32.Crc32Bytes | dep/zlib/crc32.c:200-231 | The table-driven form gives the checksum defined bit by bit. |
| Crc32.Crc32Little | dep/zlib/crc32.c:240-278 | So does the form that takes four bytes at a time, from any address on. |
| Crc32.Crc32Big | dep/zlib/crc32.c:275-320 | And so does the form for machines that read words in the opposite byte order, which keeps the register in that order. |
| Crc32.Gf2MatrixSquare | dep/zlib/crc32.c:343-352 | Squaring the operator for n zero bits gives the operator for twice as many. |
| Crc32.Crc32Combine | dep/zlib/crc32.c:355-408 | Square and multiply over the two alternating matrices applies 8 times len2 zero bits to the first checksum. |
| Crc32.CombineJoins | dep/zlib/crc32.c:355-408 | That makes the checksum of two strings joined from their own. |
| Crc32.ChecksumContinues | dep/zlib/crc32.c:200-231 | A checksum can be taken in pieces. |

## Left out

- BlockDecoder.ReceiveBlock: a block with the randomised bit set is reported as an error; the source still decodes such blocks, which no current compressor writes.
- Decompressor.DState.Decompress: where the source stops in the middle of a block for want of input, saves where it is and goes on in the next call, the model goes on at once with the next of the pieces the input is cut into; NEED_INPUT is what is left when there are no more.
- BlockBody.ReceiveSelectors: has room for every number of selectors the 15-bit field can announce, where the source declares 18002 places; TableFormat.ReadSelectors says how many it stores, and BlockBody.BoundedSelectors when that always fits.
- BlockCodes.BuildDecodeTable: table memory starts out zeroed; the source reuses what earlier blocks left in entries no code leads to.
- MainSort.Sort: the work budget is an unbounded integer; the source counts it down in 32 bits.
- InflateStream.Inflate: the failure of out() is left out, and the messages. Where a distance reaches back too far and is accepted all the same, what the window holds there is put out, and nothing is said of it. The tables of the fixed codes are built each time, as one of the two builds of the source does once.
- InflateFast.InflateFast: uses the window as inflateBack does, with its write index at 0; the branches for the other positions serve inflate() only. The flag that makes distances beyond the window an error is taken to be set.
- InflateTable.InflateTable: the sizes 852 and 592 are taken as given constants; that they are enough for all codes with 9 and 6 root bits is not proved, only the exact condition for running out. For codes of code lengths, where the source checks no room, it asks for what its callers give: lengths within the root bits, and room for a root table of that size.
- Deflate.DeflateState.FillWindow: does not run the checksum over the bytes read in.
- DeflateOverlay.CompressBlock: where the output has come to a token, the source goes on with what it reads there, which may be no token at all; here sending ends with a report, and nothing more is sent. Entries of two bytes are taken to lie low byte first.
- DeflateStream.FlushBlock: the trees for codes of a block's own are given to it; they may be any that code every symbol of the block and that inflate can use. Building them (build_tree, gen_bitlen, scan_tree) is left out; the size with the fixed codes is added up token by token, not from counts of symbols, and with trees of its own it is given.
- Deflate.DeflateState.SendBlock: sends blocks only where the fixed codes are asked for (Z_FIXED), because trees are not built; for other strategies the tokens handed on are what DeflateStream.FlushBlock takes. How large a block would be with trees of its own may be any number. The constant tables are made anew for each block.
- deflate_stored, deflate_rle and deflate_huff, which find no matches by hash chains, deflateParams, deflateTune, deflateCopy and preset dictionaries; the zlib and gzip headers and trailers around a raw stream, and inflate.c.
- Words are sequences of 32 flags in the bucket bit table, and the rows of the code tables are values replaced whole; bitwise or of disjoint bits is addition, and shifts and masks are quotients and remainders.
- The area behind the block that receives the compressed bytes is kept apart from the block (BlockSize.FitsBehind says that it is large enough), and so is the table that the two sorters share; allocation, the 32-bit and 64-bit byte totals and progress messages are not part of this model.
- The file layer of bzlib.c (BZ2_bzRead, BZ2_bzWrite and their kin), randtable.c, and the entries of crctable.c and crc32.h, of which only the generating rule is modelled. The gzip layer of zlib, SFMT and gsoap.
