# A verified model of the DEFLATE/zlib codec, the soft-yield protocol and the DNS responder

The program unpacks its kernel and root filesystem into the memory of an emulated machine with a DEFLATE/zlib codec
(`third-party/miniz.c`), and lets guests fetch over HTTP through their host (`webcm.cpp`, `https-proxy/https-proxy.cpp`),
where a small DNS responder sends every name to one address.
This project models all three and proves what they are for. It uses unbounded integers; where the code relies on a width (16-bit
weights, the 32-bit bit buffers, 16-bit positions, the 32-bit checksum) the width is written out or shown never to be
exceeded. The branches modelled are those of a 32-bit build without unaligned loads.

## How the project is built up

The format has one definition, as a *printer*: `Format.dfy` gives the bits of literals, matches, code-length headers, blocks
and whole streams (section 3.2 of RFC 1951, section 2.2 of RFC 1950), together with the bytes they stand for. Around it stand

- a *reference decoder* (`Machine.dfy`, `Runs.dfy`, `Streams.dfy`): a bit-by-bit state machine, one step a field or a byte,
  deterministic, monotone in its input, and proved to read every printed stream back, exactly to its end. `Accepted.dfy` is the
  other direction: what it reads to the end is a printed stream. `Rfc1951.dfy` holds the definitions that both share against the
  rules, tables and examples of RFC 1951;
- the *decompressor* (`BitReader.dfy`, `Lookup.dfy`, `Window.dfy`, `Inflater.dfy`, `Decompressor.dfy`): look-ahead bit buffer,
  lookup table with overflow tree, careful and fast symbol decoding, copying in a wrapping window, suspension at any byte of
  input or output. Whatever the bytes, a call is proved to end with every index and position in bounds; and as long as the
  stream is valid as far as it goes, to continue the reference decoder's run over everything seen so far.
  `Suspension.dfy` and `Calls.dfy` draw the conclusions: suspension is invisible, in the output and in the final status, and a
  finished decoder has read exactly its stream. `SmallWindows.dfy` treats output buffers smaller than 32 KiB;
- the *compressor* (`Dictionary.dfy`, `Parsing.dfy`, `Tokens.dfy`, `TokenBuffer.dfy`, `RadixSort.dfy`, `MinRedundancy.dfy`,
  `LengthLimiter.dfy`, `HuffmanTable.dfy`, `RunLengths.dfy`, `Sink.dfy`, `BlockWriter.dfy`, `Flushing.dfy`, `Output.dfy`,
  `Compressor.dfy`): from the ring dictionary and the lazy parse to the flushed block and the finished stream, proved to emit
  printed streams of the bytes it was given, at every sync and full flush a printed prefix of everything read; and behind a
  full flush a stream of its own (`FullFlush.dfy`);
- *the output buffer always suffices* (`SortedLengths.dfy`, `Penalty.dfy`, `DynamicCost.dfy`): fitted codes cost no more than
  the fixed ones plus what limiting them to 15 bits adds, and limiting adds little because a long code belongs to a symbol
  rare by the Fibonacci bound. So every block, however coded, ends at least 300 bytes before the buffer does;
- `RoundTrip.dfy` and `EndToEnd.dfy`, which put the two ends together: as statements about a compressor and a decompressor
  however they were driven, and as a program that drives both with arbitrary pieces, flushes, room and cuts;
- the layers above: `Uncompress.dfy` (unpacking into machine memory) and `MzInflate.dfy` (the zlib-style stream);
- `Adler.dfy`, the checksum with deferred modulus, `SoftYield.dfy`, the fetch protocol as a step machine, and `Dns.dfy`, the
  responder against a parser of section 4.1 of RFC 1035.

`Canonical.dfy` holds what both ends share: the canonical code assignment and its prefix property.

The decompressor's calls are coroutine resumptions in the source. Here a call is a loop over the same resumption points,
named after the numbers stored in `m_state`; the code between two points is a method of its own. Values that the source
keeps in local variables and copies back at `common_exit` form one record. `common_exit` with its return of look-ahead
bytes is `Decompressor.Exit`.

Where "or" combines disjoint bit fields it is written as addition, masks by a power of two less one as remainders, and
shifts as `Shr`. The compressor's literal lookup tables for length and distance symbols are given in closed form
(`Tokens.LenSym`, `Tokens.DistSym`). Sort keys and symbol indices, fields of one record in the source, are kept in two
arrays after sorting, because the code-length computation overwrites the keys only.

## What the code does that its promises do not

- A call of the decompressor without the "has more input" flag that runs out of input returns a negative status and leaves
  the running checksum alone, though it may have written output. Resumed nevertheless, the decompressor returns the right
  bytes, but its checksum lacks those. `Decompressor.Tinfl.Decompress` says which bytes the checksum counts (`counted`), and
  that the verdict on a zlib stream is right for those; they are all the bytes written exactly if no byte was written by a call
  with a negative status or without a checksum flag (`skipped`, `Calls.SumComplete`). So the verdict is right whenever every
  call but the last has the flag (`Calls.Drive`); `Calls.SmallGivesUp` is a twelve-byte stream on which it is wrong, and
  `Calls.GivesUpEarly` shows it for every zlib stream cut in front of its trailer.
- A call with no room that waits for the bytes of a stored block asks for input though its buffer is full; elsewhere in a
  stored block a full buffer is reported first (`Decompressor.Tinfl.Decompress`).
- Behind the last block the decompressor gives back what it looked ahead of, and asserts that nothing is left
  (`third-party/miniz.c:2847-2851`). The assertion holds on every valid stream, and in every call that began with less than a
  byte looked ahead. A malformed stream, on which symbols may take no bits, resumed with a byte or more looked ahead, is the only
  case in which it may fail (`Inflater.EndBlock`, `Decompressor.Tinfl.Decompress`); so a stream unpacked by one call, or by
  `Uncompress.UncompressMemory`, never meets it.
- A compressor call that finds output waiting only hands it out, even with room to spare and "finish" requested; so a call
  may return "okay" with room left. `Compressor.Tdefl.Compress` states this, and `EndToEnd.FinishStream` that asking to finish
  with any positive room each time still comes to an end.
- The fallback to static coding when the output buffer fills (`third-party/miniz.c:1330-1335`) is never taken, as the
  comment beside it suspects: `Flushing.EmitBlock` shows that a block is statically coded only when that is forced or it
  stands for less than 48 bytes.
- The DNS response to a single uncompressed question can be read exactly if the message holds a well-formed question
  (`Dns.WhenReadable`). Otherwise the message is refused, as when it ends inside its question (`Dns.CutQuestion`), or answered
  with something unreadable: when it ends behind its header (`Dns.HeaderOnly`), or when it has a label of 64 to 191 bytes, which
  the responder copies (`Dns.LongLabel`).
- After its stream is done a compressor answers every further call with "bad parameter".

## Model

| member | source | states |
|---|---|---|
| `Adler.ComputeAdler32` | third-party/miniz.c:40-66 | the block loop terminates, even with an empty first block, and computes the checksum of section 2.2 of RFC 1950 for every input and starting value, also as one formula with the modulus 65521 written out; 32-bit sums never wrap |
| `Adler.ClosedForm` | third-party/miniz.c:40-66 | the checksum in one formula, from any starting value: the sum of the bytes, and the sum of the bytes each counted as often as there are bytes from it on, modulo 65521 |
| `Adler.PastModulus` | third-party/miniz.c:40-66 | 257 bytes of 255 sum to 080F000F, both halves past the modulus |
| `Adler.RawBound` | third-party/miniz.c:45-60 | over 5552 bytes the unreduced sums stay below 2^32 |
| `Adler.AdlerConcat` | third-party/miniz.c:40-66 | checksums compose over concatenation |
| `Adler.RawResidue` | third-party/miniz.c:47-61 | the sums with deferred modulus are congruent to those reduced after every byte |
| `Canonical.PrefixFree` | third-party/miniz.c:908-921 | codes of a code that is not oversubscribed are prefix-free |
| `Canonical.MatchUnique` | third-party/miniz.c:908-921 | at most one symbol's code starts a bit string |
| `Canonical.CompleteDecodes` | third-party/miniz.c:2592-2600 | with a Kraft total of 65536 every 15 bits start with some symbol's code |
| `Canonical.DecodeEmitted` | third-party/miniz.c:908-921 | emitting a symbol and decoding returns it, whatever follows |
| `Bits.ReverseCode` | third-party/miniz.c:2605-2608 | the bit-reversal loop, the same in both directions, yields the code most significant bit first |
| `Lookup.BuildTables` | third-party/miniz.c:2585-2640 | accepts exactly complete codes and codes of at most one symbol; the finished lookup table and tree decode every bit buffer that starts with a symbol's code to that symbol and its length, and lead from every bit buffer to some symbol of the alphabet in at most fifteen bits; no tree cell is written or read out of bounds |
| `Lookup.FirstCodes` | third-party/miniz.c:2589-2600 | first codes of every length, and acceptance if and only if the Kraft total is 65536 or at most one symbol is used |
| `Lookup.TablesDecode` | third-party/miniz.c:2409-2421 | decoding through table and tree finds the canonical symbol, although 0 stands both for symbol 0 and for an unassigned cell |
| `Lookup.Unassigned` | third-party/miniz.c:2409-2421 | bits that no code starts with and that start no code decode to symbol 0 and no bits |
| `Lookup.AllWalkable` | third-party/miniz.c:2409-2421 | in the finished tables every bit string, with or without a code, leads within fifteen bits to a symbol of the alphabet, all tree cells on the way being in bounds |
| `Lookup.NodeWalk` | third-party/miniz.c:2414-2419 | the walk down the overflow tree from any of its nodes ends at a symbol of the alphabet within fifteen bits |
| `Lookup.UsableRoomy` | third-party/miniz.c:2618-2636 | the overflow tree never needs more cells than it has |
| `Rfc1951.Consecutive` | third-party/miniz.c:908-912 | codes of one length are consecutive in symbol order |
| `Rfc1951.ShorterFirst` | third-party/miniz.c:908-912 | a shorter code comes before a longer one |
| `Rfc1951.Example` | third-party/miniz.c:908-921 | the example of section 3.2.2 of RFC 1951 gets the codes given there |
| `Rfc1951.FixedCodes` | third-party/miniz.c:1078-1094 | the fixed codes are those of the table in section 3.2.6 of RFC 1951 |
| `Rfc1951.LengthRanges` | third-party/miniz.c:2437-2438 | the length symbols cover 3 to 258 in adjacent ranges of the sizes that their extra bits give |
| `Rfc1951.DistRanges` | third-party/miniz.c:2439-2440 | the distance symbols cover 1 to 32768 in the same way |
| `Rfc1951.Outwards` | third-party/miniz.c:988 | the order of the code-length code's lengths, as a rule: repeats, zero, then from eight outwards |
| `Rfc1951.Repeats` | third-party/miniz.c:2657-2667 | what the three repeat symbols stand for: 3 to 6 of the previous length, 3 to 10 or 11 to 138 zeros |
| `Rfc1951.EveryRepeat` | third-party/miniz.c:942-986 | all of these numbers can be had |
| `Rfc1951.TenLetters` | third-party/miniz.c:1197-1242 | five literal bytes are the block of two literals and an overlapping match that stands for ten equal letters |
| `Machine.StepMono` | third-party/miniz.c:2313-2354 | more input never changes a step already possible |
| `Machine.StepKeeps` | third-party/miniz.c:2473-2865 | every step keeps the decoder's fields within their ranges, moves forward and only appends output |
| `Runs.HaltsOnce` | third-party/miniz.c:2865-2868 | the end of a run, success or failure, is determined by the stream |
| `Runs.LeadsLocal` | third-party/miniz.c:2313-2354 | what was reached depends only on the bits up to its position |
| `Runs.OutBound` | third-party/miniz.c:2673-2837 | at most 258 bytes are written for each bit read |
| `Runs.ItemsLead` | third-party/miniz.c:2673-2837 | the reference decoder reads back every sequence of printed literals and matches, with extra bits and overlapping copies |
| `Runs.HeaderLeads` | third-party/miniz.c:2556-2670 | it reads back every printed dynamic header, to the codes it announces |
| `Runs.PacksLead` | third-party/miniz.c:2643-2667 | it expands every packed sequence of code lengths to the lengths packed, runs across the literal/distance boundary included |
| `Streams.BlockLeads` | third-party/miniz.c:2493-2841 | it reads back every printed block: stored, fixed or dynamic |
| `Streams.RawStreamLeads` | third-party/miniz.c:2493-2865 | it reads back every printed raw stream, exactly to its last byte, whatever follows |
| `Streams.ZlibStreamLeads` | third-party/miniz.c:2478-2865 | the same for zlib streams, with the checksum the trailer carries |
| `Streams.HeadAccepted` | third-party/miniz.c:2482-2486 | the header check accepts exactly the headers printed from a window exponent, a level and computed check bits whose window fits the buffer; a plain buffer fits any |
| `Streams.HeaderBytes` | third-party/miniz.c:2478-2490 | with two bytes the decoder is at the first block if they are such a header, and has failed otherwise |
| `Accepted.AcceptedRaw` | third-party/miniz.c:2493-2868 | a raw stream that the reference decoder reads to its end, without a length symbol that stands for no length, is a printed one, and its output is what the blocks stand for: every stored length had its complement, every header its announced lengths and acceptable codes, every distance lay within the output and the buffer |
| `Accepted.AcceptedZlib` | third-party/miniz.c:2478-2868 | the same for zlib streams: header, blocks, padding, and the four bytes of the sum that the decoder ends with |
| `BitReader.GetBits` | third-party/miniz.c:2324-2354 | a fixed-width field read through the bit buffer is the field of the stream; bytes are read only when the field needs them |
| `BitReader.Fill` | third-party/miniz.c:2360-2384 | near the end of the input a byte is read only while no symbol is complete, also when resumed in the middle; whatever the bits, it ends with a table walk that the buffered bits cover, or with the input used up |
| `BitReader.HuffDecode` | third-party/miniz.c:2391-2423 | on a valid stream the careful symbol decoder finds the reference decoder's next symbol, or waits exactly when it does; on any stream it takes at most fifteen bits for a symbol of the alphabet, and only symbol 0 for none |
| `BitReader.PutBack` | third-party/miniz.c:2847-2852 | giving back whole look-ahead bytes keeps the buffer in step with the stream |
| `Window.CopySlow` | third-party/miniz.c:2783-2794 | the careful copy in the wrapping window equals byte-wise append to the unbounded output, also when suspended and resumed; for any distance it stays inside the buffer and writes as many bytes |
| `Window.CopyFast` | third-party/miniz.c:2821-2837 | so does the copy by threes, for overlapping distances too |
| `Window.CopyOne` | third-party/miniz.c:2785-2792 | one copied byte: the masked source cell holds the byte dist back |
| `Window.MaskedSource` | third-party/miniz.c:2785-2792 | the masked source cell is inside the buffer for every distance, also one beyond the output, and for a proper one it is the byte that far back |
| `Window.Emit` | third-party/miniz.c:2673-2690 | writing a byte keeps the window equal to the last bytes of the output |
| `Inflater.EndBlock` | third-party/miniz.c:2841-2852 | block end: next block, or alignment, return of look-ahead, and an empty bit buffer, as the source asserts; the assertion may fail only on a malformed stream in a call resumed with a byte or more looked ahead |
| `Inflater.ZlibHeader` | third-party/miniz.c:2478-2490 | the two header bytes, accepted if and only if they check, announce no dictionary, and the window suffices |
| `Inflater.RawHeader` | third-party/miniz.c:2497-2509 | the stored block's length and complement |
| `Inflater.RawBuffered` | third-party/miniz.c:2510-2512 | stored bytes still in the bit buffer, and the end of the block |
| `Inflater.RawCopyLoop` | third-party/miniz.c:2518-2535 | stored bytes straight from input to output, from either resumption point |
| `Inflater.ReadHead` | third-party/miniz.c:2495-2553 | block type and final flag; fixed codes and their tables |
| `Inflater.ReadSizes` | third-party/miniz.c:2556-2561 | the three table sizes |
| `Inflater.ReadClSize` | third-party/miniz.c:2562-2600 | the code-length code's lengths in their peculiar order, and its tables |
| `Inflater.ReadLens` | third-party/miniz.c:2643-2656 | a symbol of the packed code lengths |
| `Inflater.ReadRepeat` | third-party/miniz.c:2657-2670 | a run of code lengths never writes past entry 457; afterwards both codes' tables are built or the stream is refused |
| `Inflater.LengthSymbol` | third-party/miniz.c:2750-2756 | end of block, or a match length's base and extra bits; the two symbols that stand for no length give length zero |
| `Inflater.ReadLitLen` | third-party/miniz.c:2677-2681 | the next literal or length, decoded with care |
| `Inflater.FastPair` | third-party/miniz.c:2687-2748 | the two-symbol fast path takes the steps of the reference decoder |
| `Inflater.ReadDist` | third-party/miniz.c:2764-2767 | the distance symbol, and the copy if no extra bits follow; the two symbols that stand for no distance are refused in a plain buffer |
| `Inflater.CopyNow` | third-party/miniz.c:2775-2837 | distance check and choice of the copy path; in a wrapping buffer any distance is copied within the buffer |
| `Inflater.ReadTrailer` | third-party/miniz.c:2854-2864 | the stored checksum |
| `Decompressor.RunCall` | third-party/miniz.c:2473-2868 | whatever the input, a call ends, in need of input or room or at an end, with all fields in their ranges; on a valid stream every step is the reference decoder's |
| `Decompressor.AcceptedSizes` | third-party/miniz.c:2452-2459 | the sizes of wrapping buffers that share no bit with the number below them, which the code tests, are exactly the powers of two |
| `Decompressor.Exit` | third-party/miniz.c:2869-2888 | the saved fields and the bytes seen determine the reference decoder's state; less than a byte is held back unless the next item lacks input |
| `Decompressor.Tinfl.Decompress` | third-party/miniz.c:2435-2917 | one call, for any bytes and any cut of input and output, ends, takes no more input than there is, changes only the part of the buffer that it reports written, and leaves a decoder that can be resumed, unless its assertion fails, which takes a malformed stream and a byte or more looked ahead. If the stream is valid as far as it goes, the call continues the reference run over all bytes seen, appends exactly the run's output, keeps the window, and reads the stream's last byte and no more when done; of a zlib stream it reports a checksum mismatch if and only if the trailer differs from the sum of the bytes counted, and it says which those are |
| `Suspension.SameEnd` | third-party/miniz.c:2293-2354 | two decoders that ended on the same stream, however cut, ended in the same state with the same output |
| `Suspension.SameWait` | third-party/miniz.c:2313-2323 | two decoders that starve after the same bytes have written the same output |
| `Suspension.Progresses` | third-party/miniz.c:2435-2917 | on a stream the reference decoder reads to its end, a suspended decoder never fails, its output is a prefix, it starves only before the end, and done means the reference's end |
| `Suspension.ZlibDecodable` | third-party/miniz.c:2478-2865 | every printed zlib stream, followed by anything, is such a stream |
| `Calls.Continue` | third-party/miniz.c:2869-2914 | one call of a run into a plain buffer, whatever the input: what it read and wrote, and that it may be followed by another unless the assertion failed. On a valid stream, while every call says that more input follows, no byte is missing from the checksum, and the verdict is that on all bytes written |
| `Calls.Drive` | third-party/miniz.c:2435-2917 | any input given in any cuts of input and room, with "more input" on every call but the last: only the bytes reported written change. A valid stream ends with the status and output of a single call, and having been read exactly if it is done |
| `Calls.OneConclusion` | third-party/miniz.c:2435-2917 | status and output are determined by the stream and the buffer's size |
| `Calls.SumComplete` | third-party/miniz.c:2889-2914 | the checksum is that of all bytes written if and only if no byte was written by a call that does not count |
| `Calls.GivesUpEarly` | third-party/miniz.c:2313-2323 | every zlib stream cut in front of its trailer, the first call without "more input": the bytes are right and the verdict is a mismatch, unless the right sum is that of no bytes |
| `Calls.SmallGivesUp` | third-party/miniz.c:2889 | a concrete stream on which the verdict is wrong |
| `SmallWindows.SameRuns` | third-party/miniz.c:2443-2449 | the reference runs for two wrapping buffers, neither smaller than any distance of the stream, are the same |
| `SmallWindows.AnnouncedSuffices` | third-party/miniz.c:2486-2488 | a valid stream whose distances stay within the window its header announces is valid, with the same end, in every buffer that the header check admits |
| `MinRedundancy.CalculateMinimumRedundancy` | third-party/miniz.c:787-840 | in place, over three phases in the same cells: lengths that satisfy the Kraft equality, do not increase along the sorted weights, are at most 22 and have minimum total cost |
| `MinRedundancy.MergePhase` | third-party/miniz.c:799-816 | the merge phase builds a greedy tree; 16-bit weights and parent indices never truncate |
| `MinRedundancy.DepthPhase` | third-party/miniz.c:817-819 | parent indices become depths in place |
| `MinRedundancy.LengthPhase` | third-party/miniz.c:820-838 | depths of internal nodes become leaf lengths in place |
| `MinRedundancy.Optimal` | third-party/miniz.c:787-840 | no rival assignment with Kraft sum at most one costs less |
| `MinRedundancy.KraftEquality` | third-party/miniz.c:787-840 | the lengths' Kraft sum is exactly one |
| `MinRedundancy.FibonacciBound` | third-party/miniz.c:787-840 | a code of length d needs a total weight of at least the (d+2)nd Fibonacci number |
| `MinRedundancy.DepthBound` | third-party/miniz.c:871-899 | with a total below 65536 no code is longer than 22, so the 33-entry histogram is not overrun |
| `MinRedundancy.LeafWeight` | third-party/miniz.c:787-840 | a symbol with a code of length d has at most 1/Fib(d+1) of the total weight |
| `LengthLimiter.EnforceMaxCodeSize` | third-party/miniz.c:847-869 | terminates with a Kraft sum of exactly 2^max, the same number of codes and no negative count; a donor always exists; on the sorted lengths only codes from some index on change, and up to it the Kraft sum was nearly exhausted |
| `Penalty.FewSlots` | third-party/miniz.c:847-869 | the first code length the limiter touches is at least 7, and the codes behind it take few 15-bit slots |
| `Penalty.LimitCost` | third-party/miniz.c:847-869 | limiting minimum-redundancy lengths to 15 adds at most 354/100000 of a bit for each symbol and occurrence |
| `DynamicCost.FittedCost` | third-party/miniz.c:1303-1318 | with fitted tables any legal code buffer is coded in at most 674300 bits |
| `DynamicCost.FixedCost` | third-party/miniz.c:1264-1318 | the fixed codes' cost of every token against the buffer bytes it takes |
| `RadixSort.RadixSortSyms` | third-party/miniz.c:753-784 | sorts by the 16-bit key and only rearranges, also when the second pass is skipped |
| `HuffmanTable.OptimizeTable` | third-party/miniz.c:871-921 | exactly the used symbols get codes within the limit, more frequent ones no longer ones, the code is one the decompressor accepts, the emitted bits are the canonical code, and with 15 bits the total length is within the limiter's penalty of any rival code's |
| `HuffmanTable.StaticTable` | third-party/miniz.c:876-880 | the codes of given lengths |
| `HuffmanTable.TrimTable` | third-party/miniz.c:999-1004 | leaving out trailing unused symbols changes no code and keeps the code acceptable |
| `RunLengths.PackSizes` | third-party/miniz.c:942-986 | unpacking the packed lengths returns them, the symbol counts are those of the packed symbols, and packing never lengthens |
| `RunLengths.PackNext` | third-party/miniz.c:1014-1041 | one length: pending runs of the previous length and of zeros are kept apart and flushed in order |
| `Tokens.ItemMeans` | third-party/miniz.c:1205-1228 | a match's symbols and masked extra bits stand for its length and distance |
| `Tokens.RecordOk` | third-party/miniz.c:1711-1745 | recording a token keeps the code buffer's layout: payloads in order, a flag byte before every eight |
| `Tokens.Settle` | third-party/miniz.c:1273-1274 | shifting the last flag byte completes the layout |
| `TokenBuffer.Recorder.RecordLiteral` | third-party/miniz.c:1711-1722 | appends a literal to the recorded tokens and counts its symbol |
| `TokenBuffer.Recorder.RecordMatch` | third-party/miniz.c:1724-1750 | appends a match and counts both its symbols |
| `TokenBuffer.CountedMore` | third-party/miniz.c:1721-1749 | all tokens' symbols are counted, and the total is the number of tokens |
| `Sink.BitSink.PutBits` | third-party/miniz.c:924-939 | unless a byte was dropped for want of room, the bytes written and the bit buffer hold exactly the bits sent |
| `BlockWriter.CompressLzCodes` | third-party/miniz.c:1197-1242 | reads the code buffer back to the recorded tokens and sends their bits and the end-of-block symbol |
| `BlockWriter.ReadToken` | third-party/miniz.c:1203-1236 | flag and payload give the recorded token |
| `BlockWriter.PutHeader` | third-party/miniz.c:1043-1074 | the dynamic header printed announces exactly the two codes |
| `BlockWriter.PackHeader` | third-party/miniz.c:1006-1043 | lengths packed, and a code for the packed symbols |
| `Flushing.StaticBound` | third-party/miniz.c:1264-1318 | static coding costs at most 31 bits per 3 1/8 bytes of the code buffer |
| `Flushing.EmitBlock` | third-party/miniz.c:1297-1336 | whichever path is taken, the block printed stands for the recorded bytes and takes at most 678854 bits; the fallback on a full buffer is never needed; a block whose bytes are in the window takes at most 42 bits more than they do, it is stored unasked only if coding would not save as much as two bytes, and coded with fixed codes exactly if that is forced or it stands for less than 48 bytes |
| `Flushing.PutStored` | third-party/miniz.c:1309-1327 | a stored block of the ring's bytes |
| `Output.HeaderGood` | third-party/miniz.c:1276-1295 | the zlib header is a printed one for a 32 KiB window, which such a decoder accepts |
| `Output.LevelTold` | third-party/miniz.c:1276-1293 | the header tells the compression level: 0 and 1, up to 5, 6, and above |
| `Output.PutSync` | third-party/miniz.c:1353-1366 | the flush marker is an empty stored block |
| `Output.PutFinish` | third-party/miniz.c:1340-1352 | padding and checksum complete the stream, with nothing left in the bit buffer |
| `Dictionary.RingAt` | third-party/miniz.c:1778-1784 | reading ahead past the ring's end finds the mirrored bytes |
| `Dictionary.RingPut` | third-party/miniz.c:1778-1780 | storing a byte keeps ring and mirror in step with the last 32768 bytes |
| `Dictionary.FindMatch` | third-party/miniz.c:1481-1523 | whatever the hash chains contain, what is returned is the longest match, longer than the one given, among the candidates visited, and within the live window; visited is the start of the position's chain, up to its end, or a match of the greatest length, or as many candidates as the probe limit less one; the search terminates |
| `Dictionary.Compare` | third-party/miniz.c:1507-1511 | the common length, no less and no more, of the source's bytes, up to the limit |
| `Dictionary.Ring.Fill` | third-party/miniz.c:1761-1812 | the lookahead is filled to 258 bytes or the end of the input, and the dictionary shrinks to make room |
| `Dictionary.Ring.RunLength` | third-party/miniz.c:1823-1836 | how far the byte before the lookahead repeats, no less and no more |
| `Parsing.Parser.Step` | third-party/miniz.c:1814-1880 | one step of the lazy parse keeps: tokens, pending literal and pending match reproduce the source; matches are 3 to 258 long with distances in the window |
| `Parsing.MatchNext` | third-party/miniz.c:1724-1750 | recording a match extends the source reproduced by the bytes it repeats |
| `Parsing.MatchCopies` | third-party/miniz.c:2783-2794 | copying a match byte by byte gives the source bytes that repeat |
| `Compressor.Tdefl.FlushBlock` | third-party/miniz.c:1256-1408 | the bytes emitted are a printed prefix of the stream for everything recorded; after a sync or full flush they end at a byte boundary with an empty stored block |
| `Compressor.PrintFlush` | third-party/miniz.c:1264-1370 | block, trailer and flush marker together stay below the output limit, so the closing assertion holds for every legal code buffer |
| `Compressor.Tdefl.CompressNormal` | third-party/miniz.c:1752-1895 | reads and parses until the source is used up or output waits; nothing read is lost |
| `Compressor.Tdefl.Compress` | third-party/miniz.c:1918-1984 | any call with any room and flush keeps: everything emitted prints the bytes read; bad parameters are refused exactly as documented; the checksum is that of everything read; a call that finds output waiting reads nothing and drains it as far as there is room, any other that leaves none waiting has read everything and on "finish" finished; "done" exactly if the stream is finished and handed out; a sync or full flush that leaves no output waiting has printed everything read in whole bytes, ending with the marker, and behind a full flush no match reaches back over it; draining changes nothing of this |
| `Compressor.Tdefl.Renew` | third-party/miniz.c:1974-1980 | a full flush starts anew: tokens and blocks from here on reach back no further |
| `FullFlush.ResumeMore` | third-party/miniz.c:1303-1336 | a block whose tokens reach no further back than the last full flush continues a stream that starts there |
| `FullFlush.PrintSplit` | third-party/miniz.c:1256-1408 | a block's bits do not depend on what was printed before, so the blocks from a point on are the rest of the stream's bits |
| `RoundTrip.FinishedStream` | third-party/miniz.c:1256-1408 | whatever the calls, flushes and options, a finished stream followed by anything is one the reference decoder reads back to the bytes given |
| `RoundTrip.RoundTrip` | third-party/miniz.c:2435-2919 | the decompressor, fed that stream in any cuts, never fails, hands out only the next bytes, and done means all bytes handed out, exactly the stream read, and equal checksums |
| `RoundTrip.MayGoOn` | third-party/miniz.c:2435-2919 | a finished stream followed by anything, and every piece of it, is valid as far as it goes, so a decompressor may be called on with any cut |
| `RoundTrip.NothingMissing` | third-party/miniz.c:2435-2919 | with the whole stream seen it is done or waits for room |
| `RoundTrip.FlushPoint` | third-party/miniz.c:1353-1366 | after a sync or full flush, from the bytes handed out, whatever follows, the reference decoder gets to the head of the next block with exactly the bytes read as output |
| `RoundTrip.FlushSeen` | third-party/miniz.c:2435-2919 | a decompressor given those bytes in any cuts has written only them, and all of them once it asks for more input |
| `RoundTrip.FlushClean` | third-party/miniz.c:2435-2919 | those bytes are valid as far as they go |
| `RoundTrip.AfterFullFlush` | third-party/miniz.c:1974-1980 | a finished stream cut where the last full flush ended is, without anything before, a raw stream of the bytes read since then |
| `RoundTrip.MarkIsHere` | third-party/miniz.c:1974-1980 | that place is where the bytes handed out ended when the flush was done |
| `EndToEnd.FinishStream` | third-party/miniz.c:1918-1984 | asking to finish with any positive room each time ends, with the stream complete and handed out |
| `EndToEnd.CompressInPieces` | third-party/miniz.c:1918-1984 | any pieces, room and flushes, then finishing: a stream of all the bytes, which the reference decoder, with room for them, reads to its end |
| `EndToEnd.ThereAndBack` | third-party/miniz.c:2435-2919 | the round trip as a program: whatever the pieces, flushes, options, cuts and the bytes that follow, decompression ends well, with the data, and with exactly the stream read |
| `Uncompress.MemToCallback` | third-party/miniz.c:2969-2997 | on any input it terminates, every callback but the last carries 32768 bytes, and only memory from paddr up to the offset changes; on a valid stream the result is true if and only if a complete stream with a right checksum was there and fitted |
| `Uncompress.UncompressMemory` | webcm.cpp:46-63 | on any input it terminates, and memory outside the written range is unchanged; on a valid stream it exits if and only if no complete stream with a right checksum fits, and otherwise memory from paddr on is the decompressed bytes and the stream's length is returned |
| `Uncompress.LastCall` | third-party/miniz.c:2985-2992 | the last status tells whether the input holds a complete stream with a right checksum |
| `MzInflate.Stream.Drain` | third-party/miniz.c:482-492 | undelivered window bytes are handed out in order and the offset stays within the window |
| `MzInflate.InflateAtOnce` | third-party/miniz.c:467-491 | a first call that asks to finish: stream end, data error or buffer error exactly as the stream and the room determine, and on stream end exactly the stream was read |
| `MzInflate.Stream.Inflate` | third-party/miniz.c:439-548 | on any input, delivered bytes are always a prefix of the output, what is undelivered is intact in the window, and stream end is returned if and only if everything was delivered and the checksum agreed; likewise for the data, stream and buffer errors; a call that finds bytes in the window hands out as many as there is room for and does nothing else; a call with room to spare has used up its input, and has handed out nothing only if the decoder wants more; once asked to finish, only that may be asked |
| `MzInflate.InflateAll` | third-party/miniz.c:439-548 | as a program: a stream with a right checksum, in pieces of any size and with any room each time, ends in stream end with all its bytes delivered and exactly the stream read |
| `MzInflate.DataErrors` | third-party/miniz.c:531-532 | the data error comes for every corrupt stream and wrong checksum, and otherwise only for a stream that ends too early when asked to finish |
| `SoftYield.Host.HandleSoftyield` | webcm.cpp:114-255 | the host's step for each kind of yield |
| `SoftYield.InvNext` | webcm.cpp:114-255 | every step of guests, host and network keeps the protocol invariant |
| `SoftYield.InvRun` | webcm.cpp:114-255 | in every state of every run the map holds exactly the accepted, unfinished requests, and a body poll finds a body of the size made room for |
| `SoftYield.Answers` | https-proxy/https-proxy.cpp:147-185 | every answer a guest gives is the result of its own fetch, closed exactly once |
| `SoftYield.NothingLeft` | webcm.cpp:114-255 | once every guest has its answer the host holds no fetch |
| `SoftYield.NoneStuck` | webcm.cpp:167-180 | in every state of every run a guest without its answer may yield, or waits for a fetch that can complete |
| `SoftYield.Closer` | https-proxy/https-proxy.cpp:147-185 | every yield brings its guest closer to its answer, after at most three, and moves no other |
| `SoftYield.Performed` | webcm.cpp:114-255 | within the protocol the host performs every yield, answers zero, and finds a body of the size the guest made room for |
| `SoftYield.ZeroMeansPerformed` | webcm.cpp:114-255 | in any state of the host, a guest's zero tells exactly whether the step was performed; a repeated uid or a missing fetch changes nothing and leaves the type in the register |
| `SoftYield.YieldOwn` | https-proxy/https-proxy.cpp:147-171 | the step of a guest and the host's answer to it keep what holds of that guest |
| `Dns.BuildDnsResponse` | https-proxy/https-proxy.cpp:390-488 | terminates within the message's bounds and appends, question by question, exactly the specified reply |
| `Dns.OneQuestion` | https-proxy/https-proxy.cpp:390-488 | for every query with one uncompressed question, whatever follows it, the response is a message with the same id and question, and one answer with the configured address, most significant byte first, exactly for type A, class IN |
| `Dns.EveryQuestion` | https-proxy/https-proxy.cpp:408-485 | for any number of uncompressed questions, whatever follows, the response has the same id and questions in order, each one for an address followed by its answer with the address, and the right count of answers |
| `Dns.CutQuestion` | https-proxy/https-proxy.cpp:422-441 | a message that ends inside its only question is not answered |
| `Dns.NoReply` | https-proxy/https-proxy.cpp:395-398 | a message with an operation code other than zero, or without a question, is not answered |
| `Dns.HeaderOnly` | https-proxy/https-proxy.cpp:417-421 | a message that ends behind its header gets a response that cannot be parsed |
| `Dns.WhenReadable` | https-proxy/https-proxy.cpp:390-488 | for one question without compression the response can be read if and only if the message holds a well-formed question |
| `Dns.LongLabel` | https-proxy/https-proxy.cpp:427-435 | a label of 64 to 191 bytes is copied into a response that cannot be read |
| `Dns.NamedRight` | https-proxy/https-proxy.cpp:449-452 | an answer whose question starts in the first 256 bytes of the response reads with that question's name |
| `Dns.ResponseSize` | https-proxy/https-proxy.cpp:585-590 | no response is larger than 21/5 of its query, which for 512 bytes fits 16 bits |
| `Dns.HandleQuery` | https-proxy/https-proxy.cpp:578-592 | the frame's two bytes are the response's size, and the response follows |

## Left out

- What is written on malformed streams: after bits that no code starts with, or in a wrapping buffer a distance beyond the output or the buffer, the code goes on with symbol 0 or with what the buffer held before. For such streams termination, bounds and what stays unchanged are proved, but not which bytes come out; the statements about output, status and checksum are made for streams free of these as far as they go (`Decompressor.CleanAll`, and `sure` in `Decompressor.Tinfl`). Every other failure, the length symbols 286 and 287, and in a plain buffer the distance symbols 30 and 31 are part of the model. Members that say "on a valid stream" are meant so.
- Calls.Drive: on malformed streams only bounds and what stays unchanged are claimed; the assertion behind the last block may stop one sequence of cuts and not another.
- Adler.ComputeAdler32: the call with a null pointer, which returns the initial value.
- Compression through a put-buffer callback instead of a caller's buffer; it hands out the same bytes.
- `tdefl_compress_fast`, the unaligned match finder and copy loop, and the 64-bit bit writer: not compiled in this configuration.
- The hash chains' contents, which matches the lazy parse prefers, when a block is ended early, and compression ratio.
- MzInflate.Stream.Inflate: does not cover a first call that asks to finish, which bypasses the window and is `MzInflate.InflateAtOnce`, nor a call after that one; `total_in`, `total_out` and the `adler` field are not modelled.
- The code-length buffers of the decompressor and the destination buffer of the bit writer are sequences, so their in-place update is not visible; their bounds are proved.
- Positions in the source are unbounded, where the code lets 32-bit counters wrap; only their residues are used.
- Failing access to guest memory, the contents of requests and responses (URL, headers, body bytes) and uids that collide: the protocol model covers opening, completing, polling and closing.
- Zip archives, PNG writing, CRC-32, `mz_deflate`, `mz_deflateBound`.
- DNS questions with compression pointers: only termination, bounds and size are claimed. Of several questions the layout is proved; the name in an answer to a question behind byte 255 is whatever the pointer's low eight bits lead to. Sending and receiving, and the refusal of TCP lengths above 512, are outside the model.
- Certificates, TLS, sockets, the emulator and the browser page.
