# A verified model of tornado_http2

Dafny models of the three parts of tornado_http2 that carry an HTTP/2 connection, with proofs of what
they promise. `dafny verify dfyconfig.toml` checks everything.

**Header compression** (RFC 7541). `BitEncoder`, `BitDecoder`, `HpackEncoder` and `HpackDecoder` are classes
that update bytes, offsets and tables in place. Each method is proved against functions on bit sequences
(`HpackInt`, `Huffman`, `Hpack`) and on tables (`DynamicTable`), and the main results are about those:
integers, strings, headers, blocks and whole sequences of blocks read back as they were written, and the two
dynamic tables stay equal for ever. `HpackFormat` says what the decoder makes of any field representation,
whoever chose it, and `HpackExamples` works through examples of Appendix C from their bytes. Everything is
proved for any prefix-free code in which end-of-string is thirty ones; `HuffmanTable` shows that the published
table is one, and `HpackSession` puts an encoder and a decoder built from the published tables to work.

**Flow control and the write path** (sections 6.9 and 8.1 of RFC 7540). `Window` is a class. `Writers` is a
transition system in which every `yield` of `consume`, `_write_chunk` and `_write_end_stream` is a step
boundary, so that every interleaving of the writers of all streams, of `write_headers`, of WINDOW_UPDATE
frames and of the closing of windows and of the socket is a sequence of actions. `WriterRuns` proves what
holds on every run of one sender, and `WriteOutcomes` exactly when its calls are accepted. `Network` joins it
through first-in first-out channels with the receiving loop of the third part, header blocks, DATA and
RST_STREAM alike, whose streams grant credit back for what they hand over. `Credit` proves that credit is
conserved and does not run dry, `Delivery` that headers and bodies arrive as they were written, `EndToEnd`
that every acceptable request can go through, `Failures` and `FrameLimits` exactly when a delivery ends the
connection, and `WireBytes` takes the frames through bytes.

**Receiving** (sections 4.3, 5.1, 6 and 8.1 of RFC 7540). `Streams.Stream` and `Connections.Connection` are
classes whose methods follow the handlers and the loop branch by branch; each is proved equal to a function on
values (`Receiving`, `Dispatch`). `DispatchRuns` proves what holds on every run of the loop: contiguous header
blocks, the order of the calls on delegates, content lengths. `ContentLength` says which bodies complete a
message, `SettingsEffect` and `ByteLoop` what the peer's settings change, from their bytes
(`ConnectionExamples` follows a first request through them), and `Answers` how every other kind of frame is
answered. `HeaderBlocks` proves that fragmentation does not matter, and `PeerBlocks` joins the loop with the
codec: over a whole connection the decoder's table follows the peer's encoder. `ConnectionSession` runs the
objects from their creation and says of them what has been proved of all runs. `Frames` is the wire form of
frames and their padding.

## How the model differs in form

- Exceptions are values: `None` for `HpackError` and for whatever `decode` turns into it, `Outcome` for
  errors of streams and connections, `Fatal` for any other exception (also for the one a GOAWAY raises:
  either way the loop ends and nothing is written).
- The nested dictionaries of the Huffman tree are one map from paths to cells. Reading adds inner cells,
  as `defaultdict` does, and never a leaf.
- The lines of `hpack_huffman_data.txt` are listed in the order of their codes, so that prefix-freedom is a
  comparison of neighbours. What the loader builds is proved for lines in any order.
- The dynamic table, which `HpackEncoder` and `HpackDecoder` each implement with the same code, is one
  class `Dynamic` that both use.
- A static line without a value has the value `None`, as in the code; Appendix A of RFC 7541 has an empty
  string there. The encoder is given byte strings, so such a line is only ever used for its name.
- Tornado's `Lock` is first come, first served, `notify_all` wakes every waiter, and writing to the socket
  is an atomic append.
- In `Writers` streams are numbered in the order of their creation; between endpoints stream i is the client's i-th,
  with the number 2i+1.
- The checks on a header list (pseudo-header fields, `te`, `connection`, number syntax) are one function
  `interpret` that stands for any judgement whatever; what follows from the judgement is modelled.
- A stream keeps the calls made on its delegate in `calls`.

## Where the code is weaker than the standard

These are proved as they are, with their exact conditions: padding of Huffman strings is not checked
(`Huffman.ReadCharsExact`, `HuffmanTable.ZerosAreTakenForPadding`); frame padding is removed properly only for
some lengths (`Frames.PaddingRemoved`); a chunk may become a DATA frame that the peer refuses
(`FrameLimits.RefusedExactly`), and so may a header list (`FrameLimits.LargeBlockIsRefused`); a second header
block on a stream makes the next DATA end the connection (`Failures.ServerFailsExactly`,
`FrameLimits.DataAfterTwoBlocksFails`); a header block on a finished stream is not decoded, after which the
tables may differ (`PeerBlocks.HeaderInStepExactly`, `PeerBlocks.DecoderFallsBehind`); bytes that no delegate
is given are never credited back (`Credit.CreditIsConserved`); a writer whose window or socket is closed under
it keeps its stream's lock (`WriterRuns.StuckExactly`); the limit on the frames that are read is the one the
peer has announced for the frames it is sent (`ByteLoop.LimitFromSettings`).

## Model

| member | source | states |
|---|---|---|
| HpackInt.ReadIntRoundTrip | tornado_http2/encoding.py:29-106 | for every integer and prefix width 1..8, reading inverts writing and stops exactly behind it on a byte boundary |
| HpackInt.IntBitsShortest | tornado_http2/encoding.py:29-106 | the written encoding is the unique shortest one that the reader accepts for that integer |
| HpackInt.IntBitsPrefixRejected | tornado_http2/encoding.py:91-106 | a written integer cut after any number of whole bytes is refused |
| HpackInt.IntMeaning | tornado_http2/encoding.py:91-106 | on any continuation bytes, shortest or not, a prefix below its maximum is the integer, and otherwise the groups of seven bits, least significant first, add to the maximum |
| HpackInt.TailIsGroups | tornado_http2/encoding.py:40-48 | the bytes written behind a full prefix are continued properly and their groups are the rest of the integer |
| Encoding.BitEncoder.constructor | tornado_http2/encoding.py:11-13 | nothing is written yet |
| Encoding.BitEncoder.Data | tornado_http2/encoding.py:15-16 | the bytes are the bits written, and nothing more when these fill whole bytes |
| Encoding.BitEncoder.WriteBit | tornado_http2/encoding.py:18-23 | exactly one bit is appended, whatever the offset |
| Encoding.BitEncoder.WriteBits | tornado_http2/encoding.py:25-27 | the bits are appended in order |
| Encoding.BitEncoder.WriteHpackInt | tornado_http2/encoding.py:29-48 | the encoding of section 5.1 of RFC 7541 with the free bits of the last byte as prefix is appended, and the encoder is aligned |
| Encoding.BitEncoder.WriteHuffmanChar | tornado_http2/encoding.py:50-53 | the code of the character is appended |
| Encoding.BitEncoder.WriteHuffmanString | tornado_http2/encoding.py:55-59 | the codes and the fewest ones that fill the last byte are appended |
| Encoding.BitEncoder.WriteString | tornado_http2/encoding.py:61-63 | the bytes are appended to an aligned encoder |
| Encoding.BitDecoder.constructor | tornado_http2/encoding.py:67-74 | all bits of the data are still to be read |
| Encoding.BitDecoder.Eod | tornado_http2/encoding.py:76-77 | true exactly when no bit remains |
| Encoding.BitDecoder.ReadBit | tornado_http2/encoding.py:79-89 | the first remaining bit is taken; it fails exactly at the end of the data |
| Encoding.BitDecoder.ReadHpackInt | tornado_http2/encoding.py:91-106 | the prefix and its continuation bytes are read from the remaining bits, or it fails as the specification does |
| Encoding.BitDecoder.ReadHuffmanChar | tornado_http2/encoding.py:108-125 | one walk through the tree up to a leaf, the limit or the end of the data; no leaf is ever added by reading |
| Encoding.BitDecoder.ReadChar8 | tornado_http2/encoding.py:127-131 | one whole byte is taken, or it fails at the end of the data |
| Huffman.ReadCharAlongCode | tornado_http2/encoding.py:116-120 | walking the tree along a code gives its key, with no leaf before its end |
| Huffman.OnesHaveNoLeaf | tornado_http2/encoding.py:121-125 | up to thirty ones, and so any padding, never reach a leaf |
| Huffman.HuffmanRoundTrip | tornado_http2/encoding.py:55-125 | for every byte string the written bits read back to the string, and the reader stops exactly at their end |
| Huffman.ReadCharsExact | tornado_http2/hpack.py:80-88 | exactly which bit strings read as a given byte string: padding is accepted whatever it is |
| Huffman.BeginningOfCodeIsPadding | tornado_http2/encoding.py:121-125 | the beginning of any code is accepted as padding |
| HuffmanTree.Tree.Child | tornado_http2/encoding.py:134-135 | a missing child is created on access, and the leaves stay as they are |
| HuffmanTree.Tree.Insert | tornado_http2/encoding.py:172-175 | exactly one leaf is added, at the end of the code |
| HuffmanTree.LoadHuffmanData | tornado_http2/encoding.py:138-176 | for a prefix-free table in any order, map and tree are each other's inverse; ValueError exactly for a repeated symbol |
| HuffmanTree.TableIsPrefixFree | tornado_http2/encoding.py:146-175 | the map built from a full prefix-free table is complete and prefix-free, end-of-string included |
| HuffmanTable.TableIsFree | tornado_http2/hpack_huffman_data.txt:1-257 | no code of the published table is a prefix of another |
| HuffmanTable.SymbolsDistinct | tornado_http2/hpack_huffman_data.txt:1-257 | no symbol is listed twice |
| HuffmanTable.LastLineIsEos | tornado_http2/hpack_huffman_data.txt:257 | end-of-string is thirty ones |
| HuffmanTable.Canonical | tornado_http2/hpack_huffman_data.txt:1-257 | the lines in the order of their codes are ordered by length and then by symbol, which makes the code canonical |
| HuffmanTable.TableIsFull | tornado_http2/hpack_huffman_data.txt:1-257 | the published table has a code for every octet, repeats none and is prefix-free |
| HuffmanTable.ZerosAreTakenForPadding | tornado_http2/encoding.py:121-125 | with the published table the code of 'a' and three zeros, which no encoder writes, read as 'a' |
| HuffmanTable.LoadTable | tornado_http2/encoding.py:178 | loading the published table succeeds with a code and tree fit for all the proofs about coding |
| DynamicTable.EvictKeepsLongestPrefix | tornado_http2/hpack.py:104-107 | eviction leaves the longest newest-first part that fits the limit |
| DynamicTable.LongestPrefixUnique | tornado_http2/hpack.py:104-107 | there is only one such part |
| DynamicTable.AddIsRfcAdd | tornado_http2/hpack.py:99-107 | add-then-evict gives the table of the standard's evict-then-add; an entry beyond the limit empties it |
| DynamicTable.ResizeIsRfcResize | tornado_http2/hpack.py:54-55 | a limit change gives the table of section 4.3 of RFC 7541 |
| DynamicTable.HistoryIsRfcHistory | tornado_http2/hpack.py:99-107 | both descriptions agree after every sequence of insertions and limit changes, with size within the limit |
| DynamicTable.SizeIsOctets | tornado_http2/hpack.py:9-10 | in every valid table the size is the sum of name length, value length and 32 for each entry, and within the limit |
| DynamicTable.FitsAlone | tornado_http2/hpack.py:99-107 | an entry is kept by an empty table exactly if its name, its value and 32 octets fit the limit, which empties it otherwise |
| DynamicTable.KeepsWhatFits | tornado_http2/hpack.py:99-107 | after an insertion the table holds the new entry and as many of the newest others as fit the limit, counted in octets, and no entry fewer |
| DynamicTable.ResizeKeepsWhatFits | tornado_http2/hpack.py:54-55 | so it does after a change of the limit |
| DynamicTable.Dynamic.constructor | tornado_http2/hpack.py:18-21 | an empty table with its limit |
| DynamicTable.Dynamic.AddToDynamicTable | tornado_http2/hpack.py:99-102 | the new table is that of add-then-evict, and its size is the octets of names and values and 32 for each entry |
| DynamicTable.Dynamic.GcDynamicTable | tornado_http2/hpack.py:104-107 | the oldest entries go until the size fits, and no pop meets an empty table |
| DynamicTable.Dynamic.SetLimit | tornado_http2/hpack.py:54-55 | the new limit is stored and the table evicted to it |
| StaticTable.LoadStaticTable | tornado_http2/hpack.py:202-211 | a name is mapped to its earliest line, a pair to its last, and nothing else is mapped |
| Hpack.IndexAgreement | tornado_http2/hpack.py:93-131 | an index is found exactly when the pair is in a table, and a decoder with an equal table reads that pair at it |
| Hpack.KeyFound | tornado_http2/hpack.py:133-140 | a name is found exactly when the static table has it, at its earliest line, which the decoder reads back; never at a dynamic index |
| Hpack.StringRoundTrip | tornado_http2/hpack.py:77-170 | a string literal reads back with either Huffman setting, and the rest is untouched |
| Hpack.PairRoundTrip | tornado_http2/hpack.py:68-161 | a name and value, by index or literal, read back in any prefix width |
| Hpack.FieldRoundTrip | tornado_http2/hpack.py:31-161 | one header reads back with the mode the decoder can see, and both sides change their table alike |
| Hpack.BlockThenRest | tornado_http2/hpack.py:23-122 | decoding a block followed by more bits gives its headers and goes on with the encoder's table |
| Hpack.BlockRoundTrip | tornado_http2/hpack.py:23-122 | a block decodes to the lower-cased headers in order and leaves the encoder's table |
| Hpack.BlocksRoundTrip | tornado_http2/hpack.py:23-180 | for every sequence of blocks each decodes to what was encoded, and tables, sizes and limits are equal after every one |
| Hpack.LimitUpdateOnlyFirst | tornado_http2/hpack.py:46-55 | a limit update alone resizes the table; behind a block of this encoder it is refused if the block is not empty |
| Hpack.LimitUpdateBehindHeader | tornado_http2/hpack.py:46-55 | on any input whatever, a limit update behind fields among which a header was is refused, and the table is the one before it |
| Hpack.DecodeBounded | tornado_http2/hpack.py:23-66 | on any input decoding ends with at most one header a byte, or an error, and in both cases a table that respects its limit |
| Hpack.EncoderTableIsDistinct | tornado_http2/hpack.py:124-150 | on every run the encoder's table holds no duplicate and no static pair |
| Hpack.WhatIsSeen | tornado_http2/hpack.py:117-131 | a peer sees each name with exactly its ASCII capitals made small, the value unchanged, and the mode given unless a table holds the pair by then |
| HpackFormat.PlainFormat | tornado_http2/hpack.py:163-170 | a plain string is the flag 0, its length in seven bits and its bytes |
| HpackFormat.CodedFormat | tornado_http2/hpack.py:163-170 | a Huffman-coded string is the flag 1, the number of bytes its codes fill, the codes and ones up to the last byte boundary |
| HpackFormat.PlainReads | tornado_http2/hpack.py:77-91 | a plain string of any announced length takes exactly that many bytes, and is refused if there are fewer |
| HpackFormat.CutCodesRefused | tornado_http2/hpack.py:80-88 | a Huffman-coded string with fewer bytes than announced is refused |
| HpackFormat.IndexedNameReads | tornado_http2/hpack.py:68-75 | for any table, prefix width, index and value in either form, the name is that of the static line or the dynamic entry with that index, newest first behind the static table; beyond both the pair is refused |
| HpackFormat.SpelledNameReads | tornado_http2/hpack.py:68-75 | behind index 0 the name is the string that follows, in either form |
| HpackFormat.IndexedField | tornado_http2/hpack.py:32-37 | an indexed field stands for the static line or dynamic entry with its index; index 0 and one beyond both tables end the block with an error and leave the table |
| HpackFormat.LiteralField | tornado_http2/hpack.py:38-63 | a literal in each of the three modes gives its name and value, enters the table in the first mode only, and is refused exactly if its name index is beyond the tables |
| HpackFormat.LimitField | tornado_http2/hpack.py:46-55 | a change of the limit resizes the table where it is allowed and is refused elsewhere |
| HpackFormat.BlockMeaning | tornado_http2/hpack.py:23-97 | every block of field representations that any encoder may choose decodes to what section 3.2 of RFC 7541 says they mean, errors and table included |
| HpackFormat.EncoderChoice | tornado_http2/hpack.py:142-161 | this encoder writes an index exactly for pairs in its tables, and otherwise a literal in the mode given, by name index exactly if a static line has the name; only the first mode adds to the table |
| HpackExamples.Small | tornado_http2/encoding.py:29-48 | sections C.1.1 and C.1.3 of RFC 7541: 10 in five bits and 42 in eight, bit by bit |
| HpackExamples.Large | tornado_http2/encoding.py:29-48 | section C.1.2: 1337 in five bits is 31, 154, 10 |
| HpackExamples.FirstRequest | tornado_http2/hpack.py:23-107 | section C.3.1, from bytes to headers and table |
| HpackExamples.SecondRequest | tornado_http2/hpack.py:23-107 | section C.3.2: the byte 190 is the dynamic entry that the first request left |
| HpackExamples.ThirdRequest | tornado_http2/hpack.py:23-107 | section C.3.3: one insertion later it is 191, and the table has size 164 |
| HpackExamples.NameJustInserted | tornado_http2/hpack.py:68-97 | a literal may take its name from the entry that the field before it has inserted |
| HpackCodec.HpackEncoder.constructor | tornado_http2/hpack.py:111-115 | an empty table with its limit |
| HpackCodec.HpackEncoder.FindPairIndex | tornado_http2/hpack.py:124-131 | the loop computes the specified lookup: static line first, then the newest equal entry |
| HpackCodec.HpackEncoder.FindKeyIndex | tornado_http2/hpack.py:133-140 | the loop, which compares pairs with a name, finds static lines only |
| HpackCodec.HpackEncoder.WriteHeader | tornado_http2/hpack.py:142-161 | the bits appended and the new table are those of the specification, although the table changes before the name is looked up |
| HpackCodec.HpackEncoder.WritePair | tornado_http2/hpack.py:155-161 | name, by index or literal, and value are appended |
| HpackCodec.HpackEncoder.WriteString | tornado_http2/hpack.py:163-170 | flag, length and payload are appended |
| HpackCodec.HpackEncoder.Encode | tornado_http2/hpack.py:117-122 | the bytes are exactly the specified block, and the table is the specified one |
| HpackCodec.HpackDecoder.constructor | tornado_http2/hpack.py:18-21 | an empty table with its limit |
| HpackCodec.HpackDecoder.FromIndex | tornado_http2/hpack.py:93-97 | static line, dynamic entry or failure, for every index |
| HpackCodec.HpackDecoder.String | tornado_http2/hpack.py:77-91 | the two loops read the specified string or fail with the specification |
| HpackCodec.HpackDecoder.HuffmanChars | tornado_http2/hpack.py:80-88 | the loop reads the specified characters up to the destination byte |
| HpackCodec.HpackDecoder.PlainChars | tornado_http2/hpack.py:90 | the given number of bytes is read, or it fails exactly when there are fewer |
| HpackCodec.HpackDecoder.NameValuePair | tornado_http2/hpack.py:68-75 | the specified pair is read, or it fails with the specification |
| HpackCodec.HpackDecoder.NextField | tornado_http2/hpack.py:32-63 | one turn of the loop reads the specified field |
| HpackCodec.HpackDecoder.UnindexedField | tornado_http2/hpack.py:46-63 | the branches for limit updates and headers that are not to be indexed |
| HpackCodec.HpackDecoder.Decode | tornado_http2/hpack.py:23-66 | the loop returns the specified headers or error, and leaves the specified table in both cases |
| HpackSession.Open | tornado_http2/hpack.py:183-213 | encoder and decoder built from the published tables start in agreement |
| HpackSession.Exchange | tornado_http2/hpack.py:23-122 | the two objects stay in step over any number of blocks, and every block arrives |
| Protocol.PackUnpack | tornado_http2/stream.py:229-234 | a 32-bit number packed by one side is unpacked by the other |
| FlowControl.UpdateCarriesIncrement | tornado_http2/stream.py:229-234 | what is packed into a WINDOW_UPDATE is the increment that the peer applies |
| FlowControl.UpdateWakesWaiters | tornado_http2/flow_control.py:29-34 | one legal update of a window with waiters stays within the bound, so it wakes them all |
| FlowControl.UpdateExactly | tornado_http2/flow_control.py:29-47 | from the four bytes of a WINDOW_UPDATE without the reserved bit: zero, an update beyond 2^31-1 and another length are refused each with its code, any other update raises the size and wakes everybody |
| FlowControl.Window.constructor | tornado_http2/flow_control.py:12-17 | an open window of the given size |
| FlowControl.Window.Adjust | tornado_http2/flow_control.py:29-34 | the size changes even if the check then fails; waiters are woken exactly when it does not |
| FlowControl.Window.ApplyWindowUpdate | tornado_http2/flow_control.py:36-47 | wrong sizes, zero and overflow are refused with the right error for a stream or the connection |
| FlowControl.Window.Consume | tornado_http2/flow_control.py:49-60 | up to its first suspension: granted exactly when both windows are open and not empty, then the least of request and windows, taken from both; else it waits at the first empty window or raises, and nobody waits in vain |
| Writers.TurnStreamKeeps | tornado_http2/flow_control.py:50-58 | a turn on the stream window keeps the invariant of the write path |
| Writers.DebitKeeps | tornado_http2/flow_control.py:58-60 | the debit after the suspension on the parent still keeps the stream window from going negative |
| Writers.SendKeeps | tornado_http2/stream.py:326-330 | writing the frame, or failing to on a closed socket, keeps the invariant |
| Writers.FlushedKeeps | tornado_http2/stream.py:331-332 | shortening the chunk and releasing the lock keep the invariant |
| Writers.FlushFailsKeeps | tornado_http2/stream.py:328-337 | a write that was under way when the socket was closed fails and keeps the invariant |
| Writers.HeadersKeeps | tornado_http2/stream.py:273-279 | `write_headers`, however often it is called and whatever length it declares, keeps the invariant of the stream |
| Writers.WriteKeeps | tornado_http2/stream.py:311-318 | accepting or refusing a chunk keeps the invariant |
| Writers.FinishKeeps | tornado_http2/stream.py:340-346 | finishing, or refusing to, keeps the invariant |
| Writers.AcquireKeeps | tornado_http2/stream.py:324-361 | taking the lock in order, for a chunk or for END_STREAM, keeps the invariant |
| WriteOutcomes.WriteAccepts | tornado_http2/stream.py:311-318 | in every state a chunk is accepted and queued exactly if no length is declared or it does not go beyond what is left; otherwise nothing but the length left changes and the stream is reset |
| WriteOutcomes.FinishAccepts | tornado_http2/stream.py:340-346 | in every state the end is queued exactly if no length is declared or none of it is left; otherwise the stream is reset |
| WriteOutcomes.HeadersDeclare | tornado_http2/stream.py:273-308 | headers declare the length they carry, if any, and are on the wire as a block that a peer in step decodes to them, with equal tables afterwards |
| WriteOutcomes.AcquireServesFirst | tornado_http2/stream.py:320-360 | the free lock goes to the first in the queue: a chunk keeps it, END_STREAM is written at once |
| WriteOutcomes.BodyIsAccepted | tornado_http2/stream.py:311-318 | over every run, whatever else happens, the body handed to a stream is accepted as a whole exactly if it does not go beyond the length left |
| WriteOutcomes.BodyFinishes | tornado_http2/stream.py:340-346 | and its end is queued exactly if it has that length |
| WriteOutcomes.OneTurn | tornado_http2/stream.py:320-338 | a turn that is not interrupted sends the least of chunk and both windows in one DATA frame, takes it from both, and keeps the lock exactly for a rest |
| WriteOutcomes.EmptyWindowWaits | tornado_http2/flow_control.py:49-60 | at an empty window a writer is registered as a waiter and nothing else changes |
| WriteOutcomes.UpdateWakes | tornado_http2/flow_control.py:29-47 | a waiter cannot go on, and an update raises its window by the increment and wakes it if the bound is kept |
| WriteOutcomes.ClosedWindowRaises | tornado_http2/flow_control.py:49-54 | a writer at a closed window resets its stream and keeps the lock |
| WriteOutcomes.ClosedSocketRaises | tornado_http2/stream.py:320-337 | a writer whose frame the closed socket does not take keeps the lock with what it had not sent |
| WriteOutcomes.ClosingWakes | tornado_http2/flow_control.py:19-21 | closing a window wakes everybody that waits for it, and changes nothing else |
| WriterRuns.GrantBounds | tornado_http2/flow_control.py:50-60 | on every interleaving a writer that asks the connection window is granted something exactly when it is open and not empty, and then the smaller of what it wants and what is there, which neither its chunk nor its stream window falls short of |
| WriterRuns.StepKeeps | tornado_http2/stream.py:273-361 | every step of every writer, header, update, close or failure keeps the invariant of the sender |
| WriterRuns.RunKeeps | tornado_http2/stream.py:273-361 | the invariant holds after every run |
| WriterRuns.WindowsAreSafe | tornado_http2/flow_control.py:49-60 | on every interleaving no window goes negative, and initial size plus updates less the size is exactly what was sent or is held |
| WriterRuns.WakeupsAreNotLost | tornado_http2/flow_control.py:29-52 | on every interleaving a registered waiter means an empty window that is not closed |
| WriterRuns.DataInOrder | tornado_http2/stream.py:311-361 | on every interleaving a stream's DATA is its accepted chunks in call order; unless one is accepted after `finish`, END_STREAM comes after all of them, and at the length declared last |
| WriterRuns.ChunkShrinks | tornado_http2/stream.py:325-331 | on every interleaving each DATA frame carries a non-empty part of its chunk and leaves a strictly shorter rest |
| WriterRuns.WritersMakeProgress | tornado_http2/stream.py:321-361 | a writer with work that has not failed and does not wait on an empty window can take its next step |
| WriterRuns.StuckExactly | tornado_http2/stream.py:322-337 | a writer has failed if and only if one of its turns came after that window was closed, or one of its writes after the socket was; otherwise never |
| WriterRuns.SomeWriterFails | tornado_http2/stream.py:322-337 | for every chunk there is a run in which the socket is closed between its grant and its frame, and the writer fails |
| WriterRuns.StuckIsFinal | tornado_http2/stream.py:322-337 | once a writer has failed it keeps its stream's lock, and on no continuation of the run is any more data or END_STREAM of that stream written |
| WriterRuns.HeadersSurviveInterleaving | tornado_http2/stream.py:302-306 | for every interleaving of `write_headers`, any number of times on each stream, the wire order of blocks is the encode order and a peer recovers every header list; while the socket is open it has them all and the same table |
| Hearing.DataHeard | tornado_http2/stream.py:207-246 | when a DATA frame is handed to the delegate, what it leaves of the announced length, and when it finishes the stream |
| Hearing.BlockHeard | tornado_http2/stream.py:83-174 | a whole header block on a stream that is not finished is interpreted as the very headers that were encoded, and the decoder gets the encoder's table |
| Hearing.BlockChanges | tornado_http2/stream.py:83-174 | whatever a header block without END_STREAM holds, it hands over no data and finishes nothing; behind a body or trailers it leaves the stream in its trailers |
| NetworkRuns.FrameIsHeard | tornado_http2/connection.py:85-137 | every frame of the write path that leaves the loop of the receiver alive is heard by its stream, known, new or missing, and by no other |
| NetworkRuns.FrameCarries | tornado_http2/stream.py:302-306 | the header blocks on the wire carry the header lists in the order they were encoded, each with the table of its time |
| NetworkRuns.StaysInStep | tornado_http2/stream.py:121-174 | a header block that is not behind the end of its stream leaves the receiver's table equal to the one the next block is encoded with |
| NetworkRuns.AdjustIsSafe | tornado_http2/flow_control.py:29-33 | every update on its way is legal and leaves the window within its bound |
| NetworkRuns.NetRunKeeps | tornado_http2/stream.py:207-361 | the invariant of two endpoints holds after every run that has not ended in an error, whatever the applications of both do |
| Credit.CreditIsConserved | tornado_http2/stream.py:220-234 | on every run window, grants, DATA in flight, bytes lost, bytes awaiting a delegate and updates in flight add up to the initial size, for each stream and for the connection |
| Credit.LossesAddUp | tornado_http2/stream.py:220-234 | what the connection has lost is what its streams have lost |
| Credit.NothingIsLost | tornado_http2/stream.py:216-226 | nothing is lost on a stream whose headers came first and whose body has not run over |
| Credit.NoFlowControlError | tornado_http2/flow_control.py:29-47 | no run of two such endpoints ends in FLOW_CONTROL_ERROR |
| Credit.NothingWithoutWindow | tornado_http2/flow_control.py:49-60 | a stream with an initial window of zero never sends a byte |
| Credit.NoDeadlock | tornado_http2/flow_control.py:49-60 | when nothing is in flight, no writer can move, none has failed and nothing was lost, a stream has sent all that was written to it if and only if it had a window or nothing was written |
| Delivery.DelegateHearsWhatWasWritten | tornado_http2/stream.py:207-361 | from end to end: with its headers first, what a delegate is given is a prefix of what was written at the other end, and all of it once it is told to finish |
| Delivery.TablesAgree | tornado_http2/hpack.py:23-180 | on every run the receiver's table is the one the next block was encoded with, as long as no block came behind the end of its stream |
| Delivery.HeadersAreGiven | tornado_http2/stream.py:121-205 | on every run each header block reaches the stream it was written to as the very headers that were encoded |
| Failures.DeliveryFailsExactly | tornado_http2/connection.py:85-158 | on every run, exactly which frames end the connection of the receiver |
| Failures.BlockFailsExactly | tornado_http2/stream.py:121-205 | a header block that is not behind the end of its stream ends the connection if and only if it is too large or its headers cannot be taken; COMPRESSION_ERROR never arises |
| Failures.ServerFailsExactly | tornado_http2/stream.py:83-213 | with a server that accepts all headers, exactly these end the connection: frames that are too large, and DATA behind a second header block of an unfinished stream |
| Failures.PoliteRunsSucceed | tornado_http2/stream.py:83-246 | with one header block a stream, first and not behind its end, and frames that fit, no step fails |
| Failures.DataErrors | tornado_http2/stream.py:207-214 | DATA that fits ends a connection only with PROTOCOL_ERROR |
| FrameLimits.SmallChunksFit | tornado_http2/stream.py:325-330 | with chunks of at most 16384 bytes every DATA frame of every run fits the receiver's frame size |
| FrameLimits.FrameSizeExactly | tornado_http2/connection.py:201-202 | FRAME_SIZE_ERROR arises for frames that are too large and for no others |
| FrameLimits.OnlyLargeBlocksAreRefused | tornado_http2/connection.py:201-202 | with small chunks only header blocks are refused for their size, and exactly those that are too large |
| FrameLimits.RefusedExactly | tornado_http2/connection.py:201-202 | a chunk can be refused for its size, in some run that writes no other, if and only if it is longer than 16384 bytes |
| FrameLimits.LongChunkIsRefused | tornado_http2/connection.py:201-202 | such a run for every longer chunk |
| FrameLimits.LargeBlockIsRefused | tornado_http2/stream.py:302-306 | a header list is refused as soon as it is sent if and only if its block is longer than 16384 bytes, since it is never split |
| FrameLimits.LongValueIsRefused | tornado_http2/stream.py:302-306 | such header lists exist for every table and with either Huffman setting |
| FrameLimits.DataAfterTwoBlocksFails | tornado_http2/stream.py:83-213 | the run: however small they are, two calls of `write_headers` and then a chunk end in PROTOCOL_ERROR |
| EndToEnd.MessageSent | tornado_http2/stream.py:273-360 | for every header list and body within the windows, write_headers, write and finish put exactly the header block, the body and END_STREAM on the wire |
| EndToEnd.MessageGoesThrough | tornado_http2/connection.py:85-142 | every request with a body of at most 16384 bytes that the server accepts can go through from end to end: the delegate is given the headers, the body and the end, and both windows are what they were |
| WireBytes.ArrivedInStep | tornado_http2/connection.py:85-210 | whatever one endpoint has written, the other is in order and in step after any number of its frames, if it lives |
| WireBytes.BytesLeaveDecoderInStep | tornado_http2/connection.py:85-210 | the bytes of every run of the write path are read back as its frames, and leave the decoder at the other end with the encoder's table |
| Frames.PaddingRemoved | tornado_http2/frames.py:10-23 | exactly for which pad lengths and bodies well-formed padding is removed |
| Frames.PaddingRefused | tornado_http2/frames.py:13-20 | a pad length is refused exactly when it does not fit and its sign bit is clear |
| Frames.PaddingExactly | tornado_http2/frames.py:10-22 | exactly what is left of every padded frame that is not refused, with the pad length read as a signed number |
| Frames.FrameRoundTrip | tornado_http2/connection.py:185-210 | a written frame of a known type reads back whatever follows it, and the reserved bit never matters |
| Frames.FrameBytes | tornado_http2/connection.py:185-194 | a written frame is three bytes of length, the number of its type, its flags, four bytes of stream and its data |
| Frames.RefusedForSize | tornado_http2/connection.py:197-202 | a frame is refused exactly if the length in its first three bytes is beyond the limit |
| Frames.FramesRoundTrip | tornado_http2/connection.py:185-210 | every list of frames within the limits is read back from the concatenated output |
| Receiving.FrameKeeps | tornado_http2/stream.py:53-262 | every frame, whatever its type and outcome, keeps the invariant of a stream; phase, calls and finish never go back |
| Receiving.InOrderOnServer | tornado_http2/stream.py:201-246 | on a server the order of calls means headers once and first, and finish once and last |
| Receiving.FinishedIsFinal | tornado_http2/stream.py:68-69 | a finished stream changes nothing but its window, and refuses HEADERS, CONTINUATION and DATA |
| Receiving.BodyCompletes | tornado_http2/stream.py:207-246 | however a body is cut into DATA frames, it finishes the stream if and only if it has the announced length |
| ContentLength.HeadersAccepted | tornado_http2/stream.py:194-205 | an accepted header list starts the delegate with the length declared, and the stream goes on to its body unless the response is informational |
| ContentLength.DeclaredLengthCompletes | tornado_http2/stream.py:198-246 | a request, or a response that is neither to HEAD nor 304, is complete exactly if its DATA add up to the length that the judgement of its headers declares |
| ContentLength.EmptyBodyCompletes | tornado_http2/stream.py:194-197 | a response to HEAD or with status 304 is complete exactly with no bytes, whatever its headers declare |
| ContentLength.UndeclaredCompletes | tornado_http2/stream.py:236-246 | without a declared length every body completes the message |
| ContentLength.FinalHeadersDecide | tornado_http2/stream.py:201-202 | the headers behind an informational response are accepted, and the length they declare counts |
| ContentLength.HeadersAlone | tornado_http2/stream.py:236-246 | headers with END_STREAM complete the message exactly if no length is left to wait for, and reset the stream otherwise |
| ContentLength.TrailersEnd | tornado_http2/stream.py:165-176 | a second block completes the message exactly if it ends the stream and nothing is left, and resets the stream otherwise |
| ContentLength.RefusedHeaders | tornado_http2/stream.py:137-192 | how each judgement of a header list ends its handling; the decoder has decoded the block in every case |
| ContentLength.UndecodableBlock | tornado_http2/stream.py:163-164 | a block that does not decode is a connection error COMPRESSION_ERROR |
| ContentLength.DependsOnItself | tornado_http2/stream.py:125-134 | a stream that depends on itself is a connection error |
| ContentLength.PriorityIsIgnored | tornado_http2/stream.py:125-134 | any other priority fields change nothing: the frame is handled like one without these five bytes |
| ContentLength.PriorityCutShort | tornado_http2/stream.py:125-128 | a block of fewer than five bytes that should hold priority fields raises, and nothing is decoded |
| Streams.JoinData | tornado_http2/stream.py:123 | the loop joins the fragments in order |
| Streams.SumLengths | tornado_http2/stream.py:102 | the loop's sum is the length of the joined fragments |
| Streams.Stream.constructor | tornado_http2/stream.py:30-46 | a stream in its first phase with nothing received and its own window |
| Streams.Stream.KeepRequest | tornado_http2/stream.py:281-282 | only the request line changes |
| Streams.Stream.MaybeEndStream | tornado_http2/stream.py:236-246 | new state, result and outcome are those of the specification |
| Streams.Stream.StartRequest | tornado_http2/stream.py:176-205 | the length to hold to, the phase and the call are those of the specification |
| Streams.Stream.UseHeaders | tornado_http2/stream.py:165-174 | the rest of header parsing once the headers are decoded |
| Streams.Stream.ParseHeaders | tornado_http2/stream.py:121-174 | the fragments are decoded together; new state, table and outcome are those of the specification |
| Streams.Stream.CheckHeaderLength | tornado_http2/stream.py:101-107 | a client's delegate is told of a block that is too long, and nothing else changes |
| Streams.Stream.AddFragment | tornado_http2/stream.py:87-90 | a fragment is kept, or the block parsed at its end |
| Streams.Stream.HandleHeadersFrame | tornado_http2/stream.py:83-90 | as specified, from the change of phase before the padding is looked at |
| Streams.Stream.HandleContinuationFrame | tornado_http2/stream.py:92-99 | as specified, refused without fragments |
| Streams.Stream.HandleDataFrame | tornado_http2/stream.py:207-227 | as specified, with every error in its order |
| Streams.Stream.HandleRstStreamFrame | tornado_http2/stream.py:254-259 | a started delegate is told, and the stream stays open |
| Streams.Stream.HandleFrame | tornado_http2/stream.py:53-78 | for every frame new state, window, table and outcome are those of the specification |
| Dispatch.SettingsStayLegal | tornado_http2/connection.py:243-267 | whatever a peer sends, the stored INITIAL_WINDOW_SIZE is at most 2^31-1 and MAX_FRAME_SIZE within its bounds |
| Dispatch.ReceiveAllIsRun | tornado_http2/connection.py:85-137 | reading frames one after the other is a run of the connection |
| SettingsEffect.SettingsTakeEffect | tornado_http2/connection.py:243-268 | SETTINGS are acknowledged exactly if every six bytes are a legal entry and none is cut short; the next stream then starts with the window of the last entry whose two bytes are [0, 4] |
| SettingsEffect.SettingsRefused | tornado_http2/connection.py:244-266 | otherwise the connection ends with the code of the first illegal entry, or with FRAME_SIZE_ERROR |
| SettingsEffect.RemoteOpensAlike | tornado_http2/connection.py:108-113 | a stream that a peer opens starts with the same window as one opened locally |
| SettingsEffect.OthersKeepSettings | tornado_http2/connection.py:85-142 | no other frame and no local event touches the settings |
| SettingsEffect.WindowFromSettings | tornado_http2/connection.py:226-227 | on every run of a connection that lives, the next stream starts with the big-endian value of the last entry [0, 4] of all SETTINGS so far, or with 65535 bytes |
| ByteLoop.LimitFromSettings | tornado_http2/connection.py:201-202 | on every such run a frame is refused with FRAME_SIZE_ERROR exactly if its length is beyond the last entry [0, 5] so far, or beyond 16384 bytes |
| ByteLoop.BytesAreFrames | tornado_http2/connection.py:85-142 | from bytes the loop handles written frames of at most 16384 bytes one after the other, whatever settings came before |
| ConnectionExamples.FirstRequestServed | tornado_http2/connection.py:85-142 | a server's first SETTINGS and HEADERS, byte by byte: the settings are acknowledged, the delegate is told of the request and its end, and the stream may be sent the window announced |
| Answers.PingIsEchoed | tornado_http2/connection.py:273-280 | a PING of eight bytes is echoed, one of another length ends the connection, an acknowledgement changes nothing |
| Answers.SettingsAckMustBeEmpty | tornado_http2/connection.py:238-242 | an acknowledgement of SETTINGS with data ends the connection |
| Answers.OtherControl | tornado_http2/connection.py:170-183 | on stream 0 GOAWAY ends the loop, unknown types are ignored and the types meant for streams are refused |
| Answers.ConnectionUpdate | tornado_http2/flow_control.py:29-47 | what a WINDOW_UPDATE on stream 0 does to the connection, from its bytes |
| Answers.FinishedIsClosed | tornado_http2/stream.py:68-69 | a finished stream answers headers, continuations, data and unknown types with STREAM_CLOSED |
| Answers.StreamControl | tornado_http2/stream.py:53-66 | PRIORITY and RST_STREAM of the wrong length, RST_STREAM of the right one, and the types a stream must not get |
| Answers.StreamUpdate | tornado_http2/flow_control.py:29-47 | what a WINDOW_UPDATE does to a stream, from its bytes |
| Answers.OutOfPlace | tornado_http2/stream.py:207-213 | DATA between fragments or behind trailers, and a CONTINUATION without a header block, end the connection |
| Answers.WrongLength | tornado_http2/stream.py:216-240 | DATA is answered with PROTOCOL_ERROR exactly if it goes beyond the length left or ends short of it |
| Answers.NotThere | tornado_http2/connection.py:115-134 | frames for streams of the past are ignored or answered with STREAM_CLOSED, those for streams of the future end the connection |
| Answers.HeadersCreate | tornado_http2/connection.py:99-113 | a client's headers create exactly their stream, unless the number is one of the server's own |
| Answers.LocalNumbers | tornado_http2/connection.py:63-68 | on every run the streams opened locally are 1, 3, 5 and so on at a client, 2, 4, 6 and so on at a server, without gaps |
| DispatchRuns.CreateIsFresh | tornado_http2/connection.py:63-68 | a locally created stream never takes the place of another, local or remote |
| DispatchRuns.StepKeeps | tornado_http2/connection.py:85-137 | every event keeps the invariant of the connection, and no stream is lost or goes back |
| DispatchRuns.RunKeeps | tornado_http2/connection.py:85-137 | so does every run |
| DispatchRuns.OneHeaderBlockAtATime | tornado_http2/connection.py:89-113 | on every run at most one stream has an unfinished header block, and it is the last one that handled a frame |
| DispatchRuns.NothingInBetween | tornado_http2/connection.py:89-93 | while a block is unfinished any frame but its continuation ends the connection with PROTOCOL_ERROR and reaches no stream |
| DispatchRuns.DelegateCallsInOrder | tornado_http2/stream.py:201-246 | on every run each delegate sees headers, then data, then at most one finish; only informational responses to a client precede other headers; finish is called exactly when a started stream finishes |
| DispatchRuns.CompletedIsComplete | tornado_http2/stream.py:194-246 | on every run a finished stream delivered exactly the length its headers announced |
| DispatchRuns.OverrunIsFinal | tornado_http2/stream.py:216-240 | once a body has overrun its length, nothing that can happen completes the stream |
| HeaderBlocks.ParseJoined | tornado_http2/stream.py:121-174 | only the joined fragments and the flags of the first matter to parsing |
| HeaderBlocks.LocalEvent | tornado_http2/connection.py:86-87 | what the application does while a header block is unfinished is the same as without its fragments |
| HeaderBlocks.RestOfBlock | tornado_http2/stream.py:92-99 | receiving all the continuations of a block, with anything local between them, parses the fragments once, together |
| HeaderBlocks.FirstFragment | tornado_http2/connection.py:94-113 | a HEADERS frame between blocks is refused, kept or parsed, on an existing stream or one made for it |
| HeaderBlocks.NonePendingWhenIdle | tornado_http2/connection.py:89-113 | on every run no stream has fragments once the last one has none |
| HeaderBlocks.FragmentationDoesNotMatter | tornado_http2/connection.py:85-113 | for every split into HEADERS and CONTINUATION, padded or not, with local events between them, the connection ends up as if the block had come in one frame, whatever the outcome |
| PeerBlocks.BlockIsUnderstood | tornado_http2/stream.py:121-164 | a block from the peer's encoder, with or without priority fields, is interpreted as the very headers encoded, and the decoder's table becomes the encoder's |
| PeerBlocks.BlockKeepsStep | tornado_http2/stream.py:121-174 | after a block on an open stream the tables are equal, even if the stream then refuses the headers |
| PeerBlocks.InStepExactly | tornado_http2/stream.py:68-69 | after a block on an existing stream the tables are equal if and only if the stream was open or the block left the encoder's table as it was |
| PeerBlocks.HeaderInStepExactly | tornado_http2/stream.py:68-69 | for one header that is: unless the stream is finished, and the header is to be indexed, in no table yet, and fits the table or empties it |
| PeerBlocks.DecoderFallsBehind | tornado_http2/stream.py:68-69 | the run: a server reads a request that ends its stream, then a new header on it; the connection lives on and the tables differ |
| PeerBlocks.OtherFrames | tornado_http2/stream.py:53-81 | no other kind of frame touches the decoder or the fragments |
| PeerBlocks.TablesStayInStep | tornado_http2/connection.py:85-137 | with blocks on any streams in any split, and any other frames and local events between blocks and fragments, the decoder's table is the peer's encoder's table as long as the connection lives |
| PeerBlocks.InStepFromTheStart | tornado_http2/connection.py:85-137 | the same from the start of a connection, for a client that opens streams along the way and for a server |
| PeerBlocks.FirstBlockIsSendable | tornado_http2/connection.py:63-113 | on a fresh connection of either role a first block can be sent in this way |
| Connections.Connection.constructor | tornado_http2/connection.py:28-46 | a connection without streams, with its window and first stream number |
| Connections.Connection.StoreSettings | tornado_http2/connection.py:243-267 | the loop stores settings up to the first refused one, as specified |
| Connections.Connection.HandleSettingsFrame | tornado_http2/connection.py:237-268 | settings, acknowledgement and error are those of the specification |
| Connections.Connection.HandleFrame | tornado_http2/connection.py:163-183 | for every frame on stream 0 the new connection and outcome are those of the specification |
| Connections.Connection.HandleOnStream | tornado_http2/connection.py:96-98 | only that stream, the decoder and `last_stream` change |
| Connections.Connection.AddStream | tornado_http2/connection.py:108-111 | one new stream with the peer's initial window, all others as they were |
| Connections.Connection.CreateStream | tornado_http2/connection.py:63-68 | the next local number, which is always free, is used, and all other streams are as they were |
| Connections.Connection.WriteRequest | tornado_http2/stream.py:281-282 | a client keeps its request line, on which the length of the response body depends |
| Connections.Connection.Consume | tornado_http2/flow_control.py:49-60 | credit is taken from one stream's window and the connection's, and nothing else changes |
| Connections.Connection.CloseWindow | tornado_http2/flow_control.py:19-21 | one stream's window is closed and its waiters are woken, and nothing else changes |
| Connections.Connection.HandleOnNewStream | tornado_http2/connection.py:106-113 | the stream is created and handles the frame, as specified |
| Connections.Connection.Refuse | tornado_http2/connection.py:114-134 | the error for an unknown stream depends on its number and the frame type, as specified |
| Connections.Connection.Act | tornado_http2/connection.py:89-134 | the dispatch of the loop, for every frame and state |
| Connections.Connection.Conclude | tornado_http2/connection.py:135-158 | a stream error is answered and the loop goes on, any other ends it |
| Connections.Connection.Receive | tornado_http2/connection.py:86-142 | one turn of the loop |
| Connections.Connection.ConnLoop | tornado_http2/connection.py:85-142 | the loop over any frames, on objects, computes the specified run |
| Connections.Connection.ReadFrame | tornado_http2/connection.py:196-210 | the frame at the front of the bytes that have arrived, refused beyond the limit that the settings give |
| Connections.Connection.ServeBytes | tornado_http2/connection.py:85-142 | the loop from bytes, on objects, computes the specified run |
| ConnectionSession.ReceiveKeepsWindows | tornado_http2/flow_control.py:29-52 | whatever is read, no waiter is left on a window that is open and has credit |
| ConnectionSession.Connect | tornado_http2/connection.py:28-46 | a fresh connection with a decoder built from the published tables |
| ConnectionSession.Perform | tornado_http2/connection.py:63-142 | reading, opening a stream, writing a request, taking credit and closing a window are exactly the events they should be, on the objects |
| ConnectionSession.Play | tornado_http2/connection.py:63-142 | so is any sequence of them |
| ConnectionSession.ScriptFrames | tornado_http2/connection.py:85-87 | the frames among those events are the ones that arrive, in order |
| ConnectionSession.ObjectsAreOrderly | tornado_http2/stream.py:194-246 | what all runs keep, said of the stream objects |
| ConnectionSession.Serve | tornado_http2/connection.py:28-142 | from creation through any script, the objects themselves show calls in order, exactly the announced lengths, one unfinished header block at most, and the peer's encoder table in the decoder |

## Left out

- Sockets, TLS, the event loop, logging, the client, curl and server modules, the preface and GOAWAY bookkeeping.
- The parsing of the two table files: the tables are constants, and the construction of maps and tree is modelled.
- Header semantics: `interpret` stands for the checks of tornado_http2/stream.py:135-192, and decompression of bodies and the joining of repeated headers are not part of this model.
- Delegates that raise or that call back into the stream while they are being called.
- Streams.Stream.CheckHeaderLength: does not model the 431 response that a server writes for a header block that is too large; the response is not receive state, and the code goes on to handle the block as modelled.
- Streams.Stream.AddFragment: like CheckHeaderLength, does not model the 431 response.
- HeaderBlocks.FragmentationDoesNotMatter: asks for blocks of at most `max_header_size` bytes, because beyond it a client's delegate is told once a fragment.
- PeerBlocks.TablesStayInStep: asks that blocks are sent on streams that are not finished; PeerBlocks.InStepExactly shows what happens otherwise.
- The write path is modelled on values, as a transition system, because its coroutines are suspended in between; `Window` alone is also a class there.
- WriterRuns.DataInOrder: says nothing of the place of END_STREAM if the application writes a chunk after `finish`, which the code lets it do without a Content-Length, nor of the length if it declares one after `finish`.
- Closing a window is an action of the write path and of a session although the repository itself never calls `Window.close`.
- Between endpoints DATA is written without padding, header blocks in one frame and without END_STREAM, as the write path does.
- The frames with which a receiver answers are in `Network` only as far as they are WINDOW_UPDATEs, and these are not among the replies of `Dispatch`; GOAWAY messages are left out of the replies.
- A change of INITIAL_WINDOW_SIZE does not reach open streams in the code, nor does a change of HEADER_TABLE_SIZE reach the encoder; neither does in the model.
- PRIORITY beyond its length and self-dependency checks, server push, and the upgrade from HTTP/1.1.
