# A verified model of ntex-h2

This project models the protocol core of ntex-h2, an HTTP/2 library, and proves what the
library is relied on for. `dafny verify dfyconfig.toml` checks all of it.

## What is modelled

**Header compression (RFC 7541).** `HpackFifo` is the dynamic table as the RFC describes it,
and the answers a linear scan of it would give. `RobinHood`, `RobinHoodGrow`, `HpackSlots`
and `HpackTable` are the encoder's table as it is built: slots addressed by position relative
to the number of insertions, names linked from the oldest slot to the youngest, a Robin Hood
hash array over the oldest slot of each name, eviction with backward shift, growth. The class
`HpackTable.Table` refines the linear scan for every hash function. `HpackInt`,
`HuffmanCode`, `Huffman`, `HpackString` and `HpackWire` are the octets; `HpackSession` proves
that for every run both ends stay equal; `HpackSplit` that a block may be cut anywhere,
`HpackSensitive` that sensitive headers are never indexed, `HpackBlocks` that the blocks of
every peer are decoded to what they mean or refused with their error.
`HpackEncoder`, `HpackDecoder` and `HpackPeers` are the two ends as they run.

**Frames and header sections (RFC 9113).** `Framing` splits octets into frames, `HeaderBlock`
checks a decoded header list, `Codec` cuts header blocks into HEADERS and CONTINUATION and puts
them together, `Message` follows runs of header sections the whole way, and `CodecState` is
the decoding loop as it runs.

**Connections and streams.** `Connection` holds the state of a connection and its streams, and
one function for each step that changes it: calls of the application, frames of the peer,
failures. `ConnectionLife`, `ConnectionSend` and `ConnectionReceive` are three invariants and
what keeps them; `ConnectionRuns` puts the steps together into runs, and
`ConnectionTheorems` and `ConnectionEarly` say what holds in every reachable state.
`ConnectionFrame`, `ConnectionEffects` and `ConnectionMessage` state what each event does and
what it leaves alone, in terms of the fields before and after; `ConnectionLedger` and
`ConnectionMessage` sum that up over runs, as what was granted, sent and delivered.
`ConnectionState` is the object with its cells and loops; its `Handle` takes the step of every
event and stays in reachable states. `Window`, `Messages`
(content-length), `SendPages` and `Timer` are the parts beside it.

## How to read it

- A step that the code takes in place is written twice: as a function, about which the theorems
  are, and as a method of a class, with the code's loops, proved equal to it.
- Every stream ever opened stays in `Conn.streams`, as its handles and capacity values may
  outlive its place in the map; `mapped` is the map.
- A connection has one role. A client opens all its streams and accepts none, a server
  accepts all and opens none, as the code does with push disabled.
- Iteration over a hash map is in an arbitrary order, which is a parameter of the step.
- A stream error and the reset that the dispatcher answers it with are one step; a
  connection error includes the failing of all streams. The limit on stream resets is an
  event that may fail the connection at any time.
- Sleeping tasks: `parked` is a task that got Pending and has not been woken since. One
  task sends on a stream, as the library demands.
- A waiter for a slot is `parked` in the queue, `notified`, or gone.
- `fits`, `pending` and the like in events are answers of code that is not part of the model:
  whether a header list is within the peer's limit, whether an id is among recent resets.

Premises, each a predicate in the project:

- `Huffman.Walks`: the decode table walks the prefix code of the encode table four bits at a
  time, and marks the all-ones paths shorter than eight bits. `HuffmanCode.WellFormed`:
  that code is a prefix code with codes of 5 to 30 bits whose EOS is all ones.
- `Env.nameOk` and `Env.valueOk` stand for the parsers of names and values of other crates;
  `ValidHeader` says that printing a header and parsing it are inverse.
- `ValidConfig`: window thresholds are at least one. `Window.ZeroIncrement` says why.

Conventions: slot positions and insertion numbers are mathematical integers where the code
wraps around; array masks are remainders by a power of two; `|` on bits that are clear is
addition; windows are integers and are proved to stay within 32 bits.

What the code does and a reader may not expect, all kept as it is:

- `value_eq` never matches `:status`, so such a header is inserted again.
- A literal with an empty name fails with the error that asks for more input, with its plain
  strings already gone from the source.
- An empty content-length value is read as zero.
- An empty DATA frame is refused while the stream's window is negative.
- Received data is released against the configured window even before the peer has
  acknowledged it; `ConnectionEarly` says exactly when a stream then exceeds it, and shows
  a connection on which one does.
- HEADERS that arrive after a connection error may still open a stream.

## Model

| member | source | states |
|---|---|---|
| `RobinHood.Reachable` | src/hpack/table.rs:162-189 | Every bucket between an entry's home and the entry is occupied by one at least as displaced as a search would be there, so a probe may stop at an empty bucket or at a smaller displacement without missing anything |
| `RobinHood.EmptyBound` | src/hpack/table.rs:626-643 | No entry is displaced across an empty bucket, so with one empty bucket displacements stay below the array's length and every probe loop ends |
| `RobinHoodGrow.Grow` | src/hpack/table.rs:447-479 | Doubling the array, entries reinserted from the first one at home, keeps every position exactly once and the displacement order |
| `RobinHoodGrow.ReinsertEntryInOrder` | src/hpack/table.rs:481-502 | Plain linear probing is enough during growth: the next entry of the old order lands where the order is kept |
| `HpackTable.RemovePhaseTwo` | src/hpack/table.rs:410-429 | Backward shift: after an entry is taken out the remaining entries are the same and the displacement order holds again, with no displacement raised |
| `HpackTable.Evict` | src/hpack/table.rs:361-406 | Eviction drops exactly the oldest slot; its bucket goes to the next slot of the same name, to the entry about to be inserted, or is closed by a backward shift; it always finds the bucket and never meets an empty table |
| `HpackTable.Converge` | src/hpack/table.rs:350-359 | Repeated eviction keeps the longest run of young slots that fits the budget left by the pending insertion |
| `HpackTable.Probe` | src/hpack/table.rs:162-189 | The probe ends, at the bucket of the header's name if there is one and otherwise where a new one belongs |
| `HpackTable.IndexVacant` | src/hpack/table.rs:253-319 | For a name the table does not hold, answer and new contents are those of the linear scan, also when eviction moves buckets under the probe |
| `HpackTable.IndexOccupied` | src/hpack/table.rs:192-251 | For a name the table holds, walking the links from the oldest slot gives the answer and the contents of the linear scan, also when the insertion evicts the slot it hangs on |
| `HpackTable.ReserveOne` | src/hpack/table.rs:431-444 | After it the load is below three quarters of the array and the table holds what it held |
| `HpackTable.IndexDynamic` | src/hpack/table.rs:147-190 | The dynamic part of the answer and the new contents equal those of a plain scan of the list |
| `HpackTable.Table.Index` | src/hpack/table.rs:121-145 | The hashed table refines the list of RFC 7541: its answer and its contents afterwards are those of a linear scan, for every hash function |
| `HpackTable.Table.Resolve` | src/hpack/table.rs:104-109 | An answer stands for the header it carries or for the slot just inserted |
| `HpackTable.Table.Resize` | src/hpack/table.rs:332-343 | Resizing leaves the longest run of young entries that fits |
| `HpackSlots.FreeBucket` | src/hpack/table.rs:626-628 | Each name has one bucket, so with the load limit there is always an empty bucket |
| `HpackFifo.EvictToIsLongest` | src/hpack/table.rs:345-359 | No longer run of young entries would fit the budget |
| `HpackFifo.EvictTwice` | src/hpack/table.rs:350-359 | Evicting to one budget and then another is evicting to the smaller |
| `HpackFifo.InsertFits` | src/hpack/table.rs:321-330 | After an insertion the size is within the limit |
| `HpackHeader.SkippedNamesAreStatic` | src/hpack/table.rs:124-132 | A header whose value is never indexed has a name in the static table, as the debug assertion expects |
| `HpackHeader.SkippedNames` | src/hpack/header.rs:194-213 | The values never put into the table are those of the path and of nine fields |
| `HpackHeader.LenIsOctets` | src/hpack/header.rs:133-143 | The size of an entry is the octets of its name and value and 32 |
| `HpackHeader.IndexStaticIsExact` | src/hpack/table.rs:651-739 | A name is found in the static table exactly if it is there, and its value with it exactly if some entry has both; values the table leaves empty never match |
| `HpackSession.ScanIsTrue` | src/hpack/table.rs:121-319 | Every answer by index names an entry of the list (static or dynamic, as it is before the insertion) with that name, and with that value where it claims a full match |
| `HpackSession.FullMatchIsFound` | src/hpack/table.rs:192-222 | An entry with the name and an equal value in the sense of `value_eq` is always found, the oldest one, and then nothing is inserted |
| `HpackSession.InsertsExactly` | src/hpack/table.rs:121-319 | A header is put into the table exactly if its value may be indexed, it fits three quarters of the limit, no static entry stands for it, it is not sensitive, and no entry matches it in full; otherwise the table stays as it was |
| `HpackInt.IntRoundTrip` | src/hpack/decoder.rs:399-456 | Decoding an encoded integer gives it back exactly if it is below 2^28 plus the prefix mask, and an overflow error otherwise, whatever follows |
| `HpackInt.IntShort` | src/hpack/decoder.rs:413-455 | A proper prefix of a good integer asks for more |
| `HpackInt.PutInt` | src/hpack/encoder.rs:250-274 | The loop appends the octets of section 5.1 of RFC 7541 |
| `HpackInt.GetInt` | src/hpack/decoder.rs:399-456 | The loop reads what the decoding function says and leaves the cursor behind it |
| `HpackInt.Examples` | src/hpack/encoder.rs:250-274 | The three examples of section C.1 of RFC 7541 |
| `HuffmanCode.HuffmanExact` | src/hpack/huffman/mod.rs:20-66 | `decode(x)` gives `s` if and only if `x` is `encode(s)`: no other octets decode to it, padding included |
| `Huffman.Take` | src/hpack/huffman/mod.rs:47-51 | Or-ing a code into the 40-bit accumulator is appending its bits |
| `Huffman.Flush` | src/hpack/huffman/mod.rs:53-58 | The octets shifted out are the first pending bits, eight at a time, until less than eight are left |
| `Huffman.PutPadded` | src/hpack/huffman/mod.rs:61-65 | The rest is padded with ones |
| `Huffman.Encode` | src/hpack/huffman/mod.rs:43-66 | The accumulator loop writes the codes one after the other, padded with ones |
| `Huffman.Decode4` | src/hpack/huffman/mod.rs:77-96 | One step of the automaton reads four bits of the code |
| `Huffman.Decode` | src/hpack/huffman/mod.rs:20-41 | The nibble loop accepts and yields exactly what decoding bit by bit does, behind what the buffer already held |
| `HpackString.StringRoundTrip` | src/hpack/encoder.rs:202-247 | An encoded string is read back, with the octets behind it untouched, exactly if its Huffman form is short enough to announce |
| `HpackString.PutStr` | src/hpack/encoder.rs:202-247 | Placeholder, shift and head come to the length prefix followed by the Huffman octets |
| `HpackString.ShiftUp` | src/hpack/encoder.rs:235-239 | Copying from the last octet down moves the string up in place without overwriting what is still to be moved |
| `HpackString.ParsesBack` | src/hpack/header.rs:108-129 | Making a header of the name and value octets of a valid header gives it back |
| `HpackWire.RepresentationMasks` | src/hpack/decoder.rs:373-396 | For every octet the tests by bit masks, in the order of the code, find the representation that the ranges give; the error of an unknown representation cannot occur |
| `HpackSession.HeaderAgrees` | src/hpack/encoder.rs:114-153 | What is written for one header is read as that header, and the insertion it calls for is the insertion the encoder made; an index the encoder used is still good for the next value without a name |
| `HpackSession.InsertedValueAgrees` | src/hpack/table.rs:224-238 | A name reference to an entry that the same insertion evicts is still valid for the decoder |
| `HpackSession.BlockRoundTrip` | src/hpack/encoder.rs:69-95 | A list of headers and values without names is decoded in full to what it means, and leaves equal tables |
| `HpackSession.QueueOne` | src/hpack/encoder.rs:31-59 | Queueing a size has the effect of one more resize |
| `HpackSession.CoalescedIsSequential` | src/hpack/encoder.rs:31-112 | However many sizes are queued, the one or two that are applied and announced have the effect of applying all of them in turn |
| `HpackSession.NothingToAnnounce` | src/hpack/encoder.rs:31-59 | A size that the table has already is not announced |
| `HpackSession.EncodeDecode` | src/hpack/encoder.rs:63-112 | One block with its size updates: the headers come back and the tables are equal afterwards |
| `HpackBlocks.TextIsRead` | src/hpack/decoder.rs:314-361 | A string is read as it was, plain or coded, at every length that can be announced |
| `HpackBlocks.BlockIsDecoded` | src/hpack/decoder.rs:197-312 | Section 6 of RFC 7541 for every peer: any run of references, literals of the three kinds with names spelled or by index and strings plain or coded, and size updates in front, is decoded in full to its headers and leaves the table it calls for |
| `HpackBlocks.IllegalIsRefused` | src/hpack/decoder.rs:240-312 | An index of no entry, octets that make no header, a size update above the limit or behind a header: each ends the block with its error and the table as it is; what is left of the source is the whole representation, but for plain strings of a literal that makes no header |
| `HpackBlocks.BlockIsRefused` | src/hpack/decoder.rs:197-261 | Behind any legal run the first illegal representation is refused, with the headers and the table of the run |
| `HpackSensitive.SensitiveIsNeverIndexed` | src/hpack/encoder.rs:114-200 | For every table: a header that no entry stands for in full is written as a never-indexed literal exactly if it is sensitive; a sensitive header leaves the table as it was |
| `HpackSensitive.NamelessIsNeverIndexed` | src/hpack/encoder.rs:155-168 | A value that repeats the last name is written as a never-indexed literal exactly if it is sensitive |
| `HpackSensitive.BlockIsProtected` | src/hpack/encoder.rs:69-95 | Over a whole block, as a decoder comes to the representations: every sensitive header is a never-indexed literal or a reference to an entry that stands for all of it, no other header is marked, and a value without a name is never a reference |
| `HpackSensitive.EncodedIsProtected` | src/hpack/encoder.rs:63-112 | The same with the queued size updates in front |
| `HpackSession.SessionStaysInSync` | src/hpack/decoder.rs:197-261 | For every run of size changes (capped at 4096) and header lists, each block decodes to its headers without remainder, and both tables end equal in entries and limit |
| `HpackSession.FreshSession` | src/hpack/encoder.rs:171-175 | In particular from a new connection |
| `HpackSplit.StringLocal` | src/hpack/decoder.rs:314-354 | A prefix of a good string is either enough for it or asks for more |
| `HpackSplit.StepLocal` | src/hpack/decoder.rs:206-258 | A prefix of a good representation is either enough for it or asks for more with nothing consumed |
| `HpackSplit.SplitInvariance` | src/hpack/decoder.rs:484-495 | If a whole block decodes, then for every cut the first part decodes or asks for more, leaves a suffix that starts at a representation, and decoding that with the rest gives the same headers and the same table |
| `HpackDecoder.Table.Insert` | src/hpack/decoder.rs:537-548 | The decoder's list takes an entry as RFC 7541 says, with its running size equal to the sum of its entries |
| `HpackDecoder.Table.SetMaxSize` | src/hpack/decoder.rs:550-554 | A new limit evicts as RFC 7541 says |
| `HpackDecoder.Table.Consolidate` | src/hpack/decoder.rs:567-581 | The loop ends within the limit and its panic is unreachable |
| `HpackDecoder.Table.Reserve` | src/hpack/decoder.rs:556-565 | Oldest entries go until the new one fits or nothing is left |
| `HpackDecoder.Cursor.Take` | src/hpack/decoder.rs:462-469 | The head is split off with everything before it |
| `HpackDecoder.ConsumeMarker` | src/hpack/decoder.rs:472-481 | A string read tentatively is delivered, cut off the source if it was plain and passed over if it was Huffman-coded |
| `HpackDecoder.Decoder.TryDecodeString` | src/hpack/decoder.rs:314-354 | The string and the octets it takes, or the exact error |
| `HpackDecoder.Decoder.DecodeLiteral` | src/hpack/decoder.rs:286-312 | The header, the octets gone from the source in each case, and on an error in its octets an untouched source |
| `HpackDecoder.Decoder.ProcessSizeUpdate` | src/hpack/decoder.rs:263-279 | A size above the limit is refused without effect, another one resizes |
| `HpackDecoder.Decoder.DecodeNext` | src/hpack/decoder.rs:209-258 | One turn of the loop does what one representation asks for, to the table and to the source |
| `HpackDecoder.Decoder.Decode` | src/hpack/decoder.rs:197-261 | The running decoder emits the headers, leaves the table, the source and the error of the block decoding function |
| `HpackEncoder.Encoder.EncodeSizeUpdates` | src/hpack/encoder.rs:98-112 | Queued sizes are applied to the table and announced in that order |
| `HpackEncoder.Encoder.EncodeHeader` | src/hpack/encoder.rs:114-153 | The octets appended are those of the answer, whose first one `HpackSensitive.SensitiveIsNeverIndexed` and whose meaning `HpackSession.HeaderAgrees` fixes; an inserted header is never sensitive |
| `HpackEncoder.Encoder.EncodeAll` | src/hpack/encoder.rs:69-95 | The loop appends the block and leaves the table of the encoding function |
| `HpackEncoder.Encoder.Encode` | src/hpack/encoder.rs:63-96 | The running encoder, hashed table included, writes and keeps what the encoding function says, so that its blocks are decoded by `HpackSession.EncodeDecode` and protect sensitive headers by `HpackSensitive.EncodedIsProtected` |
| `HpackPeers.Exchange` | src/hpack/encoder.rs:63-96 | Running encoder to running decoder: the headers arrive and the two tables are equal again |
| `HeaderBlock.LoadAll` | src/frame/headers.rs:495-570 | The closure over the decoded headers comes to the verdict of the fold |
| `HeaderBlock.SectionIsExact` | src/frame/headers.rs:465-571 | A section is accepted if and only if pseudo-headers come first and once, no field is connection-specific, and both limits hold; then it is exactly what the list says |
| `HeaderBlock.SectionRoundTrip` | src/frame/headers.rs:354-389 | A section sent in the library's order is read back as it was exactly if it is within the limits |
| `Framing.HeadRoundTrip` | src/frame/head.rs:52-83 | Length, kind, flag and stream id of a frame are read back |
| `Framing.HeadLayout` | src/frame/head.rs:73-83 | The nine octets of a head are the 24-bit length, type, flags and 31-bit stream id, most significant octet first |
| `Framing.FrameDecoder.Decode` | src/codec/frame_decoder.rs:36-59 | A frame is split off exactly when it is there in full; the size limit is checked once per frame, so a lower limit does not affect a frame in progress |
| `Framing.FrameDecoder.DecodeAll` | src/codec/frame_decoder.rs:36-59 | Repeated decoding splits a buffer into its frames |
| `Framing.SplitMore` | src/codec/frame_decoder.rs:36-59 | Octets that come later only add frames |
| `Framing.ChunksDoNotMatter` | src/codec/frame_decoder.rs:36-59 | The frames, their order and the error do not depend on how the octets are cut into chunks |
| `Codec.EncodeBlock` | src/frame/headers.rs:598-641 | The loop writes one HEADERS frame and as many CONTINUATION frames as it takes |
| `Codec.CutFits` | src/frame/headers.rs:618-634 | Fragments are within the limit and add up to the block, END_HEADERS is on the last frame alone, END_STREAM as asked for |
| `Codec.BlockAssembles` | src/codec/mod.rs:339-391 | A block that was cut comes together with its stream id and END_STREAM if it is one frame or the receiver's limits admit it, and is refused otherwise |
| `Codec.HeadIsLoaded` | src/frame/headers.rs:151-202 | For every flag, padding of up to 255 octets, five octets of priority and fragment: what is taken off a HEADERS frame is the fragment, and it is marked exactly if a priority names its own stream |
| `Codec.HeadIsRefused` | src/frame/headers.rs:155-190 | It is malformed exactly on stream 0, without the octets its flags announce, or with more padding than there is room for |
| `Codec.DataIsLoaded` | src/frame/data.rs:118-137 | For every flag and padding of up to 255 octets: a DATA frame delivers its data as it was, and padding with its length octet counts for flow control |
| `Codec.DataIsRefused` | src/frame/util.rs:19-40 | It is malformed exactly on stream 0, without its length octet, or with more padding than there is room for |
| `Codec.PaddedBlockAssembles` | src/codec/mod.rs:252-391 | A block whose HEADERS frame is padded and has a priority comes together from its fragments alone, exactly if the limits admit it |
| `Codec.NoPromises` | src/codec/mod.rs:207-225 | A run of frames that is accepted has no PUSH_PROMISE in it |
| `Codec.OthersPass` | src/codec/mod.rs:227-399 | Between blocks frames of other known kinds are handed on in order, unknown ones are ignored |
| `Codec.NothingInBetween` | src/codec/mod.rs:217-225 | In every run of frames that is accepted, everything behind a HEADERS frame without END_HEADERS, up to and including the first frame with it, is a CONTINUATION of the same stream |
| `Codec.ContinuationBelongs` | src/codec/mod.rs:339-343 | In every run that is accepted, each CONTINUATION has a HEADERS frame of its stream before it that it continues, with nothing else between |
| `Codec.PartialIsBounded` | src/codec/mod.rs:366-378 | After every run of frames, accepted or not, what is kept of an incomplete block is at most the header list limit or one frame |
| `CodecState.CodecState.Decode` | src/codec/mod.rs:202-402 | The loop returns the next frame, keeps the incomplete block and the table, and leaves the rest of the buffer; what it takes off a HEADERS frame is fixed by `Codec.HeadIsLoaded` and `Codec.HeadIsRefused` |
| `CodecState.CodecState.OnChunk` | src/codec/mod.rs:202-402 | Called on each chunk with what is left of the last ones, the loop hands out the frames, keeps the incomplete block and the table, and leaves the octets that draining them says |
| `Message.DrainIsAllAtOnce` | src/codec/mod.rs:202-402 | Decoding frame by frame yields the frames, the incomplete block, the table and the rest that splitting, assembling and loading the whole buffer would |
| `Message.DrainMore` | src/codec/mod.rs:202-402 | Draining a buffer and then what it leaves with more octets is draining all of them |
| `Message.ChunkedIsWhole` | src/codec/mod.rs:202-402 | Reading chunk by chunk, incomplete block, table and leftover carried on, comes to the same frames, the same error and the same end as reading all octets at once, however they are cut |
| `Message.BlockIsLoaded` | src/codec/mod.rs:39-61 | The receiver's table follows the sender's whether or not the section is accepted; it is accepted exactly if it is within the limits, and is then what was sent but for the mark of sensitivity |
| `Message.SelfDependentIsLoaded` | src/codec/mod.rs:39-61 | A block whose stream depends on itself moves the table like any other, and is refused |
| `Message.MessageRoundTrip` | src/frame/headers.rs:598-641 | A run of header sections and table size changes that is compressed, cut, written, read in any chunks, assembled, decompressed and checked arrives in order as it was but for the mark of sensitivity, with stream ids and END_STREAM, each section refused exactly if it exceeds the limits; nothing is left over and the tables are equal at the end |
| `Window.UpdateBounds` | src/window.rs:42-60 | After an update what is outstanding is within one threshold of the limit, the increment is positive, and nothing leaves 32 bits |
| `Window.ZeroIncrement` | src/window.rs:42-60 | An increment of zero is announced if and only if the threshold is zero and nothing of a window below the limit is to be reclaimed |
| `ConnectionReceive.Consuming` | src/stream.rs:322-358 | Consuming part of a token keeps the sums of the tokens equal to both counters, and both windows within their bounds |
| `ConnectionReceive.Merging` | src/stream.rs:78-111 | Merging tokens conserves what is held |
| `ConnectionReceive.ReceivingData` | src/connection.rs:948-983 | DATA in every case (accepted, padded, over the stream's window, malformed, for a closed stream) keeps the conservation and the bounds |
| `ConnectionReceive.ReceivingAck` | src/connection.rs:1003-1034 | The acknowledgment moves the windows of the open streams into their bounds and fails those it overflows |
| `ConnectionReceive.NoUnderflow` | src/stream.rs:322-331 | Whoever holds data can give it back: neither unsigned subtraction underflows |
| `ConnectionReceive.IncrementsArePositive` | src/stream.rs:336-356 | Every increment announced on consumption is at least one and fits, and the subtraction before it does not overflow |
| `ConnectionEarly.WithinAfterAck` | src/connection.rs:1016-1030 | In every reachable state before the acknowledgment: after it an open stream that it does not fail is within the configured window if and only if its window and unconsumed data were at most the default before |
| `ConnectionEarly.StaysWithin` | src/stream.rs:322-358 | Once a stream is within the configured window after the acknowledgment it stays within it for the rest of every run, as long as its receiving half is open |
| `ConnectionEarly.EarlyStreamKeepsBound` | src/stream.rs:322-358 | Both together: an early stream found at most at the default keeps the bound of later streams for the rest of every run |
| `ConnectionEarly.SmallWindowsAreKept` | src/stream.rs:336-343 | With a configured window up to the default that is the case for every stream |
| `ConnectionEarly.EarlyStreamExceeds` | src/stream.rs:336-343 | A reachable state in which it fails, by a request, 65535 octets of data, their consumption and the acknowledgment: the peer has a window of 134465 where 100000 is configured |
| `ConnectionTheorems.ReceivedDataIsHeld` | src/stream.rs:304-358 | In every reachable state the counters are the sums of the tokens held (those of removed streams included), the connection window is 65535 plus increments less octets accepted, and the two-sided bound holds |
| `ConnectionTheorems.StreamCreditIsBounded` | src/stream.rs:322-358 | In every reachable state a stream opened after the acknowledgment and open for receiving is within one threshold below and not above the configured window |
| `Messages.ReadU64` | src/stream.rs:1251-1268 | The loop reads at most 19 digits as a decimal number and never overflows 64 bits; the empty value is zero |
| `Messages.ContentLengthHolds` | src/stream.rs:536-702 | Over every run of frames of one message: no more is delivered than content-length promised, all of it if the message ends without an error (a 304 may promise what it leaves out), and nothing in answer to HEAD; `ConnectionMessage.ContentLengthOfRuns` is the same for the streams of a connection |
| `Messages.HeadersOpen` | src/stream.rs:586-612 | The section that opens the payload: without content-length, or in answer to HEAD, nothing is promised; otherwise the decimal number of at most 19 digits is, and the message is broken exactly if it is no such number or END_STREAM leaves it unmet outside a 304 |
| `Messages.InterimIsSkipped` | src/stream.rs:550-584 | A well-formed interim response changes nothing, a malformed response breaks the message |
| `Messages.TrailersEnd` | src/stream.rs:613-633 | Trailers are accepted exactly if they have no pseudo-headers, END_STREAM is there and nothing that was promised is missing |
| `Messages.NothingAfterTheEnd` | src/stream.rs:634-702 | Whatever arrives after the end breaks the message |
| `Messages.PayloadIsExact` | src/stream.rs:664-702 | Payload in frames of any lengths is accepted exactly if it adds up to the promise when it ends the message, and to no more when it does not |
| `Messages.MessageIsAccepted` | src/stream.rs:536-702 | A header section with a content-length and any frames after it, the last with END_STREAM: accepted exactly if their lengths add up to it |
| `Messages.ResponsesAreGood` | src/stream.rs:550-573 | A response is well formed exactly if a status is its only pseudo-header, and an interim one neither ends the stream nor switches protocols |
| `Messages.RequestsAreGood` | src/connection.rs:841-861 | Every request with a method other than CONNECT, a scheme and a path that are not empty is accepted, and CONNECT with an authority that is not |
| `ConnectionMessage.HeadersAreHeard` | src/stream.rs:536-636 | HEADERS on a stream of the map move its receiving half and remaining length as the message moves; it fails exactly if the message is broken; no other stream changes |
| `ConnectionMessage.RequestIsHeard` | src/connection.rs:790-880 | A request that a server takes up begins a message in a new stream with the initial window; all other streams are as they were |
| `ConnectionMessage.HeadersAreIgnored` | src/connection.rs:745-880 | Every other HEADERS frame changes no stream or ends the connection, with the condition for each; one that is refused uses up its id |
| `ConnectionMessage.DataIsHeard` | src/stream.rs:638-702 | DATA within both windows moves its stream as the message moves; what is delivered is held by a new token, padding is given back, and both windows pay; a refused frame is given back whole |
| `ConnectionMessage.DataOverruns` | src/stream.rs:638-662 | Beyond the window of its stream DATA fails the stream, beyond that of the connection it ends the connection |
| `ConnectionMessage.DataIsIgnored` | src/connection.rs:948-983 | DATA for a stream that is not in the map is consumed at once, or ends the connection, with the condition |
| `ConnectionMessage.StreamsFollowMessages` | src/stream.rs:536-702 | For every run and every stream: unless it has failed, its receiving half and remaining length are where the frames handed to it take a new message, and the octets delivered to it are those the message counts |
| `ConnectionMessage.ContentLengthOfRuns` | src/stream.rs:536-702 | Over every run of a connection the octets delivered on a stream are at most what its header section promised, all of it if it has ended without an error (but for a 304), and none in answer to HEAD |
| `ConnectionSend.SleepersMustWait` | src/stream.rs:1089-1114 | A task that sleeps on capacity would be told to wait again |
| `ConnectionSend.Telling` | src/connection.rs:1126-1131 | When the connection window was empty, waking the streams of the map is enough |
| `ConnectionSend.Adding` | src/connection.rs:1126-1131 | When it was not empty nobody needs waking |
| `ConnectionSend.SendingChunk` | src/stream.rs:932-963 | A frame is charged to both windows, leaves only where both are open, and leaves no sleeper behind that could send |
| `ConnectionSend.AdjustingAll` | src/connection.rs:1083-1102 | Moving all stream windows to a new initial size keeps every ledger; a window can only overflow upwards |
| `ConnectionSend.TimingOut` | src/stream.rs:1028-1050 | A capacity timeout that fires for a sleeping task always resets its stream |
| `ConnectionTheorems.SleepingSenderWouldWait` | src/stream.rs:1089-1114 | No lost wake-up: in every reachable state polling a sleeping sender again changes nothing, and its timer is armed if one is configured |
| `ConnectionTheorems.TimersAreOfMappedStreams` | src/connection.rs:662-707 | A capacity timer belongs to a stream of the map |
| `ConnectionTheorems.SendWindowsAccount` | src/stream.rs:724-759 | In every reachable state the connection window is 65535 plus credit less octets sent and not negative, and each mapped stream's window is the current initial size plus credit less octets sent and not below -(2^31-1); what credit and octets sent are is `ConnectionLedger.WindowsOfRuns` |
| `ConnectionLedger.StepBooks` | src/stream.rs:724-736 | Every event moves every ledger by what it grants and what it costs: a WINDOW_UPDATE that is accepted by its increment, a DATA frame by its length, on its stream and on the connection, and nothing else by anything |
| `ConnectionLedger.WindowsOfRuns` | src/stream.rs:724-759 | After every run the connection window is 65535 and all increments accepted for it less the octets of all DATA frames; each mapped stream's window is the current initial size and its own increments less its own octets |
| `ConnectionLedger.ChunkIsTheFrame` | src/stream.rs:932-963 | What a step of the connection charges to both windows is the payload of the frame that `SendPages` writes in such a turn, and the half closes exactly with END_STREAM |
| `SendPages.TakePages` | src/stream.rs:1326-1342 | Pages are moved whole while they fit and the last is cut, so that exactly the octets asked for are taken |
| `SendPages.EncodeFrame` | src/stream.rs:1302-1345 | The head announces the payload's length, the rest is what was not sent, and END_STREAM is set only when nothing is left |
| `SendPages.PayloadIsPreserved` | src/stream.rs:899-983 | For every schedule of windows and frame sizes: on success the frames concatenate to the data with END_STREAM on the last and only if asked for, otherwise they are a proper prefix without it; each frame fits what was open when it was written |
| `SendPages.NothingIsWasted` | src/stream.rs:932-963 | Every turn with an open window writes a frame until all is sent or an error is found, as long as the window, the frame size or the data allow; it fails only at an error and waits only without one |
| `SendPages.Send` | src/stream.rs:899-983 | The loop, for contiguous and paged data, writes those frames |
| `ConnectionLife.WakingWaiters` | src/connection.rs:651-660 | Dropped waiters do not use up wake-ups: so many are woken as are asked for, or nobody sleeps any more |
| `ConnectionLife.WakingIsInOrder` | src/connection.rs:651-660 | Waiters are woken first come, first served: those among the front of the queue, which is left as soon as the number asked for has been found |
| `ConnectionLife.ReleasingLocal` | src/connection.rs:641-649 | After a stream is released as many waiters are awake as there are free slots, or nobody sleeps |
| `ConnectionLife.DroppingWaiter` | src/connection.rs:1408-1420 | A woken waiter that is dropped passes its wake-up on |
| `ConnectionLife.Removing` | src/connection.rs:662-687 | Removing a closed stream keeps every counter exact |
| `ConnectionLife.Requesting` | src/connection.rs:431-457 | Opening, failing to open and going to sleep all keep the counters, the ids and the waiters in order |
| `ConnectionLife.ReceivingHeaders` | src/connection.rs:745-880 | HEADERS for open, closed, refused, malformed and new streams keep the lifecycle, and the limit on the peer's streams |
| `ConnectionLife.ReceivingGoAway` | src/connection.rs:1206-1238 | GOAWAY keeps the lifecycle: nothing above the last processed stream is left, and the connection closes with the last one; who survives is `ConnectionEffects.ProcessedStreamsSurvive` |
| `ConnectionTheorems.SleepingWaiterIsCoveredFor` | src/connection.rs:379-400 | No lost wake-up for slots: in every reachable state with a sleeping waiter as many woken waiters have yet to run as there are free slots |
| `ConnectionTheorems.CountersCount` | src/connection.rs:641-707 | In every reachable state a stream is in the map iff one of its halves is open, the counters are the map's entries and the reservations, and the limit holds |
| `ConnectionTheorems.ShutdownIsExact` | src/connection.rs:404-429 | While nothing fails, the connection is closed iff it was asked to shut down and neither streams nor reservations are left |
| `ConnectionTheorems.NothingOpensAfterGoAway` | src/connection.rs:491-512 | After a GOAWAY, whatever happens, no stream is opened and none above the last processed id is left |
| `ConnectionRuns.StepKeepsInvariant` | src/connection.rs:572-1326 | Every call, frame and failure keeps the whole invariant: lifecycle, slots, shutdown, both ledgers, wake-ups, conservation and bounds |
| `ConnectionRuns.ReachableIsFine` | src/connection.rs:88-185 | It holds after every run from a new connection, with every valid configuration |
| `ConnectionState.ConnectionState.Handle` | src/connection.rs:572-1326 | Whatever event happens, the running object, loops and map order included, takes the step of the specification, whose effect `ConnectionEffects` and `ConnectionMessage` state event by event, and is in a reachable state again, so that every theorem about reachable states holds of it |
| `ConnectionEffects.Starts` | src/connection.rs:88-185 | A new connection: no streams, a limit of 100 until the peer sets one, windows of 65535, the receive window raised if that is worth an announcement |
| `ConnectionEffects.StreamIsCredited` | src/stream.rs:724-736 | WINDOW_UPDATE for a stream adds the increment to its window and changes nothing else but who sleeps; if both windows are open afterwards its sender does not |
| `ConnectionEffects.StreamCreditRefused` | src/connection.rs:1134-1147 | With an increment of zero or beyond 31 bits it fails that stream, and the connection and the others go on |
| `ConnectionEffects.ConnectionIsCredited` | src/connection.rs:1110-1131 | WINDOW_UPDATE for the connection adds the increment to its window, no stream changes but in who sleeps, and none sleeps whose window is open |
| `ConnectionEffects.ConnectionCreditRefused` | src/connection.rs:1110-1124 | With an increment of zero or beyond 31 bits it ends the connection |
| `ConnectionEffects.UpdateOfUnknown` | src/connection.rs:1134-1153 | For any other stream it is ignored, or ends the connection if ids are checked and this one was never used |
| `ConnectionEffects.ProcessedStreamsSurvive` | src/connection.rs:1206-1238 | After GOAWAY a stream is in the map exactly if it was and the side is a server or its id is at most the last processed one; those are unchanged, and all others that were in the map have failed on both halves |
| `ConnectionEffects.ResetCloses` | src/connection.rs:1159-1190 | RST_STREAM fails a stream of the map on both halves and no other, is ignored for a stream that is not there, and ends the connection on stream 0 |
| `ConnectionEffects.InvalidFails` | src/connection.rs:884-946 | A malformed frame fails its stream; for a stream that is not there a header section ends the connection or uses up its id, with the condition for each |
| `ConnectionEffects.FailuresFail` | src/connection.rs:1286-1297 | A connection error fails every stream of the map and leaves nobody waiting |
| `ConnectionEffects.AbortFails` | src/connection.rs:1270-1326 | A timeout or a lost transport does the same and is final |
| `ConnectionEffects.SettingsLimit` | src/connection.rs:1035-1082 | SETTINGS take over the peer's limit on streams, the first one lifts the default without it; nobody goes on sleeping for a slot under another limit, and no window moves |
| `ConnectionEffects.SettingsShiftWindows` | src/connection.rs:1083-1107 | A new initial size moves the windows of all streams of the map by the difference and no other, or fails every stream exactly if one of them leaves 32 bits |
| `ConnectionEffects.RequestAsks` | src/connection.rs:431-457 | A request opens the next stream below the peer's limit, with the peer's initial window and the next odd id; sleeps at the end of the queue at the limit; is refused while the connection shuts down or its ids are used up, and then nothing stays counted |
| `ConnectionEffects.WaiterAsks` | src/connection.rs:379-402 | A woken waiter does the same |
| `ConnectionEffects.ReservationOpens` | src/connection.rs:491-512 | A reservation opens a stream even while the connection waits to close, and is used up by it; where it cannot, it is kept |
| `ConnectionEffects.Reserves` | src/connection.rs:460-470 | A slot is reserved exactly where a request would be opened at once |
| `ConnectionEffects.ReservationIsReleased` | src/connection.rs:473-486 | A reservation that is released gives its slot back and changes no stream |
| `ConnectionEffects.ShutdownStarts` | src/connection.rs:404-429 | A graceful shutdown leaves every stream as it is and nobody waiting for a slot |
| `ConnectionEffects.ResponseIsSent` | src/stream.rs:840-868 | Response headers are sent once, on a stream that has not failed; they open the payload, or close the half with END_STREAM, and a stream that is then closed on both halves leaves the map |
| `ConnectionEffects.TrailersAreSent` | src/stream.rs:990-1002 | Trailers, and an empty end of the payload, close exactly a half that is sending payload |
| `ConnectionEffects.CapacityIsPolled` | src/stream.rs:1089-1114 | A task sleeps exactly if there is no error, the half is open and one of the windows is not; then its waker is stored and the timer runs if one is configured, otherwise wait and timer end |
| `ConnectionEffects.CapacityIsCancelled` | src/stream.rs:1071-1074 | A task that stops waiting ends its wait and its timer and nothing else |
| `ConnectionEffects.CapacityTimesOut` | src/stream.rs:1028-1050 | A timeout fails a stream that still waits without capacity, and otherwise only clears its timer |
| `ConnectionEffects.StreamIsReset` | src/stream.rs:482-490 | A reset by the application fails a stream that is open on some half, and does nothing to one that is not |
| `ConnectionEffects.ChunkIsSent` | src/stream.rs:932-963 | A DATA frame is as long as data, frame size and both windows allow and no shorter; both windows and both ledgers pay for it; the half closes exactly if it carries the last octet and END_STREAM; where nothing can be sent nothing changes |
| `ConnectionEffects.CapacityIsConsumed` | src/stream.rs:322-358 | Consuming takes the octets from the token, its stream and the connection, tops up the two windows as `Window.Update` says, the stream's only while its receiving half is open, and changes no other stream |
| `ConnectionEffects.CapacityIsDropped` | src/stream.rs:113-119 | Dropping a token consumes all that it holds |
| `ConnectionEffects.CapacityIsMerged` | src/stream.rs:78-111 | Of two tokens of a stream the first takes over what the second holds, and nothing else changes |
| `ConnectionEffects.AckIsReceived` | src/connection.rs:1003-1034 | The first acknowledgment moves the window of every stream with an open receiving half by the difference to the default and fails exactly those it takes out of 32 bits; a second one ends the connection |
| `ConnectionFrame.TheRestIsQuiet` | src/connection.rs:572-1326 | No event but frames of DATA and HEADERS, WINDOW_UPDATE and the opening of streams moves a ledger, a message or the set of streams; a stream that does not fail by it hears nothing |
| `ConnectionState.ConnectionState.WakeWaiters` | src/connection.rs:651-660 | The loop wakes from the front of the queue as specified |
| `ConnectionLife.Dropping` | src/connection.rs:662-707 | A stream closed on both halves leaves the map, frees its slot, wakes waiters for it, and closes the connection if it was the last: the lifecycle holds again |
| `ConnectionLife.Shutting` | src/stream.rs:197-301 | Closing one half or both keeps the lifecycle |
| `ConnectionState.ConnectionState.FailAll` | src/connection.rs:1260-1297 | Taking the map and failing each stream of it comes to failing all at once |
| `ConnectionState.ConnectionState.PollCapacity` | src/stream.rs:1089-1114 | An error, a closed half, the smaller of two windows that are open, or else Pending, and asleep with waker, flag and timer set: each exactly in its case |
| `ConnectionSend.ReceivingUpdate` | src/connection.rs:1110-1153 | WINDOW_UPDATE in every case keeps the ledgers of both windows balanced and leaves nobody asleep who could send; what it adds is `ConnectionEffects.StreamIsCredited` |
| `ConnectionState.ConnectionState.Broadcast` | src/connection.rs:1126-1131 | The loop over the map, in any order, wakes whom it should |
| `ConnectionState.ConnectionState.RecvSettings` | src/connection.rs:1035-1107 | SETTINGS as specified, the loop over the map included, in whatever order it runs and wherever it stops |
| `ConnectionState.ConnectionState.RecvAck` | src/connection.rs:1003-1034 | The acknowledgment as specified, with the streams that overflow collected first and failed then |
| `ConnectionState.ConnectionState.RecvGoAway` | src/connection.rs:1206-1238 | GOAWAY as specified: the loop over the map, in whatever order, collects the streams that `ConnectionEffects.ProcessedStreamsSurvive` says fail, and no other |
| `Timer.ReachableIsValid` | src/timer.rs:39-128 | In every reachable state the stream map and the buckets agree both ways, with each stream in exactly one bucket and no bucket overdue |
| `Timer.ExpiresExactly` | src/timer.rs:55-128 | A stream registered with timeout t expires once, at exactly the tick after t ticks, if it is neither registered again nor unregistered, whatever other streams do |
| `Timer.UnregisteredNeverExpires` | src/timer.rs:39-46 | A stream that is not registered never expires |
| `Timer.Driver.Add` | src/timer.rs:55-88 | Registering moves the stream from its old bucket to the new one |
| `Timer.Driver.Remove` | src/timer.rs:39-46 | Unregistering takes it out of both maps |
| `Timer.DrainDue` | src/timer.rs:98-119 | Draining bucket by bucket, first one first, expires exactly the streams that are due and leaves the others in place |
| `Timer.Driver.OnTick` | src/timer.rs:94-128 | One second takes the specified step, and the driver stops exactly when no bucket is left |

## Left out

- The 4096 entries of the Huffman decode table and the 257 codes: they are the premises `Huffman.Walks` and `HuffmanCode.WellFormed`.
- Sensitivity of a header after decoding: never-indexed literals come back unmarked, as in the code; headers are compared by name and value.
- Grouping of repeated names in a header map: fields are kept in the order they arrive.
- Contents of frames other than HEADERS, CONTINUATION and DATA: short fixed formats; `Codec.Assemble` hands them on as they are, and the connection model starts from their parsed values.
- Padding and priority on the sending side: the library sends neither.
- The library's output queue and the frames written to it: increments and octets sent are kept as ledgers, resets and GOAWAY are not recorded.
- Reason codes and error texts: an error cell is set or not, a half is closed or not.
- `local_pending_reset`, the bounded memory of recent resets: its answer is a parameter of the events.
- The reset-ratio limit (`update_rst_count`): it only decides when a connection error happens.
- Waiting for the write buffer in `send_pages`: a turn of `SendPages.Send` that finds an error stands for it.
- Waiters of `SimpleClient::ready`: they may use up a wake-up without opening a stream, so the theorem on slots is about waiters of `send_request`.
- Keep-alive, ping and settings timers, and the wall clock: only ticks of the capacity timer are modelled, and its reading of the clock is a parameter.
- Drop of the timer at thread shutdown and the reuse of its buckets.
- 32-bit overflow of the timer's second counter, and of capacity sums beyond the window bounds.
- Saturation of the list size at the word size: `HeaderBlock.SectionIsExact` is for limits below it, which a 32-bit setting always is.
- ConnectionReceive.ReceivingAck: the streams it overflows are failed in one step; the code awaits the application between them.
- HpackString.PutStr: for Huffman forms below 2^49 octets, which the code's eight-octet scratch buffer for the length assumes as well.
- ConnectionState.ConnectionState.RecvSettings: streams are values in a map, so aliasing of stream handles is modelled by their ids.
- HpackTable.Table.Index: bucket array and slots are sequences that the methods replace, not arrays updated in place.
- Buffer capacities, recycling of header maps, logging, the f32 computation of thresholds.
