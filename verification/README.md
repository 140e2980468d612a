# Verified model of the HTTP/2 transport

A Dafny model of an HTTP/2 transport library: HPACK header compression, the Huffman coder and the script that
generates its tables, the lock-free queue between threads, the connection and stream state machine, and the path DATA
takes from one endpoint to the other. `dafny verify dfyconfig.toml` checks all of it.

Every component has two layers. Code that changes things in place is a class or a method with loops; its contract
equates what it does with a function on values. The laws the library rests on are then lemmas about those functions,
for all inputs, all runs and all interleavings.

**Header compression** (RFC 7541). `IntegerCodec`, `Representations`, `StaticTable`, `DynamicTable` and
`HeaderDecoder` are the two directions of the wire format; `Compressor` is the encoder with its 64-slot lossy cache,
its ring of entry sizes and the moving `tail_remote_index`, and `CompressorModel` is that encoder as a value.
`HpackSync` joins the two sides: the encoder's window stays a newest-first prefix of a decoder table it never sees, so
every block decodes to what was sent, whatever the hash function. `LiteralForms` says what any first octet leads to
and takes every literal form round, `StaticOrder` gives each static entry its index, and `CompressorLaws` says what a
field costs and which names ever reach the cache.

**Huffman coder** (section 5.2 and Appendix B of RFC 7541). `HuffmanTree` is decoding bit by bit along a tree.
`HuffmanTable` and `HuffmanGenerator` are the script: building the tree, numbering its nodes, compiling it into rows
of sixteen transitions and packing them. `HuffmanDecoder` runs the table; `HuffmanEncoder` packs codes through the
64-bit accumulator. Words are sequences of bits. Everything holds for any 257 distinct codes of 5 to 30 bits that make
a full tree, with an end-of-string code of ones.

**Queue.** `Mpscq` takes each atomic load, store and exchange of push and pop as one step, with any number of
producers. The invariant carries the chain of queued nodes, in the order of their exchanges, and says of each missing
link who still has to store it.

**Streams and connections** (RFC 7540). `StreamStates` is the transition table, what its states mean for the two
directions of a stream, and two endpoints running it over two channels; `StreamLifecycle` follows a stream until it
leaves the map. `ConnectionModel` is one endpoint as a value, with every public call and frame handler a function and
everything sent or called back recorded in a log; `StreamObject`, `ConnectionObject` and `TransportObject` are the
same as objects, with streams on the heap that the application may still hold after the map has dropped them.
`ConnectionInvariant` and `ConnectionRuns` prove what every run keeps, `HeaderBlocks` and `HeaderBlockCuts` put header
blocks together from CONTINUATION frames and `HeaderBlockRuns` follows them through whole runs. `ConnectionCodecs`
says what every call and frame does to the compressor and to the decoder's table; from it `ConnectionHeaders` proves
that what a run sends decodes to what its calls were given, and `TableHistory` how long the table keeps up with the
peer. `CallOutputs` says what every public call puts on the wire and leaves in the map; `FrameEffects`, `FrameOutputs`
and `SettingsLaws` say it of received frames, on their octets, and which of them are refused. `ConnectionOutputs`
sorts what every call and frame adds to the log; from it `FlowControl` proves that no run sends more than the window
it was granted, and `ConnectionTraffic` that every PING and SETTINGS has its answer. `StaleHandles` looks at streams
the map has dropped, `Transport` shows that it does not matter in which pieces the octets of a connection arrive, and
`TransportLaws` which of them are let through.

**Data.** `Frames` and `Settings` are the frame formats and the range table, `FrameRoundTrips` writes every frame type
and reads it back, `SliceBuffer` is the offset-and-compact buffer, and `DataFrames` splits payloads under the peer's
frame size and feeds the result to a receiver.

## What the code does not do

Each of these is a theorem with an input, and with the exact condition where one is named.

* `decode_uint32` drops the bits that a fifth continuation octet shifts beyond 32: `IntegerCodec.DecodeExactIff` and
  `IntegerCodec.DecodeInexactExample`.
* A Huffman-coded literal whose length runs past the header block is read beyond its end
  (`src/hpack/decode.cc:78-82`): `HeaderBounds.ReadsPastEndIff` and `HeaderBounds.OverreadExample`. Blocks whose
  strings are raw stay inside (`HeaderBounds.RawBlocksStayInside`).
* A HEADERS frame whose body, priority included, is under five octets is refused although its block may be whole
  (`src/http2/parser.cc:89-91`): `HeaderBlockCuts.ShortHeadersRefused` and `HeaderBlockCuts.OneFrameDeliveredIff`.
* A header block may be cut anywhere (section 4.3 of RFC 7540), but each piece is decoded by itself:
  `HeaderBlockCuts.BlockDeliveredIff` and `HeaderBlockCuts.CutInsideAValue`.
* After a piece that does not decode, GOAWAY goes out and the frame loop goes on; the next piece is decoded and
  delivered: `HeaderBlockCuts.ProcessFailsIff`, `HeaderBlockCuts.StillAwaitingIff` and
  `HeaderBlockCuts.BlockGoesOnAfterError`.
* When the awaited stream leaves the map in the middle of its block, the wait is never taken back and every later
  frame is refused: `HeaderBlockRuns.ResetMidBlockIsStuck`, `HeaderBlockRuns.StuckForGood` and
  `HeaderBlockRuns.StuckRun`.
* A send through a stream object that the map no longer holds goes out under the id of the current stream, and may
  take that stream out of the map: `StaleHandles.StaleHeadersLeaveMapIff`, `StaleHandles.StaleDataLeavesMapIff` and
  `StaleHandles.StaleSendTakesAnotherStream`. A reset through it always hits the current stream
  (`StaleHandles.ResetHitsCurrentIff`). Ids this endpoint handed out never come back
  (`StaleHandles.LocalIdsNeverReturn`).
* A block that is skipped after a GOAWAY, or refused with one, is not decoded, and the table falls behind the peer's
  encoder: `TableHistory.SkippedRunLoses` and `TableHistory.ShortBlockIsLost` are runs in which it does. Until a
  GOAWAY is sent it never does (`TableHistory.TableFollowsUntilGoAway`).
* Announcing a larger HEADER_TABLE_SIZE does not let the peer use it: `update_max_table_size_limit` is never called,
  and a size update is taken exactly if it is for at most 4096 octets: `TableHistory.LimitNeverMoves` and
  `TableHistory.AcknowledgedSizeIsRefused`.
* The compressor shrinks when the peer lowers HEADER_TABLE_SIZE, but the size update that section 4.2 of RFC 7541 asks
  for at the start of the next block is never sent: `ConnectionHeaders.NoSizeUpdateIsSent` and
  `ConnectionHeaders.LoweredUnannounced`. A peer that resizes its table without being told stays in step
  (`ConnectionHeaders.AdaptingPeersReadAll`).
* A promised stream is never entered in the map (`src/http2/connection.cc:889-895`):
  `HeaderBlockCuts.PromiseReachesIff`. In no run of a client does a promise reach a stream
  (`HeaderBlockRuns.PromisesReachNoStream`), and the headers in its CONTINUATIONs join those of the request stream
  (`HeaderBlockRuns.PromiseContinuesOnRequest`).
* HEADERS on a stream that has left idle are refused (`src/http2/connection.cc:719-725`), and an answer is one:
  `FrameEffects.HeadersOpenIff` and `FrameEffects.AnswerIsRefused`.
* An endpoint ends a stream without data by an empty DATA frame, and refuses one it receives
  (`src/http2/connection.cc:663-666`): `FrameEffects.DataIsRefusedIff` and `FrameEffects.EndAloneIsRefused`.
* A flag that a frame's type does not define is to be ignored (section 4.1 of RFC 7540), but the first bit of a
  PRIORITY frame ends the peer's half of the stream: `FrameEffects.PriorityArrives`.
* Section 6.9 of RFC 7540 bounds a window by 2^31 - 1 and gives every stream one of its own; here the connection's
  grows without limit and, with no flow control handler, streams have none: `FrameOutputs.IncrementDoesThis`.
* Padding, and DATA for a stream that is not in the map, are not given back to the peer's window, although both count
  (section 6.9.1 of RFC 7540): `FlowControl.FrameIsGivenBackIff`.
* A client whose peer speaks first acknowledges SETTINGS before it has sent its preface:
  `ConnectionTraffic.AcknowledgesBeforePreface`.
* A compressor allowed a larger table than its decoder writes blocks that do not decode, unless its maximum is at most
  35 octets: `HpackSync.DecodesIff`.

## Model

| member | source | states |
|---|---|---|
| IntegerCodec.EncodedLength | src/hpack/encode.cc:27-41 | the length computed is the length of the encoding of section 5.1 for every value and prefix |
| IntegerCodec.EncodeImpl | src/hpack/encode.cc:12-25 | writes exactly the encoding at its place and leaves every other octet of the buffer |
| IntegerCodec.DecodeUint32 | src/hpack/decode.cc:14-39 | the loop over continuation octets, with its 32-bit shifts and its limit, is the recursive decoder |
| IntegerCodec.RoundTrip | src/hpack/encode.cc:12-41 | every 32-bit value comes back for every prefix, under any flag bits above the prefix and before any octets; at most 6 octets are used |
| IntegerCodec.DecodeAgreesWithRfc | src/hpack/decode.cc:14-39 | on arbitrary octets a successful decode consumes what section 5.1 prescribes and differs from its value by a multiple of 2^32 |
| IntegerCodec.DecodeExactIff | src/hpack/decode.cc:14-39 | a successful decode is exact if and only if a fifth continuation octet, where four before it announce one, carries at most 15 |
| IntegerCodec.FifthOctetIsConsumed | src/hpack/decode.cc:14-39 | the octets alone tell whether a successful decode takes a fifth continuation octet |
| IntegerCodec.DecodeInexactExample | src/hpack/decode.cc:26-36 | six octets on which the decoder returns 127 for 2^32 + 127 |
| Representations.EncodeIndex | src/hpack/encode.cc:84-96 | the buffer filled in place holds the indexed representation |
| Representations.EncodeUpdateMaxSize | src/hpack/encode.cc:98-110 | the buffer filled in place holds the size update |
| Representations.EncodeMdelem | src/hpack/encode.cc:51-82 | the buffer filled in place holds kind, name and value, each with its length prefix |
| Representations.EncodeWithNameIndex | src/hpack/encode.cc:131-162 | the buffer filled in place holds the name's index and the value |
| RepresentationRoundTrips.IndexedRoundTrip | src/hpack/encode.cc:84-96 | an index the table knows decodes to its entry and leaves the table alone, whatever follows |
| RepresentationRoundTrips.SizeUpdateRoundTrip | src/hpack/encode.cc:98-110 | a size update decodes to that resizing and to nothing else if the size is within the limit, and is a compression error if not |
| RepresentationRoundTrips.LiteralRoundTrip | src/hpack/encode.cc:51-82 | a literal of any of the three kinds decodes to its field; only the incremental kind enters it in the table |
| RepresentationRoundTrips.NameIndexRoundTrip | src/hpack/encode.cc:131-162 | a literal with an indexed name decodes to the table's name and the literal's value, and is not entered |
| LiteralForms.FirstOctetDecides | src/hpack/hpack.cc:28-157 | on arbitrary octets, a field is entered in the table exactly if its first octet is one of incremental indexing, and only the octets of a size update resize the table |
| LiteralForms.FormDecodes | src/hpack/hpack.cc:60-157 | every literal, of any kind, with a spelled or an indexed name and raw or Huffman-coded strings, decodes to the field it means and leaves the table its kind asks for, or fails with its error |
| LiteralForms.EncoderForms | src/hpack/encode.cc:51-162 | what the encoder writes are two of those forms |
| LiteralForms.IndexDecodes | src/hpack/hpack.cc:28-59 | an index decodes to the entry of the static or the dynamic table that it numbers, and any other index is an error |
| LiteralForms.IndexedNameIsEntered | src/hpack/hpack.cc:150-152 | the octets 41 01 61 enter (":authority", "a") and BE then names it |
| StaticTable.FullMatch | src/hpack/static_metadata.cc:230-236 | 0 exactly when the field is not among the 61 entries, otherwise the index of an entry equal to it |
| StaticTable.StaticKeys | src/hpack/send_record.cc:322-338 | no static name is empty or ends in "-bin", so both sides charge the same size for every name the compressor inserts |
| StaticTable.NewFieldIsLarge | src/hpack/static_metadata.cc:230-243 | a field with a static name that is not itself in the table takes at least 36 octets |
| StaticOrder.TableInOrder | src/hpack/static_metadata.cc:123-185 | from one entry to the next, names and then values go up in an order on strings |
| StaticOrder.EntriesDiffer | src/hpack/static_metadata.cc:123-185 | no two of the 61 entries are equal |
| StaticOrder.EachHasItsIndex | src/hpack/static_metadata.cc:230-236 | so the search for any entry answers its own index |
| Lookups.Build | src/hpack/static_metadata.cc:204-209 | the maps built by the loop find, for every field, the first entry equal to it, and know exactly the names of the table |
| Eviction.EvictKeepsMost | src/hpack/dynamic_metadata.cc:65-72 | what eviction keeps is the longest newest-first prefix that fits |
| Eviction.EvictPrefix | src/hpack/dynamic_metadata.cc:65-72 | a tighter maximum on a newest-first prefix keeps a newest-first prefix |
| Eviction.SameInsertion | src/hpack/dynamic_metadata.cc:28-33 | evict-then-insert and push-then-evict leave the same entries, also for an entry larger than the table (section 4.4 of RFC 7541) |
| DynamicTable.DynamicMetadataTable.Push | src/hpack/dynamic_metadata.cc:28-33 | push and then the eviction loop; the cached size stays the sum over the entries |
| DynamicTable.DynamicMetadataTable.UpdateMaxTableSize | src/hpack/dynamic_metadata.cc:39-42 | the new maximum evicts from the old end at once |
| DynamicTable.DynamicMetadataTable.Adjust | src/hpack/dynamic_metadata.cc:65-72 | the loop ends with the longest newest-first prefix that fits |
| StringLiterals.ParseString | src/hpack/decode.cc:67-93 | a raw or Huffman-coded string with its length, on every input; where the original would read on past the block the answer is Overread |
| StringLiterals.ParseStringKey | src/hpack/decode.cc:95-127 | as ParseString, and a raw name with an upper-case letter is refused |
| HeaderDecoder.DecodeHeaders | src/hpack/hpack.cc:28-157 | the loop over all representations with its table updates is the recursive decoder on values: headers, final table and error agree on every input, ReadsPastEnd standing for a read beyond the block |
| HeaderDecoder.StepLocal | src/hpack/hpack.cc:28-157 | a representation that decodes looks at nothing beyond its own octets |
| HeaderDecoder.DecodeComposes | src/hpack/hpack.cc:28-157 | decoding a ++ b is decoding a and then b from the table a left, with b's error |
| HeaderBounds.StepReadsPastIff | src/hpack/decode.cc:78-82 | one representation is read past the end exactly if it is a literal whose Huffman-coded name or value announces more octets than are left |
| HeaderBounds.ReadsPastEndIff | src/hpack/hpack.cc:28-157 | a block is read past its end exactly if a part of it decodes and such a literal follows |
| HeaderBounds.RawBlocksStayInside | src/hpack/decode.cc:83-91 | a block whose strings are all raw is never read past its end |
| HeaderBounds.OverreadExample | src/hpack/decode.cc:78-82 | two octets that are read past their end, whatever the table |
| CompressorModel.MatchIsSound | src/hpack/send_record.cc:58-100 | whatever slots the hash picks and whatever was overwritten, a live match names an entry with the field's name, and a live full match the very field |
| CompressorModel.RepeatIsIndexed | src/hpack/send_record.cc:188-213 | a field just inserted is found again: sent twice in a row it costs one index the second time |
| CompressorLaws.StaticFieldIsOneOctet | src/hpack/send_record.cc:188-231 | a field equal to the static entry i goes out as the one octet 0x80 + i and moves nothing |
| CompressorLaws.WhatIsSent | src/hpack/send_record.cc:58-213 | any other field goes out as an index exactly if a slot of its name's holds it alive, otherwise with the index of the oldest live entry of its name that a slot holds, otherwise whole, indexed exactly if its name is static |
| CompressorLaws.NewFieldIsEntered | src/hpack/send_record.cc:188-213 | a field with a static name that is in neither table is entered as newest, or empties the window if it is too large |
| CompressorLaws.NameIsReused | src/hpack/send_record.cc:58-100 | another value under the name just entered goes out with that name's index, where neither of the name's two slots held the name before |
| CompressorLaws.OlderSlotIsGivenUp | src/hpack/send_record.cc:103-137 | a new element takes one of its two slots, the older where other elements hold both, and every other slot is as it was |
| CompressorLaws.OtherNamesGoOutWhole | src/hpack/send_record.cc:188-213 | while the cache holds static names only, a field with any other name goes out as a literal and moves nothing |
| CompressorModel.AddedWellFormed | src/hpack/send_record.cc:139-181 | insertion keeps the window within the maximum and every live slot pointing at its own element |
| CompressorModel.WithMaxSizeWellFormed | src/hpack/send_record.cc:292-310 | so does any change of the maximum |
| Compressor.StaticNamesSizedAlike | src/hpack/send_record.cc:322-338 | for every name the compressor inserts, its entry size is the decoder's |
| Compressor.Compressor.Accounting | src/hpack/send_record.cc:139-174 | 32 * table_elems <= table_size <= max_table_size and table_elems <= max_table_elems <= cap_table_elems in every valid state |
| Compressor.Compressor.EvictEntry | src/hpack/send_record.cc:139-149 | drops the oldest entry and its size from the ring; its assertions hold |
| Compressor.Compressor.PrepareSpace | src/hpack/send_record.cc:151-174 | evicts just enough for the new size and appends it to the ring, or empties the table for an entry that is too large; its assertions hold |
| Compressor.Compressor.UpdateAddOrEvict | src/hpack/send_record.cc:103-137 | the in-place update of the two candidate slots is the cache update on values |
| Compressor.Compressor.EncodeHeader | src/hpack/send_record.cc:188-213 | octets and new state are those of the encoder as a value |
| Compressor.Compressor.EncodeHeaders | src/hpack/send_record.cc:216-231 | so for a whole header list, slice by slice |
| Compressor.Compressor.RebuildElems | src/hpack/send_record.cc:269-290 | moving the ring to another capacity keeps every live size |
| Compressor.Compressor.SetMaxTableSize | src/hpack/send_record.cc:292-310 | clamps to the usable maximum, evicts, and grows or shrinks the ring |
| Compressor.Compressor.SetMaxUsableSize | src/hpack/send_record.cc:312-315 | the usable maximum changes and the table follows |
| HpackSync.InsertionKeepsSync | src/hpack/send_record.cc:151-181 | inserting on both sides keeps the window a prefix of the decoder's table, also when the entry is too big for one side only |
| HpackSync.EqualTablesStayEqual | src/hpack/dynamic_metadata.cc:28-42 | from equal tables with equal maxima both sides' insertions leave equal tables |
| HpackSync.ResizeKeepsSync | src/hpack/send_record.cc:292-315 | shrinking and growing the compressor, of which nothing goes on the wire, keeps the sides in step |
| HpackSync.FieldDecodes | src/hpack/send_record.cc:188-231 | one encoded field decodes to that field, consuming exactly its octets, and the sides stay in step |
| HpackSync.BlockDecodes | src/hpack/send_record.cc:216-231 | a block decodes with NoError to exactly the headers in order, and the sides stay in step |
| HpackSync.EveryHistoryDecodes | src/hpack/send_record.cc:188-315 | from the initial states, over every history of header lists and resizings in which the maximum in force stays within the decoder's or under 36 octets, every block decodes to what was sent, for any hash |
| HpackSync.DecodesIff | src/hpack/send_record.cc:216-315 | with the maximum set to M, every sequence of header lists decodes at a decoder of size D if and only if M is at most D or at most 35; beyond that one field of M octets sent twice does not |
| ConnectionCodecs.OperationSends | src/http2/connection.cc:451-867 | over every call and frame: an accepted header list moves the compressor by encoding it and sends exactly its octets; settings that are let through resize the compressor in order; nothing else touches it |
| ConnectionHeaders.CompressorStaysWithin | src/http2/connection.cc:854-857 | in every run the compressor's maximum is the smaller of 4096 and the size the peer announced last, its window fits and its cache is sound |
| ConnectionHeaders.EveryRunSendsItsHeaders | src/http2/connection.cc:451-584 | in every run the octets sent with HEADERS and PUSH_PROMISE decode, block after block, to exactly the header lists of the calls the connection accepted, at any decoder of 4096 octets or more, whatever its peer announces |
| ConnectionHeaders.AdaptingPeersReadAll | src/http2/connection.cc:854-867 | the same for a peer whose table follows the sizes it announces, up and down, as long as no GOAWAY has been sent |
| ConnectionHeaders.NoSizeUpdateIsSent | src/hpack/send_record.cc:188-231 | in no run does a block begin with a table size update |
| ConnectionHeaders.OnlyStaticNamesAreEntered | src/hpack/send_record.cc:188-213 | in every run only fields with static names are in the compressor's cache |
| ConnectionHeaders.LoweredUnannounced | src/http2/connection.cc:854-857 | a run in which the peer lowers the size to 0 and the next block does not begin with the update |
| Mpscq.StepKeeps | src/utils/mpscq.cc:37-96 | every atomic step of any producer or the consumer keeps the invariant |
| Mpscq.RunConserves | src/utils/mpscq.cc:37-96 | over every run from a valid state: what waited plus what was exchanged in is what was popped plus what waits |
| Mpscq.PopsAreFifo | src/utils/mpscq.cc:37-96 | under every interleaving pops return a prefix of the exchange order, none lost or repeated, never the stub |
| Mpscq.ReturnedNodeIsFree | src/utils/mpscq.cc:71-95 | a returned node is not newest, not in the chain, and no producer will still write its link |
| Mpscq.StubIsFreeWhenPushed | src/utils/mpscq.cc:86 | when the consumer pushes the stub again it is not queued and nobody will write its link |
| Mpscq.NothingIsSound | src/utils/mpscq.cc:56-95 | empty is reported only if nothing waits or the earliest waiting node's link is still to be stored; the other null result only if something waits |
| Mpscq.QuietPopReturnsOldest | src/utils/mpscq.cc:50-96 | with no push under way pop returns the oldest waiting node, and empty exactly when none waits |
| Mpscq.DrainedQueueIsInitial | src/utils/mpscq.cc:31-35 | after a quiet empty pop the destructor's assertions hold |
| HuffmanGenerator.DraftNode.Add | tools/mkhufftbl.py:304-318 | the recursion over mutable nodes adds one code to the tree as a value |
| HuffmanGenerator.BuildTree | tools/mkhufftbl.py:320-322 | the loop over the code table builds the tree of all codes |
| HuffmanGenerator.Context.SetNodeId | tools/mkhufftbl.py:324-337 | the counter in the context numbers internal nodes in preorder and marks those padding may end at |
| HuffmanGenerator.StartNode.Traverse | tools/mkhufftbl.py:339-361 | the transitions appended are those of all four-bit strings, in numerical order, and the script's assertion holds at every step |
| HuffmanGenerator.GoIsSafe | tools/mkhufftbl.py:351-358 | with all codes at least five bits long, no second symbol is met within a nibble |
| HuffmanGenerator.BuildRows | tools/mkhufftbl.py:363-379 | the rows of all internal nodes, in preorder |
| HuffmanTable.AddAllFinds | tools/mkhufftbl.py:304-322 | the tree of distinct codes has each symbol at the end of its code and no other symbol |
| HuffmanTable.TraverseAt | tools/mkhufftbl.py:339-361 | a transition's position in its row is the number its bits spell |
| HuffmanTable.RowAtId | tools/mkhufftbl.py:324-379 | the row at a node's id is that node's row, and its accept mark says whether at most seven ones lead there |
| HuffmanDecoder.FollowAgrees | tools/mkhufftbl.py:339-361 | four bits yield at most one symbol, and the transition says which and where they lead |
| HuffmanDecoder.IdsBelowFailure | tools/mkhufftbl.py:381-411 | internal ids stay below 256 because internal nodes number leaves minus one, so 256 is free for the failure row |
| HuffmanDecoder.TableAgreesWithTree | src/hpack/huffman.cc:102-136 | on every octet string the generated table does what walking the tree bit by bit does: same symbols, same place, and absorbing failure after the end-of-string code |
| HuffmanDecoder.ResumeAnywhere | src/hpack/huffman.cc:102-136 | stopping anywhere and resuming from the saved context gives what one call gives |
| HuffmanDecoder.Decode | src/hpack/huffman.cc:102-136 | the loop over octets and its context is the run of the table; -1 exactly for a short buffer or a last block that may not end there |
| HuffmanDecoder.AcceptedIffPadding | src/hpack/huffman.cc:129-135 | the last block is accepted exactly when the bits after the last symbol are at most seven ones |
| HuffmanDecoder.ThreeTimesIsEnough | src/hpack/decode.cc:50-65 | a buffer of three times the input never overflows |
| HuffmanEncoder.EncodeCount | src/hpack/huffman.cc:38-47 | the count is the length of the encoding |
| HuffmanEncoder.Encode | src/hpack/huffman.cc:49-96 | through the 64-bit accumulator exactly the encoding is written into any buffer that holds it; the accumulator never overflows and the short-buffer branch is never reached |
| HuffmanRoundTrip.CodesMakeGoodDraft | tools/mkhufftbl.py:304-337 | 257 distinct codes of 5 to 30 bits that make a full tree make one with 257 leaves, all at least 5 deep |
| HuffmanRoundTrip.DecodeOfEncode | src/hpack/huffman.cc:49-136 | decoding what was encoded gives every octet string back and accepts its end |
| StreamStates.TableIsMirrored | src/http2/stream.cc:75-156 | sending and receiving a message are mirror images in the table |
| StreamStates.TableMeansHalves | src/http2/stream.cc:75-156 | the whole table, entries and kDoNotUse alike, is what sending and receiving do to the two directions of a stream, each pending, flowing or over |
| StreamStates.PromiseIsForItsOwner | src/http2/stream.cc:75-156 | after a promise, in every run of the two endpoints, its owner may send HEADERS until it has, and the peer never may |
| StreamLifecycle.HeadersEndStreamIff | src/http2/connection.cc:510-561 | headers on a stream of the map take it out exactly if they end one its peer has ended, or one promised by this endpoint |
| StreamLifecycle.DataEndsStreamIff | src/http2/connection.cc:530-543 | data does exactly if it ends one its peer has ended |
| StreamLifecycle.PromisedStreamRunsItsCourse | src/http2/connection.cc:451-543 | from any state that may promise, a promise and headers with END_STREAM, or headers and then data with it, leave the map as it was before |
| StreamStates.SendCommutes | src/http2/stream.cc:75-156 | an enabled send commutes with everything still under way to the sender |
| StreamStates.EndpointsAgree | src/http2/stream.cc:75-230 | however two endpoints interleave, they mirror each other whenever nothing is under way, and no message arrives that the receiver's row forbids unless it is Closed |
| StreamObject.Http2Stream.Transition | src/http2/stream.cc:159-173 | a forbidden event leaves the state as it is |
| StreamObject.Http2Stream.SaveFrameInfo | src/http2/stream.cc:264-270 | type and flags are kept, and END_STREAM ends the receiving half |
| StreamObject.Http2Stream.AppendHeaders | src/http2/stream.cc:276-281 | the loop appends the decoded headers in order |
| StreamObject.Http2Stream.AppendData | src/http2/stream.cc:283-286 | the slice goes to the end of the stream's data and nothing else changes |
| StreamObject.Http2Stream.Read | src/http2/stream.cc:386-390 | hands over as much of the front of the data as fits and takes exactly that away |
| ConnectionObject.Connection.constructor | src/http2/connection.cc:203-250 | the initial state, settings and ids of either side, and a compressor at the default size |
| ConnectionObject.Connection.CreateStream | src/http2/connection.cc:258-273 | a stream under the next local id if one may be opened, and otherwise no change |
| ConnectionObject.Connection.DestroyStream | src/http2/connection.cc:275-277 | the stream under the id leaves the map, and no other does |
| ConnectionObject.Connection.EnsurePrefaceSent | src/http2/connection.cc:315-337 | a client's preface and non-default settings go out once |
| ConnectionObject.Connection.SendInitialSettings | src/http2/connection.cc:339-356 | the non-default settings go out once |
| ConnectionObject.Connection.SendPing | src/http2/connection.cc:366-378 | one unanswered PING at a time |
| ConnectionObject.Connection.SendSettings | src/http2/connection.cc:380-402 | the settings asked for are kept until acknowledged, one request at a time; false exactly if there are none or a request is pending |
| ConnectionObject.Connection.SendRstStream | src/http2/connection.cc:404-417 | RST_STREAM for a stream of the map, which leaves it when closed, and a drain that then completes; false exactly for an id not in the map |
| ConnectionObject.Connection.SendGoAway | src/http2/connection.cc:419-432 | the GOAWAY frame with its debug text, and the id it named |
| ConnectionObject.Connection.Drain | src/http2/connection.cc:434-449 | the first GOAWAY starts draining, which completes at once without streams |
| ConnectionObject.Connection.SendPushPromise | src/http2/connection.cc:451-478 | a server whose settings allow it promises a stream: the compressor encodes the header list, its octets go out, and the new stream, reserved in the map, is returned; otherwise null and no change |
| ConnectionObject.Connection.Encode | src/http2/connection.cc:570-584 | the compressor object goes over a header list as the encoder on values does, and the merged slices are its octets |
| ConnectionObject.Connection.SendWindowUpdate | src/http2/connection.cc:480-506 | 31-bit increments for a known stream and for the connection; true exactly if one of them went out |
| ConnectionObject.Connection.StreamSendHeaders | src/http2/connection.cc:510-584 | the header list is encoded and its octets go out under the handle's id, the handle's stream changes, and if that closes it the id leaves the map, whether or not the map still held that stream |
| ConnectionObject.Connection.StreamSendData | src/http2/connection.cc:530-609 | as StreamSendHeaders; a short window defers the frame and the stream is ended all the same |
| ConnectionObject.Connection.ReceivedData | src/http2/connection.cc:657-696 | padding and stream checks, END_STREAM before the data, the data to its stream, window updates and the closing callback |
| ConnectionObject.Connection.ReceivedHeaders | src/http2/connection.cc:698-764 | the block is decoded first whatever becomes of it; then the idle, parity and GOAWAY checks, the new stream in the map, and the wait for CONTINUATION |
| ConnectionObject.Connection.ReceivedPriority | src/http2/connection.cc:766-787 | no stream may depend on itself |
| ConnectionObject.Connection.ReceivedRstStream | src/http2/connection.cc:789-805 | the stream is closed with its error and reported; for an unknown stream a GOAWAY goes out |
| ConnectionObject.Connection.ReceivedSettings | src/http2/connection.cc:807-867 | an acknowledgement makes the requested settings local; otherwise the peer's values are stored in order, clamped or refused, table sizes resize the compressor object, and the ones before a refused one stay |
| ConnectionObject.Connection.ReceivedPushPromise | src/http2/connection.cc:869-920 | the checks, the decoding, and a promised stream that only changes if the map already held it idle |
| ConnectionObject.Connection.ReceivedPing | src/http2/connection.cc:922-946 | a PING is answered with the same octets, an answer ends the wait |
| ConnectionObject.Connection.ReceivedGoAway | src/http2/connection.cc:948-972 | the id, the error and the debug text are reported, and exactly the local streams above the named id become unwritable, in whatever order the map is visited |
| ConnectionObject.Connection.ReceivedWindowUpdate | src/http2/connection.cc:974-996 | an increment for the connection or an unknown stream widens the send window |
| ConnectionObject.Connection.ReceivedContinuation | src/http2/connection.cc:998-1029 | the piece's headers join the stream's and the last piece ends the wait; a piece that does not decode is answered with GOAWAY |
| ConnectionObject.Connection.PackageProcess | src/http2/connection.cc:611-655 | the checks, the tracking of the last stream id, the handler chosen by type, and the removal of a stream the frame closed, on heap objects as on values |
| ConnectionInvariant.GoAwayKeeps | src/http2/connection.cc:419-432 | GOAWAY keeps the invariant and the streams, and is recorded with the id it names |
| ConnectionInvariant.RemoveKeeps | src/http2/connection.cc:442-449 | removing a closed stream restores the invariant and completes a drain exactly if the map is now empty |
| ConnectionInvariant.HeadersReceivedKeeps | src/http2/connection.cc:698-764 | received HEADERS keep the invariant but for the frame's own stream, and register nothing a GOAWAY rules out |
| ConnectionInvariant.SettingsReceivedKeeps | src/http2/connection.cc:807-867 | whatever the peer sends, every remote setting stays in its declared range |
| CallOutputs.EveryCallDoes | src/http2/connection.cc:315-609 | every public call says exactly this, in this order, with a client's preface in front if it is still due, and leaves exactly these streams |
| FrameEffects.WrongSizeIsRefused | src/http2/connection.cc:611-655 | a frame of a wrong size for its type is answered with GOAWAY(FRAME_SIZE_ERROR), and no stream and no table changes |
| FrameEffects.UnknownTypeIsIgnored | src/http2/connection.cc:611-655 | a frame of an unknown type changes nothing but the last stream id |
| FrameEffects.DataIsRefusedIff | src/http2/connection.cc:657-666 | DATA is refused exactly on stream 0 or if the frame is empty |
| FrameEffects.EndAloneIsRefused | src/http2/connection.cc:663-666 | so the frame that ends a stream without data is refused |
| FrameEffects.HeadersOpenIff | src/http2/connection.cc:698-764 | HEADERS whose block decodes open a stream, with the block's headers, exactly if it is the peer's and new or idle in the map, and on any other are refused |
| FrameEffects.BadBlockIsRefused | src/http2/connection.cc:710-717 | a block that does not decode is answered with the code of its error, and no stream changes |
| FrameEffects.AnswerIsRefused | src/http2/connection.cc:719-725 | once headers have gone out on a stream, the peer's headers on it are refused |
| FrameEffects.PriorityArrives | src/http2/connection.cc:766-787 | a priority is kept and the state left alone unless the first flag is set, and one on stream 0 or on the stream itself is refused |
| FrameEffects.ResetArrives | src/http2/connection.cc:789-805 | a reset is reported with its code and takes exactly its stream out of the map, completing a drain if it was the last, and is refused for a stream not there |
| FrameEffects.GoAwayArrives | src/http2/connection.cc:948-972 | GOAWAY is reported with its debug data and marks exactly this endpoint's streams above its id as unwritable |
| FrameEffects.NothingOpensAfterGoAway | src/http2/connection.cc:258-273 | over every run, no stream of this endpoint's is opened once a GOAWAY was sent or received |
| FrameEffects.OpensIff | src/http2/connection.cc:258-273 | until then one is opened, under the next id, exactly if ids are left and the peer's limit has room |
| FrameEffects.PromiseRefusedIff | src/http2/connection.cc:869-900 | a promise is refused exactly if pushing is off here, or the id is 0, odd, or that of a stream that has left idle |
| FrameOutputs.DataDoesThis | src/http2/connection.cc:657-696 | a DATA frame, padded or not, appends and reports its body, gives back the window of its octets, reports the end, and takes a stream both sides have ended out of the map, in that order; for an unknown stream it does nothing |
| FrameOutputs.HeadersDoThis | src/http2/connection.cc:738-764 | HEADERS that open a stream leave it open, or half closed with END_STREAM, with the block's headers; END_HEADERS is reported, and without it the rest is awaited |
| FrameOutputs.PromiseDoesThis | src/http2/connection.cc:869-920 | a promise that is not refused is reported under its id, and its headers are kept only with a stream that is there |
| FrameOutputs.PingDoesThis | src/http2/connection.cc:922-946 | a PING is reported, a question answered with its octets, and an answer ends the wait |
| FrameOutputs.IncrementDoesThis | src/http2/connection.cc:974-996 | an increment of 0 is refused, and any other widens the connection's window, without limit, unless its stream is in the map, whose window is not kept |
| SettingsLaws.BadIsRefused | src/http2/settings.cc:17-25 | the values that end the connection and their errors, and what is kept of the others |
| SettingsLaws.Defaults | src/http2/connection.cc:339-356 | the settings of both ends at the start, and the one entry of the first SETTINGS sent |
| SettingsLaws.SettingsArrive | src/http2/connection.cc:807-867 | settings are in force, each id's last value counting, reported as kept and acknowledged; the first bad one is answered with its error and nothing after it is read |
| SettingsLaws.AcknowledgementArrives | src/http2/connection.cc:807-830 | an acknowledgement puts what was asked for in force and ends the wait, and one with a payload is refused |
| ConnectionRuns.ProcessKeeps | src/http2/connection.cc:611-655 | every frame keeps the whole invariant |
| ConnectionRuns.ApplyKeeps | src/http2/connection.cc:258-655 | so does every public call |
| ConnectionRuns.ShutdownIsExact | src/http2/connection.cc:434-449 | shutdown completes in exactly the steps that leave a draining connection, or one told to drain for the first time, without streams |
| ConnectionRuns.EveryRunIsSafe | src/http2/connection.cc:203-1029 | in every run: no closed stream in the map, draining implies a stream is left, each key is a local id handed out or a remote id at most the last seen, remote settings in range, shutdown at most once |
| ConnectionRuns.GoAwaysNameTheLargest | src/http2/connection.cc:419-440 | if the application names no last stream id, every GOAWAY of a run carries the largest remote id processed (section 6.8 of RFC 7540) |
| ConnectionRuns.NothingRegisteredAbove | src/http2/connection.cc:631-643 | from the first GOAWAY of such a run on, no larger id is processed and every stream registered is the peer's, with an id the GOAWAY covers |
| ConnectionRuns.NamedIdKeepsOkIff | src/http2/connection.cc:419-432 | a GOAWAY with an id the application names agrees with the others exactly if that id is 0 or the last one processed |
| FlowControl.OperationFlows | src/http2/connection.cc:586-609 | what every call and frame does to the send window, the DATA sent, the data reported and the window updates sent |
| FlowControl.EveryRunConservesTheWindow | src/http2/connection.cc:586-609 | over every run, the window and the octets of all DATA sent add up to 65535 and what the frames received granted, and the DATA sent is exactly that of the calls the window had room for |
| FlowControl.WhatIsReportedIsGivenBack | src/http2/connection.cc:668-689 | over every run, the window given to a stream and to the connection is the data reported and what was asked for |
| FlowControl.FrameIsGivenBackIff | src/http2/connection.cc:668-689 | all octets of a DATA frame are given back to the connection exactly if it is unpadded and its stream is in the map |
| ConnectionTraffic.EveryQuestionIsAnswered | src/http2/connection.cc:922-946 | over every run, the PINGs answered are those reported, with the same octets in order, every SETTINGS reported was acknowledged, and at most one own PING is open |
| ConnectionTraffic.PingFrameIsAnswered | src/http2/connection.cc:922-946 | a PING is answered with its own eight octets |
| ConnectionTraffic.ThePrefaceComesFirst | src/http2/connection.cc:315-337 | in every run of a client, the preface and then SETTINGS come before anything but answers to SETTINGS and PING, and the preface goes out once |
| ConnectionTraffic.AcknowledgesBeforePreface | src/http2/connection.cc:807-867 | a run of a client that acknowledges SETTINGS with no preface sent |
| ConnectionTraffic.AckedMeans | src/http2/connection.cc:807-830 | an acknowledgement gives each id the value asked for last |
| ConnectionTraffic.RequestsWaitForTheirAnswer | src/http2/connection.cc:380-402 | over every run, what was asked for stays asked for, and no local setting moves, until an acknowledgement comes, which brings exactly that |
| HeaderBlocks.NothingComesBetween | src/http2/connection.cc:624-630 | while a block is under way any other frame stops the frame loop with GOAWAY and changes no stream and no table |
| HeaderBlocks.OnePiece | src/http2/connection.cc:998-1029 | an awaited CONTINUATION adds its headers and moves the table on, the last one ending the block; one that does not decode is answered with GOAWAY and changes only the table |
| HeaderBlocks.PiecesAddUp | src/http2/connection.cc:998-1029 | any number of CONTINUATIONs cut at representation boundaries add up to the block they are pieces of, or a GOAWAY tells its error |
| HeaderBlocks.BlockInPieces | src/http2/connection.cc:698-764 | HEADERS with a body of five octets or more and CONTINUATIONs, cut at representation boundaries, leave stream and table as the whole block decodes, with one callback, or a GOAWAY tells the whole block's error |
| HeaderBlockCuts.ProcessFailsIff | src/http2/connection.cc:611-655 | package_process returns -1 exactly for a frame that is cut short or breaks into an unfinished block; every other refusal goes on |
| HeaderBlockCuts.StillAwaitingIff | src/http2/connection.cc:1015-1018 | after a piece that does not decode the block is still awaited, and its next piece taken exactly if the GOAWAY covers the stream |
| HeaderBlockCuts.BlockGoesOnAfterError | src/http2/connection.cc:998-1029 | that next piece is decoded as representations of its own and delivered with the headers from before the failure |
| HeaderBlockCuts.FirstPieceRefused | src/http2/connection.cc:708-717 | a first piece that does not decode opens no stream and starts no wait |
| HeaderBlockCuts.ShortHeadersRefused | src/http2/parser.cc:89-91 | a HEADERS frame whose body is under five octets opens nothing, leaves the table, and is answered with FRAME_SIZE_ERROR, whatever its block |
| HeaderBlockCuts.OneFrameDeliveredIff | src/http2/parser.cc:89-104 | a whole block in one HEADERS frame is delivered, and no GOAWAY goes out, if and only if the body has at least five octets |
| HeaderBlockCuts.FrontDecodesIff | src/hpack/hpack.cc:28-157 | the front of a block decodes by itself exactly if it ends between two of the block's representations |
| HeaderBlockCuts.BoundariesIff | src/hpack/hpack.cc:28-157 | pieces decode one after the other exactly if every cut is between two representations of the whole block |
| HeaderBlockCuts.CutsMustBeBoundaries | src/http2/connection.cc:998-1029 | the pieces of a block that decodes deliver it, and no GOAWAY goes out, if and only if every cut is at a representation boundary |
| HeaderBlockCuts.BlockDeliveredIff | src/http2/connection.cc:698-764 | a HEADERS frame and its CONTINUATIONs deliver a block that decodes as a whole, and no GOAWAY goes out, if and only if the HEADERS body has at least five octets and every cut is at a representation boundary |
| HeaderBlockCuts.CutInsideAValue | src/hpack/hpack.cc:28-157 | six octets that are an error alone and the start of a field with three more |
| HeaderBlockCuts.PromiseReachesIff | src/http2/connection.cc:889-918 | a promise puts no stream in the map, and its headers reach one exactly if the promised id is there |
| HeaderBlockRuns.StuckFrame | src/http2/connection.cc:624-634 | while the awaited stream is gone and cannot come, a frame changes no stream and no table: it is skipped, or answered with GOAWAY |
| HeaderBlockRuns.StuckForGood | src/http2/connection.cc:624-630 | over every further run the same CONTINUATION is awaited, no stream gets a header or an octet of data, and the table does not move |
| HeaderBlockRuns.ResetMidBlockIsStuck | src/http2/connection.cc:404-417 | a reset of the awaited stream in the middle of its block leads there |
| HeaderBlockRuns.StuckRun | src/http2/connection.cc:404-417 | a run of one frame and one reset on a server that gets there |
| HeaderBlockRuns.RemoteStreamsHaveStarted | src/http2/connection.cc:727-764 | in every run no stream of the peer's in the map is idle |
| HeaderBlockRuns.PromisesReachNoStream | src/http2/connection.cc:889-920 | in every run of a client no PUSH_PROMISE frame changes a stream or enters one |
| HeaderBlockRuns.PromiseContinuesOnRequest | src/http2/connection.cc:915-1019 | the headers in a promise's CONTINUATION join those of the stream the promise was sent on |
| StaleHandles.StaleHeadersLeaveMapIff | src/http2/connection.cc:510-561 | headers sent through a handle the map no longer holds go out under the id of the current stream; the map is unchanged exactly if the handle's state and END_STREAM do not leave it closed, and otherwise the current stream goes |
| StaleHandles.StaleDataLeavesMapIff | src/http2/connection.cc:530-543 | the same for data, which goes out unless there is none or the window is short |
| StaleHandles.ResetHitsCurrentIff | src/http2/connection.cc:563-565 | a reset through a handle goes out for its id and takes the stream that has the id now out of the map, unless that one is idle |
| StaleHandles.StaleSendTakesAnotherStream | src/http2/connection.cc:510-527 | a run of three frames and one send on a server in which that happens to an open stream |
| StaleHandles.LocalIdsNeverReturn | src/http2/connection.cc:258-273 | in every run the id of a stream this endpoint opened, once out of the map, stays out, so that a stale handle on it sends nothing |
| ConnectionCodecs.FrameMovesTable | src/http2/connection.cc:611-655 | the block that a frame's octets carry moves the table exactly if the frame is admitted, its type known, its payload parses and its handler gets as far as decoding |
| TableHistory.UnreadIsTold | src/http2/connection.cc:611-655 | a frame whose block is not decoded, or does not decode, is answered with GOAWAY or comes after one |
| TableHistory.TableFollows | src/http2/connection.cc:611-655 | over every run whose blocks, taken from the octets of the frames, are all read, the table is that of a decoder that reads every block |
| TableHistory.TableFollowsUntilGoAway | src/http2/connection.cc:419-432 | over every run, as long as no GOAWAY has been sent, every block received decoded and the table is that of a decoder that has read them all |
| TableHistory.ShortBlockIsLost | src/http2/parser.cc:89-91 | a run in which a whole block of four octets is lost and the table differs from that decoder's |
| TableHistory.SkippedRunLoses | src/http2/connection.cc:631-634 | a run in which a block is skipped after GOAWAY and the table differs |
| TableHistory.SkippedBlockIsLost | src/http2/connection.cc:631-634 | a frame for a stream above the id of a GOAWAY sent leaves table and outputs alone, whoever's stream it is |
| TableHistory.LimitNeverMoves | src/hpack/dynamic_metadata.cc:35-37 | in every run, whatever is announced and acknowledged, a size update is taken exactly if it is for at most 4096 octets |
| TableHistory.AcknowledgedSizeIsRefused | src/hpack/dynamic_metadata.cc:35-37 | a run in which 8192 is announced and acknowledged and the update to it is refused |
| Transport.LeftOverIsIncomplete | src/http2.cc:171-216 | what is left unconsumed is always an incomplete preface or an incomplete frame of a lawful size |
| Transport.FramesCompose | src/http2.cc:190-213 | the frame loop may stop anywhere and go on with what was left over and what comes next |
| Transport.ChunkingDoesNotMatter | src/http2.cc:171-216 | octets fed in any pieces end in the same state, outputs, left-over octets or error as all at once, although the size limit changes on the way |
| Transport.FeedIsARun | src/http2.cc:171-216 | feeding octets is a run in which the transport names no last stream id, so all laws of runs hold of it |
| TransportLaws.TooLongIsRefused | src/http2.cc:196-199 | a frame whose first three octets spell more than the local MAX_FRAME_SIZE stops the loop with GOAWAY(FRAME_SIZE_ERROR), and no stream and no table changes |
| TransportLaws.LawfulIsTaken | src/http2.cc:190-213 | any other is waited for until it is whole, then processed, and the loop goes on behind it |
| TransportLaws.FeedIsLawful | src/http2.cc:171-216 | whatever octets arrive, every frame processed on the way is whole and no longer than the local maximum in force at that point |
| TransportLaws.PrefaceDecides | src/http2.cc:171-190 | nothing is consumed before 24 octets are there, and any but the preface of section 3.5 of RFC 7540 are refused |
| TransportLaws.NoPrefaceTwice | src/http2.cc:171-190 | after the handshake no preface is looked for |
| TransportObject.TransportAdaptor.ReceivedData | src/http2.cc:171-216 | the loop on the connection object consumes and changes exactly what Transport.Feed says, and keeps the invariant |
| TransportObject.TransportAdaptor.FrameLoop | src/http2.cc:190-213 | the frame loop alone |
| Frames.PutHeader | src/http2/frame.cc:16-22 | the writes in place give the 9-octet header, with 24 bits of length |
| Frames.HeaderRoundTrip | src/http2/frame.cc:16-30 | unpacking a packed header gives it back, whatever follows |
| Frames.ReadSettings | src/http2/parser.cc:146-175 | the loop over six-octet entries reads them all in order |
| Frames.SettingsRoundTrip | src/http2/pack.cc:125-140 | parsing the packed entries gives them back |
| Frames.ParseFits | src/http2/connection.cc:611-655 | what a frame parses to goes to the handler of its type |
| FrameRoundTrips.HeaderFields | src/http2/frame.cc:24-30 | a frame header's fields are the numbers its octets spell, the stream id without its first bit |
| FrameRoundTrips.PaddingComesOff | src/http2/parser.cc:30-42 | any body with any padding of up to 255 octets comes back without it |
| FrameRoundTrips.BadPaddingIff | src/http2/parser.cc:30-42 | padding is refused exactly if its length is missing or leaves no room for it |
| FrameRoundTrips.DataParses | src/http2/parser.cc:14-47 | DATA comes back, padded or not |
| FrameRoundTrips.HeadersParse | src/http2/parser.cc:49-108 | HEADERS come back, with and without priority and padding, for bodies of five octets or more |
| FrameRoundTrips.PriorityParses | src/http2/pack.cc:86-110 | PRIORITY comes back for every stream, exclusive or not, and every weight |
| FrameRoundTrips.RstStreamParses | src/http2/pack.cc:112-123 | RST_STREAM comes back |
| FrameRoundTrips.PushPromiseParses | src/http2/parser.cc:177-216 | PUSH_PROMISE comes back, padded or not, whatever the reserved bit |
| FrameRoundTrips.PingParses | src/http2/pack.cc:164-173 | PING comes back |
| FrameRoundTrips.GoAwayParses | src/http2/pack.cc:175-192 | GOAWAY comes back with its debug data, whatever the reserved bit |
| FrameRoundTrips.WindowUpdateParses | src/http2/pack.cc:194-205 | WINDOW_UPDATE comes back, whatever the reserved bit |
| FrameRoundTrips.ContinuationParses | src/http2/parser.cc:274-296 | CONTINUATION comes back |
| FrameRoundTrips.SettingsParse | src/http2/parser.cc:146-175 | SETTINGS come back, any ids and values in any number |
| FrameRoundTrips.RefusedForSizeIff | src/http2/parser.cc:14-296 | a payload is refused exactly if its size, less padding, is wrong for its type, and always with FRAME_SIZE_ERROR |
| Settings.Clamp | src/http2/connection.cc:841-853 | the stored value is in range and unchanged if it was |
| DataFrames.PackData | src/http2/pack.cc:12-55 | the splitting loop writes exactly the frames of the specification, for every payload |
| DataFrames.FramesAreLawful | src/http2/pack.cc:29-53 | every frame is whole, within the peer's size and unpadded, only the last carries END_STREAM, and together they carry the payload |
| DataFrames.ChunkFlags | src/http2/pack.cc:14-41 | END_STREAM is on the last frame exactly if the payload was to end the stream, PADDED on none |
| DataFrames.SplittingEndsInEveryRun | src/http2/settings.cc:17-25 | in every run the peer's frame size is at least 16384 and below 2^24, so splitting ends and lengths fit |
| DataFrames.DataArrives | src/http2/connection.cc:657-696 | one DATA frame, padded or not, reports and appends exactly its payload and moves the state; one that ends both halves takes the stream out of the map after reporting it |
| DataFrames.DataRoundTrip | src/http2/pack.cc:12-55 | the frames of a non-empty payload, fed to a receiver's frame loop, are reported as exactly the payload, for this stream alone, append it to the stream, and end the stream if it was to end, which removes one whose other half had ended |
| SliceBuffer.SliceBuffer.AddSlice | src/utils/slice_buffer.cc:45-57 | contents grow by the slice; the cached length stays true |
| SliceBuffer.SliceBuffer.MoveHeader | src/utils/slice_buffer.cc:69-93 | drops exactly n octets, or nothing when there are fewer |
| SliceBuffer.SliceBuffer.CopyToBuffer | src/utils/slice_buffer.cc:95-111 | copies the front of the contents and nothing beyond |
| SliceBuffer.SliceBuffer.Merge | src/utils/slice_buffer.cc:17-35 | one slice with the whole contents |
| SliceBuffer.SliceBuffer.GetHeader | src/utils/slice_buffer.cc:59-67 | the first n octets, or nothing when there are fewer |
| SliceBuffer.SliceBuffer.PopFront | src/utils/slice_buffer.cc:133-139 | contents lose exactly the front slice |
| SliceBuffer.SliceBuffer.PopBack | src/utils/slice_buffer.cc:141-146 | contents lose exactly the back slice |
| SliceBuffer.SliceBuffer.Compact | src/utils/slice_buffer.cc:153-158 | compaction never changes the contents |
| SliceBuffer.DataConserved | src/http2/stream.cc:283-286 | over any run of append_data and ReadData, what was there and what was appended is what was read and then what is left |
| SliceBuffer.ReadData | src/http2/stream.cc:386-390 | copy_to_buffer and move_header together read the front and take it away |

## Left out

- Calls into the application and the network: sending is taken to succeed, an event handler is installed and does not call back into the connection, and no flow control handler is installed. Buffered mode, `flush_buffer`, mutexes, thread checks, clocks and the example programs are not modelled.
- Weak memory ordering in the queue: each atomic operation is one sequentially consistent step, and a node is pushed again only after it was popped. The queue is a state machine on values rather than a class, because several threads step it; `push`'s return value is not modelled.
- `malloc` failure (`src/hpack/send_record.cc:270-273`), reference counts of slices and host endianness: octets are immutable sequences.
- The hash: an arbitrary function, since nothing may depend on it.
- Wrap-around of 32-bit entry indices, of the decoder's `_current_table_size`, and of lengths of more than 2^32 octets: unbounded integers.
- Compressor.Compressor.EncodeHeaders: requires entries below 65536 octets for the names it inserts, as the original asserts, because the ring keeps sizes in 16 bits.
- HpackSync.EveryHistoryDecodes: is about the encoder as a value, which has no such bound; the object keeps step with it below 65536 octets. So are the laws of `ConnectionHeaders`.
- Compressor.Compressor.RebuildElems: the ring's capacity is never 0 in a reachable state, and is required not to be.
- The 257-row table of `src/hpack/huffman_data.cc`: the theorems hold for every table the script can generate from a full code, so the literals are not repeated.
- HuffmanRoundTrip.DecodeOfEncode: asks for an end-of-string code of at least eight ones, so that seven ones of padding are a proper start of it; Appendix B has thirty.
- HuffmanEncoder.Encode: requires the buffer that `encode_count` promises; with less room the original would go on octet by octet past the end, which a caller that counts first never meets.
- StringLiterals.ParseString: reports Overread where the original reads on past the block; what it finds there is not modelled.
- StringLiterals.ParseStringKey: the same.
- HeaderDecoder.DecodeHeaders: stops with ReadsPastEnd there, and the connection treats that as a compression error.
- Bit operations on octets are written with division and remainder.
- ConnectionObject.Connection.StreamSendHeaders: requires entries below 65536 octets for the names the compressor inserts, as the compressor asserts.
- ConnectionObject.Connection.SendPushPromise: the same.
- A padded frame of length 0: `src/http2/parser.cc:32`, `:71` and `:195` read the octet behind the frame before comparing the length; the answer is FRAME_SIZE_ERROR whatever it holds, and the model gives that answer without reading.
- `OnStreamData` hands over the stream; the log records with it the octets just appended.
- ConnectionObject.Connection.HandleFrame: parses with the function that Frames.ReadSettings and the round trips are about.
- DataFrames.DataRoundTrip: is about non-empty payloads, because an empty DATA frame is refused on receipt (`FrameEffects.EndAloneIsRefused`).
- The octets of control frames on their way out: the log records their fields, and the round trips are about payloads with the fields at their widths. The priority tree, which is not implemented, and `copy_to_buffer`'s assertion in debug builds.
- `_public_headers`, the lazy copy of a stream's headers for the application, and the query methods.
