# Verified model of plcio

This project models, in Dafny, the parts of plcio that carry its hardest promises, and proves them for all inputs.

**Batching read planners.** plcio answers a list of addresses with as few PLC round trips as it can. The controller is
a memory function behind a link that may lose, refuse or shorten any reply. `Fins`, `FinsGroups` and `FinsBatch` cover
Omron FINS (grouping, multi-memory reads, batches of 64, fallback), `S7Protocol`, `S7Request`, `S7Client`, `S7Batch` and
`S7Write` cover Siemens S7 (wire items, reply parsing, chunking, packing under the PDU limit, writes), and
`PcccCommand` and `PcccRead` cover SLC/PLC-5/MicroLogix (compact fields, routed replies, consecutive runs, fallback).
In each the planner is proved to give every request what its own read gives, or the exact condition is proved.

**The EtherNet/IP adapter.** `ConnectionTable` is the connection manager as a state machine over events and
`ConnectionManager` the services that take its steps; `Dispatch` is the recursive CIP dispatcher; `Sessions` is the TCP
session machine over interleaved connections; `Encapsulation` and `CyclicIO` carry produced packets into assemblies.

**Wire grammars.** `EPath`, `Routes`, `IOPath`, `TagPath`, `MultiService` and `Templates` prove builders and parsers
inverse, or say exactly when they are. `Bytes`, `Text` and `Sorting` are shared vocabulary.

Code that updates state is a class or a method with loops, tied by its `ensures` to a function or a step; what plcio
promises is then proved about that function or step. Randomness, clocks and network behaviour are parameters: outcomes
are a function from the number of a command to what happens to it, ids come from a stream of draws, and the name parsers
of the address strings are functions.

`dafny verify dfyconfig.toml` checks the whole project.

## Findings

- A FINS read of 32768 words or more ends the process once its reply arrives in full: the slice positions are computed
  in 16 bits (omron/tcp.go:376-377, omron/udp.go:235-236). `DM0[32768]` names such a read. A request of 65536 words or
  more is cut to its low 16 bits (omron/batch.go:628); if these reach 32768 it panics too, below that its slot is padded
  with zeros.
- The multi-memory FINS path reports count 1 and no array flag (omron/batch.go:827-830), so arrays of two bytes differ
  from the group path in type and count.
- docs/omron.md:131 promises a fallback to individual reads; the code falls back to group reads only, so a failed group
  fails all its requests.
- The S7 packing bound leaves out pad bytes: a planned reply can exceed the negotiated PDU by up to 14 bytes. A
  controller that keeps the PDU then refuses a whole batch of reads each of which it would serve alone.
- S7 bit counts of 65529 and more round to zero bytes, and a write of 8192 bytes or more tells the controller only its
  length modulo 8192, since its bit count is cut to 16 bits. Both need PDU sizes above 8 KiB.
- A second Forward_Open with an O->T id in use leaves the first connection in `byTO` only. `closeAll` then drops it
  from the index without closing it, and its later expiry can remove a newer connection's T->O entry.
  Forward_Opens after `closeAll` are possible because TCP sessions outlive it (eipadapter/adapter.go:183).
- A client that registers a second session on one connection leaves its first handle in the session table for good.
- `ParsePath` cannot accept a 0x91 segment: its branch asks for type bits 3.
- CPF sizes are added in 16 bits; an item length of 65532 or more makes the slice bounds cross, and the panic ends the
  process (eip/cpf.go:118-123).
- A SendUnitData whose connection is closed while its request is dispatched, for instance by a Forward_Close of that
  connection sent over it, makes the second lookup nil, which is dereferenced (eipadapter/command.go:87-88).
- A Multiple Service reply whose offsets point past the data is sliced beyond its length: it reads what lies behind in
  memory, or panics at the capacity (cip/multiservice.go:118).
- A tag byte above 127 is re-encoded as two bytes on its way into a symbolic segment (cip/epath.go:225).

## Model

| member | source | states |
|---|---|---|
| Fins.ReadRequestRespond | omron/fins.go:135-145 | for every area, address, bit position and count, the built request makes the controller return exactly those words or bits |
| Fins.Transport.ReadWords | omron/tcp.go:363-381 | one command per call; delivers the big-endian words of exactly the asked range below 32768 words, panics on a fully delivered reply of 32768 or more, because the slice positions are computed in 16 bits, and otherwise returns the error of the link, the controller or a short reply |
| Fins.Transport.ReadBits | omron/tcp.go:396-414 | one command per call; delivers one flag per asked bit, or the error |
| FinsGroups.GroupContiguousAddresses | omron/batch.go:578-620 | for sorted requests the groups concatenate to the input, each tiles its word range with no gap or overlap, exceeds 998 words only as a single request, and no two neighbours could have been joined |
| FinsGroups.NoWrap | omron/batch.go:595-598 | the 16-bit sum that decides contiguity never wraps a request into a group it does not continue |
| FinsGroups.GroupWords | omron/batch.go:623-665 | the words at a request's running offset in its group's reply are that request's own words |
| FinsGroups.DeliveredIsMemory | omron/tcp.go:363-381 | over a link that passes everything a read of one request returns the memory range, for every memory, if and only if the controller serves it and it is below 32768 words; it panics if and only if the controller serves it and its 16-bit count is 32768 or more |
| FinsGroups.ReplyWord | omron/batch.go:796-841 | word i of a multi-memory reply belongs to group i |
| FinsGroups.AnswerIsMemory | omron/batch.go:524-575 | a slot without error, for a request below 65536 words, is below 32768 words and holds the request's own name and the big-endian bytes of exactly its range, and its own type and count unless it is one word of an array; it has no error if no read that spans it failed |
| FinsBatch.BatchReader.Extract | omron/batch.go:643-660 | copies a request's words big-endian out of the group reply and reports its type, array flag and count |
| FinsBatch.BatchReader.Distribute | omron/batch.go:641-664 | every request of a delivered group gets its own slice in its own slot; no other slot changes |
| FinsBatch.BatchReader.MarkFailed | omron/batch.go:629-639 | every request of a failed group gets the group's own error in its own slot; no other slot changes |
| FinsBatch.BatchReader.ReadGroup | omron/batch.go:623-665 | exactly one command, for the group's range; unless its reply panics each of its slots is answered, an error being that very read's, and the others are kept |
| FinsBatch.BatchReader.ReadGroups | omron/batch.go:545-548 | one command per group, in order, up to and with the first that panics; without a panic every request of every group is answered |
| FinsBatch.BatchReader.BuildMultiMemoryReadRequest | omron/batch.go:755-790 | the data field is the count and one four-byte entry per group, in order |
| FinsBatch.BatchReader.ParseMultiMemoryReadResponse | omron/batch.go:796-841 | on success every request of every group is answered in its own slot; a short reply is an error |
| FinsBatch.BatchReader.ReadMultiMemory | omron/batch.go:670-709 | groups of more than one word are read group by group; otherwise exactly one command is sent, which answers every slot or yields an error, and yields it exactly when the command is lost, refused or cut short |
| FinsBatch.BatchReader.ReadScattered | omron/batch.go:549-558 | one multi-memory command, with one read per group behind it only if it fails; unless one of them panics every request is answered |
| FinsBatch.BatchReader.ReadInBatches | omron/batch.go:559-574 | the same, batch of 64 groups by batch, each with its own fallback |
| FinsBatch.BatchReader.ReadByStrategy | omron/batch.go:543-574 | up to three groups are read one by one, up to 64 by multi-memory command, more in batches: exactly these commands are sent, up to and with the first that panics |
| FinsBatch.BatchReader.ReadNextBatch | omron/batch.go:561-573 | one batch: at most 64 groups, earlier batches' answers kept |
| FinsBatch.BatchReader.ReadWordsBatched | omron/batch.go:524-575 | the requests are sorted in place into maximal tiled groups; the process survives if and only if no command of the strategy's plan panics, and then exactly that plan is sent, every original index is answered and no other slot is touched |
| FinsBatch.BatchReader.ReadBits | omron/batch.go:712-742 | one bit request is answered by one command of its own |
| FinsBatch.BatchReader.Classify | omron/batch.go:482-508 | parse failures are answered at once; every other tag becomes exactly one word or bit request with its own index, in tag order |
| FinsBatch.BatchReader.ReadBatchedWithTypes | omron/batch.go:471-521 | for any tag list and any pattern of lost, refused or cut replies: the process survives if and only if no command of the strategy's plan panics, and then exactly that plan and one command per bit tag are sent and every slot answers its own tag, with its own memory under its own name or with the error of a read for it that failed; otherwise the plan is sent up to the command that panics |
| FinsBatch.SurvivesExactly | omron/tcp.go:375-378 | over every controller and link the process survives a batched read if and only if no request is one that the controller answers in full with 32768 words or more |
| FinsBatch.FirstPanic | omron/tcp.go:375-378 | one request for 32768 words, as DM0[32768] names, panics whatever memory holds |
| S7Protocol.ParseReadResponse | s7/protocol.go:145-297 | on any input each item ends with exactly one of data and error, and the outcome is that of the item-by-item specification |
| S7Protocol.ParseAllItems | s7/protocol.go:213-294 | the position loop over the data items computes the specified verdicts |
| S7Protocol.ParseInvertsLayout | s7/protocol.go:145-297 | any list of values and bare return codes, padded to even lengths but for the last, parses to exactly those byte strings and errors |
| S7Protocol.ByteLengthExact | s7/protocol.go:262-269 | the 16-bit rounding of a bit count is exact if and only if the count is at most 65528 |
| S7Protocol.SingleValueExact | s7/protocol.go:262-269 | a single value comes back if and only if its bit count does not wrap while it is rounded up |
| S7Request.DecodeBuildRead | s7/protocol.go:115-142 | the controller reads back exactly the items of the requested addresses from the built PDU |
| S7Request.DecodeEncodeItem | s7/protocol.go:405-468 | the twelve bytes of an item carry its transport size, count, block, area and 24-bit bit address |
| S7Request.DecodeBuildWrite | s7/protocol.go:300-355 | a byte write is understood as its address and as much data as its 16-bit bit count says, all of it if and only if there are fewer than 8192 bytes |
| S7Request.DecodeBuildBitWrite | s7/protocol.go:330-345 | a bit write is understood as its address and one byte |
| S7Request.ReadThroughWire | s7/client.go:614-631 | build, answer, parse: each address gets the controller's answer to its own item, or all get its refusal, exactly if the reply would be longer than its PDU |
| S7Client.ReadChunksIsMemory | s7/client.go:560-611 | a chunked read that succeeds returns exactly the memory range, for any chunk size |
| S7Client.OwnReadIsMemory | s7/client.go:538-611 | a successful read of one address, a bit or bytes, chunked or not, returns the bit or the bytes the address names |
| S7Client.GuardNeverFires | s7/client.go:560-569 | with full chunks the iteration guard is never reached |
| S7Client.ChunkWraps | s7/protocol.go:443-448 | beyond 2 MiB the 24-bit bit address silently names another place |
| S7Client.Client.ReadAddress | s7/client.go:538-611 | over any link, by any pattern of lost and shortened replies, the outcome and the requests are those of the chunk-by-chunk specification, counted from the first request |
| S7Client.Client.ReadInChunks | s7/client.go:560-611 | the chunk loop follows that specification: a short chunk moves the next one up, an empty one and the iteration guard end the read |
| S7Client.ReadOverIsMemory | s7/client.go:538-611 | over any link a success is a prefix of what the one item names or, in chunks, exactly the range |
| S7Client.FlawlessRead | s7/client.go:538-611 | over a flawless link outcome and requests are those of the address's own read in full chunks, and the guard never fires |
| S7Batch.ReadAddressTyped | s7/client.go:253-295 | whatever the parser and the type hint say, the wire item of the address to read returns its declared size |
| S7Batch.ReadBatch | s7/client.go:450-534 | one request for the whole batch; every slot holds exactly what came back for its item, whatever the link did |
| S7Batch.FlushBatch | s7/client.go:327-368 | nothing, one single read, or one request for the whole batch is sent; each slot of the batch holds exactly what came back for it, no other changes |
| S7Batch.PlanRequest | s7/client.go:370-441 | one round of the planner keeps: what was sent is the requests of the batches closed so far, earlier requests hold what came back for them or wait in the open batch, which is within both limits; the request joins the open batch exactly when it has room |
| S7Batch.ReadWithTypes | s7/client.go:229-447 | for any request list and any pattern of lost, shortened or refused replies: exactly the greedy plan's requests are sent, in order, each of which fits the planned PDU (12 + 12n bytes, and a sum of 4 + size of at most PDU - 18), and every slot holds what its own item of its own request brought, or for a chunked item what its own chunks brought |
| S7Batch.PlanKeepsOrder | s7/client.go:370-444 | the batches of the plan, put together, are the requests that reach the controller, each once and in order |
| S7Batch.FlawlessAnswers | s7/client.go:229-447 | over a flawless link with a PDU of at least 50, if every batch's reply fits the controller's PDU, every slot holds what the request's own read returns |
| S7Batch.FlawlessAsked | s7/client.go:229-447 | over such a link the controller is asked for exactly the items, in exactly the order, of reading the requests one by one |
| S7Batch.BatchIsOwn | s7/client.go:309-322 | a planned batch of accepted items brings each what its own read brings if and only if 14 plus payload plus pad bytes is at most the PDU |
| S7Batch.BatchingIsExact | s7/client.go:229-447 | over a flawless link to a controller that keeps the negotiated PDU and accepts every item, batching changes no answer if and only if that holds of every batch |
| S7Batch.ReplyOverrun | s7/client.go:322 | the packing bound leaves out padding, so a planned reply can exceed the PDU, but by at most 14 bytes |
| S7Batch.ReplyExact | s7/protocol.go:290-293 | the exact size of a reply without refusals: the planned payload plus one byte for each odd item but the last |
| S7Batch.OverrunExample | s7/client.go:401 | six reads of 33 bytes are planned into one 240-byte PDU and need 241 bytes, so a controller that keeps the PDU refuses all six, though it serves each alone |
| S7Write.WriteReply | s7/protocol.go:358-402 | the parsed reply to a write is a success if and only if the controller accepted it |
| S7Write.WriteEffect | s7/client.go:770-782 | an accepted byte write lays its data (up to its length modulo 8192) over the range and changes nothing else |
| S7Write.BitWriteEffect | s7/client.go:770-782 | an accepted bit write sets that bit and leaves every other bit of memory as it was |
| S7Write.WriteAddressSingle | s7/client.go:770-782 | success means served and accepted; memory is overlaid with as much of the data as its bit count says, or unchanged |
| S7Write.WriteInChunks | s7/client.go:724-767 | chunks land one after the other, each as far as its bit count says, as many requests as full chunks need; after an error memory holds some of them, which below 8192 bytes a chunk is a prefix of the data |
| S7Write.WriteOneChunk | s7/client.go:736-764 | one request; the written prefix grows by the chunk, or stays a prefix if it fails |
| S7Write.WriteAddress | s7/client.go:703-767 | for any PDU size memory is overlaid chunk by chunk as far as each bit count says, with all chunks on success and some of them after an error; if no chunk reaches 8192 bytes that is all of the data, or a prefix of it |
| S7Write.WholeWhenShort | s7/client.go:703-767 | writing in chunks lays exactly the data over memory, whatever it held, if and only if the smaller of data and chunk size is below 8192 bytes |
| PcccCommand.TakeInvertsCompact | pccc/command.go:74-80 | the compact encoding is self-delimiting for every 16-bit value, whatever follows |
| PcccCommand.DecodeInvertsBuild | pccc/command.go:27-111 | the controller reads back byte count, file, type, element, sub-element, transaction and requester id from the built request |
| PcccCommand.RoutingIsTransparent | pccc/command.go:161-182 | a reply parses the same through any number of Unconnected_Send reply wrappers with any status words |
| PcccCommand.AcceptedIsWrapped | pccc/command.go:161-215 | everything the recursive parser accepts is an Execute PCCC success envelope inside some number of successful wrappers, and the payload is what follows its requester id |
| PcccCommand.ReadThroughWire | pccc/plc.go:46-89 | build, route, answer and parse: the caller gets the bytes the command names, cut as the link cut them, or the failure that occurred |
| PcccRead.Plc.SendCipRequest | pccc/plc.go:209-234 | one exchange; a dropped link stays down |
| PcccRead.Plc.ReadAddress | pccc/plc.go:46-89 | one command for the address's own read size, whose frame decodes at the controller to that command |
| PcccRead.Plc.ReadAddressN | pccc/plc.go:95-140 | one command for `count` neighbouring elements |
| PcccRead.ContiguousRuns | driver/pccc.go:338-358 | for a sorted list the runs concatenate to it, are consecutive and maximal; the 16-bit increment never wraps into a run |
| PcccRead.GroupIndices | driver/pccc.go:207-213 | the group of a data file is exactly the indices of its whole-element addresses, in request order |
| PcccRead.IndicesExact | driver/pccc.go:208-213 | that list holds each such index once and no other |
| PcccRead.SliceIsNamed | driver/pccc.go:269-276 | the slice of a bulk reply at position j is what the j-th element of the chunk names in memory |
| PcccRead.FullReply | driver/pccc.go:269-273 | a full reply reaches to the last element of its chunk |
| PcccRead.MaxCount | driver/pccc.go:246-247 | the chunk size is at least two elements and at most 236 bytes for every file type |
| PcccRead.PartIsChunk | driver/pccc.go:250-258 | every part of a run of that size is a chunk, and of two or more elements a bulk command |
| PcccRead.Adapter.PlaceElements | driver/pccc.go:269-290 | every element the reply holds whole is settled; nothing outside the chunk changes |
| PcccRead.Adapter.ReadChunk | driver/pccc.go:255-291 | exactly one command; all elements its reply delivers whole are handled, all of the chunk if the link is flawless, the rest left for their own reads |
| PcccRead.Adapter.ReadRun | driver/pccc.go:245-292 | one command for each chunk of two or more elements of the run, in order |
| PcccRead.Adapter.ReadRuns | driver/pccc.go:240-292 | every run of two or more is read in chunks, in order; over a flawless link every element that shares a chunk is handled |
| PcccRead.CommandsAreBulk | driver/pccc.go:245-263 | each of these asks for at least two whole elements and at most 236 bytes |
| PcccRead.WholePlanIsBulk | driver/pccc.go:225-293 | so does every command of the whole bulk phase |
| PcccRead.Adapter.ReadGroup | driver/pccc.go:225-293 | the file's elements are sorted and cut into maximal runs, exactly the runs' chunk commands are sent, and whatever subset fails, every handled index holds its settled value |
| PcccRead.Adapter.ReadGroups | driver/pccc.go:225-293 | the same for exactly one plan per data file, in whatever order the map yields them |
| PcccRead.Adapter.ReadEach | pccc/client.go:177-218 | one read per name that parses, in order; each value is the answer to its own command |
| PcccRead.Adapter.Read | driver/pccc.go:165-334 | whatever fails or is cut short, each result is the complete own value of its address or the answer to a read of that very address; exactly the plan's bulk commands and then one command per remaining index are sent; over a flawless link no element that shares a bulk command is read again; an error is returned exactly when a remaining read was needed and the link is down |
| PcccRead.SettledIsOwnReply | driver/pccc.go:275-288 | the value a bulk read gives an index equals, in name, bytes, value and type, what the address's own read returns whenever that delivers in full |
| ConnectionTable.KeyedAlways | eipadapter/connmanager.go:178-181 | in every reachable state, whatever ids are chosen, the indexes hold only unclosed connections under their own ids |
| ConnectionTable.CoveredAlways | eipadapter/connmanager.go:178-220 | over runs with repeated O->T ids every connection in `byOT` is in `byTO` under its T->O id, unless something is opened after a shutdown that left a connection behind |
| ConnectionTable.CoveredIffClean | eipadapter/producer.go:128-136 | over every run the coverage holds after each step if and only if no expiring connection's T->O entry belongs to a connection indexed under another O->T id |
| ConnectionTable.CoverageLost | eipadapter/connmanager.go:305-315 | a five-step run shows that without that condition the coverage fails |
| ConnectionTable.ExpireKeepsCoverage | eipadapter/producer.go:128-136 | one expiry keeps the coverage if and only if it takes no T->O entry from a connection indexed under another O->T id |
| ConnectionTable.CloseAllLeavesNothing | eipadapter/connmanager.go:305-315 | a shutdown leaves nothing open if and only if no live connection is missing from `byOT` |
| ConnectionTable.IndexesAreExact | eipadapter/connmanager.go:160-231 | over every run with unused O->T ids `byOT` and `byTO` index exactly the connections opened and not yet closed, as counted from the events alone |
| ConnectionTable.CloseTakesOne | eipadapter/connmanager.go:202-231 | in such runs Forward_Close closes exactly one connection with its triad if any is open, and none otherwise |
| ConnectionTable.KnownUnlessForgotten | eipadapter/connmanager.go:202-231 | an O->T id in use stays known through an event unless the event closes a connection under it; Forward_Close always forgets its own connection's id |
| ConnectionManager.ConnectionManager.AllocateConnID | eipadapter/connmanager.go:278-291 | the id is not 0, not 0x20000002 and not in use |
| ConnectionManager.ConnectionManager.HandleForwardOpen | eipadapter/connmanager.go:118-200 | accepts exactly when the path parses, both assemblies exist and the callback agrees; then the tables make one Open step under the replied ids, otherwise nothing changes |
| ConnectionManager.ConnectionManager.HandleForwardClose | eipadapter/connmanager.go:202-231 | makes one Close step for whichever matching connection the scan meets, or none |
| ConnectionManager.ConnectionManager.Expire | eipadapter/producer.go:128-136 | makes one Expire step |
| ConnectionManager.ConnectionManager.CloseAll | eipadapter/connmanager.go:305-315 | closes every connection in `byOT` and empties both tables |
| ConnectionManager.ConnectionManager.LookupByOT | eipadapter/connmanager.go:293-297 | finds the connection indexed under an O->T id, if any |
| Dispatch.Register | eipadapter/object.go:43-52 | adds or replaces one object and leaves every other lookup unchanged |
| Dispatch.Respond | eipadapter/object.go:74-89 | a reply carries the general status in its third byte, states its own header length, and on success the data follow four bytes |
| Dispatch.Adapter.Dispatch | eipadapter/command.go:94-139 | the recursive dispatcher terminates and leaves the reply, state and object calls of the specification |
| Dispatch.Adapter.HandleUnconnectedSend | eipadapter/connmanager.go:237-274 | dispatches the embedded message if its size field fits and passes on its body, or its status alone |
| Dispatch.RouteOfWrap | logix/plc.go:396-421 | a wrapped request is opened to exactly what was wrapped if and only if that is below 65536 bytes, for every route |
| Dispatch.ReplyShape | eipadapter/command.go:94-139 | any request reaches at most one object |
| Dispatch.NestingIsTransparent | eipadapter/connmanager.go:237-274 | wrapping a request any number of times with any routes leaves the same state and the same single object call, and keeps general status and body; only the service byte and extended status change |
| EPath.PathBuilder.Add | cip/epath.go:47-77 | appends the padded logical segment of the call |
| EPath.PathBuilder.Build | cip/epath.go:98-111 | returns the segments of all calls in order, always of even length |
| EPath.WordLenExact | cip/epath.go:113-115 | twice the word count byte is the length if and only if the path has at most 510 bytes |
| EPath.ParsePath | cip/server.go:273-353 | the index loop computes the segment-by-segment specification |
| EPath.TakeInvertsEncoded | cip/epath.go:123-177 | a logical segment in any width is read back with its type and value, and the rest untouched |
| EPath.ParseInvertsBuilder | cip/server.go:273-353 | any sequence of builder calls parses to the last value of each field, and a route behind it is left over whole |
| EPath.SymbolicRejected | cip/server.go:327-330 | a 0x91 segment after any logical segments makes the parse fail: its type bits are 4, not 3 |
| EPath.NeverSymbolic | cip/server.go:327-344 | no accepted path has a symbolic name |
| Routes.ParseConnectionPath | cip/epath.go:278-323 | the token loop computes the pair-by-pair specification, with its errors |
| Routes.FormatConnectionPath | cip/epath.go:327-364 | the byte loop yields the tokens of every complete segment |
| Routes.FormatRoute | cip/epath.go:327-364 | formatting the port segments of any hop list gives its text |
| Routes.ParseRouteText | cip/epath.go:278-323 | parsing the text of any hop list gives its port segments |
| Routes.FormatAndParseAreInverse | cip/epath.go:278-364 | the two undo each other on every hop list with ports 0-15, numeric 0-255 or dotted addresses of at most 255 bytes |
| IOPath.ParseIOConnectionPath | eipadapter/connmanager.go:327-437 | the index loop computes the segment-by-segment specification, with its errors |
| IOPath.RouteIsSkipped | eipadapter/connmanager.go:336-358 | prefixing any route changes nothing in what a path parses to |
| IOPath.PathMeaning | eipadapter/connmanager.go:359-436 | class 4, a configuration and points in any widths and spellings, behind any route, parse to those instances; 0x80 means no configuration |
| Encapsulation.FrameRoundTrip | eip/server.go:42-117 | a serialised frame parses to itself if and only if its data is below 65536 bytes |
| Encapsulation.StreamRoundTrip | eip/server.go:70-95 | frames written one after the other are read back in order |
| Encapsulation.SerialisePacket | eip/cpf.go:74-88 | the loop writes count and items in order |
| Encapsulation.ParseCommonPacket | eip/cpf.go:91-131 | the loop computes the item-by-item specification, with its errors; `OutOfRange` is the panic of crossing slice bounds |
| Encapsulation.PacketRoundTrip | eip/cpf.go:74-131 | a packet of up to 65535 items reads back if and only if every item is below 65532 bytes |
| Encapsulation.PanicsExactly | eip/cpf.go:91-131 | bytes make the parser panic if and only if a well-formed list of fewer items than announced is followed by an item header with a length of 65532 or more |
| Encapsulation.RRDataRoundTrip | eip/server.go:121-136 | the interface handle and timeout prefix comes off again |
| CyclicIO.Assembly.SetBytes | eipadapter/assembly.go:69-92 | lays the data over the buffer from the offset, clipped, counts the update, and reports how much it wrote |
| CyclicIO.Assembly.SetByte | eipadapter/assembly.go:95-104 | changes exactly one byte, or nothing outside the buffer |
| CyclicIO.Assembly.ReceiveFromScanner | eipadapter/assembly.go:133-147 | lays the data over the buffer; its length never changes |
| CyclicIO.Producer.Produce | eipadapter/producer.go:69-70 | the nth packet of a connection carries n modulo 2^32, n modulo 2^16 and the assembly's contents |
| CyclicIO.HandleIOPacket | eipadapter/consumer.go:39-125 | a datagram stores its data, without sequence count and Run/Idle header, in the consume assembly of the connection it names, teaches it its peer once, and touches nothing else; it ends the adapter exactly if its packet makes the parser panic |
| CyclicIO.ProducedIsDelivered | eipadapter/producer.go:84-112 | a produced packet of up to 65509 bytes is delivered to its non-zero connection id with exactly the produced data |
| CyclicIO.StoredExactly | eipadapter/consumer.go:112-124 | equal-sized data replaces the contents, shorter data changes only a prefix, four extra bytes are a header, longer data is clipped |
| CyclicIO.EndToEnd | eipadapter/consumer.go:39-125 | packet number n of a connection, for any n, panics nowhere, reaches the connection of its id, and leaves its assembly with exactly the produced data: replaced, shorter, without a four-byte header, or clipped |
| CyclicIO.Transfer | eipadapter/producer.go:66-78 | one tick of a producer whose packet arrives at a consumer: the contents of one assembly end up in the other |
| CyclicIO.SixBytesCrash | eipadapter/consumer.go:51-59 | six bytes are the shortest datagram that ends the adapter |
| Sessions.TcpServer.Register | eipadapter/session.go:26-41 | the handle is not zero, was not in use, and now belongs to the connection |
| Sessions.TcpServer.HandleFrame | eipadapter/server.go:57-90 | one frame makes one step of the session machine, which may be a crash, after which nothing happens |
| Sessions.CrashesExactly | eipadapter/command.go:17-91 | a frame ends the process if and only if, in a session of its own, it carries a packet that panics, or a connected message whose connection disappears while its request is dispatched |
| Sessions.ClosedUnderway | eipadapter/command.go:80-88 | a connected message dispatched while the connection table takes a step crashes the process if and only if that step closes a connection under the message's id, as a Forward_Close of its own connection does |
| Sessions.SessionSafety | eipadapter/server.go:38-120 | in every interleaving each dispatched request came after a registration its connection's latest one confirms, under that handle or none; live sessions are in the table for their own connection, and no two open connections share one |
| Sessions.HangUpCleansUp | eipadapter/server.go:92-94 | a connection that ends leaves nothing in the table if and only if its last registration was its only successful one; earlier handles stay behind |
| MultiService.BuildMultipleServiceRequest | cip/multiservice.go:20-68 | 1 to 200 requests become count, running 16-bit offsets and bodies; other counts are errors |
| MultiService.TableHolds | cip/multiservice.go:42-49 | the table tells where a body starts if and only if that is below 65536 |
| MultiService.RequestsArePositional | cip/multiservice.go:20-68 | cutting at the table gives request i back byte for byte whenever the last offset fits |
| MultiService.ParseMultipleServiceResponse | cip/multiservice.go:79-144 | the loops compute the entry-by-entry specification over the data and what lies behind it in memory; the first entry that ends past the capacity is the panic |
| MultiService.SpareMatters | cip/multiservice.go:101-119 | if no entry ends past the data, what lies behind it is never read; if one does, the parser panics when nothing lies behind |
| MultiService.RepliesArePositional | cip/multiservice.go:79-144 | well-formed replies laid out this way parse to themselves in order, whatever lies behind them in memory, so reply i belongs to request i |
| TagPath.SplitTagPath | cip/epath.go:187-235 | the index loop computes the character-by-character specification |
| TagPath.SplitInvertsPrint | cip/epath.go:187-235 | printing any list of names without separators and 32-bit indexes and splitting the result gives the list with every byte re-encoded in UTF-8, which is the list itself if and only if the names are ASCII |
| TagPath.SplitIsValid | cip/epath.go:187-235 | any tag, of any bytes, splits into non-empty names without separators |
| TagPath.Symbol | cip/epath.go:79-96 | for a tag of any bytes: appends the segment of each part in order, fails exactly if a part is a name over 255 bytes, and what it builds reads back as the parts |
| TagPath.DecodeInvertsEncode | cip/epath.go:238-265 | encoding fails if and only if a name is empty or exceeds 255 bytes; otherwise it has even length and reads back as the parts |
| TagPath.EncodeInjective | cip/epath.go:79-96 | different part lists never share an encoding |
| Templates.ExpandMemberPaths | logix/client.go:777-819 | the recursive loops compute the expansion, on any graph, with paths and types in step |
| Templates.GetAllStructMembers | logix/client.go:853-865 | expands a structure type whose template can be had, to a depth of ten, and nothing else |
| Templates.ExpansionIsExact | logix/client.go:777-819 | the expansion lists, in depth-first order and none twice, exactly the visible member chains of at most the depth that end in an atomic member, cyclic graphs included |
| Templates.BuildMemberMap | logix/template.go:520-526 | a name maps to the last visible member that has it |
| Templates.FoundByName | logix/template.go:520-526 | a visible member is found under its name if and only if no later visible member shares it |
| Templates.ListedPathsAreFound | logix/client.go:943-986 | each listed path looks up to the very member it was listed for if and only if every name on its way is free of '.' and '[' and no later visible member of its template shares it; then it looks up to its listed type |

## Left out

- Sockets, deadlines, discovery, goroutines and logging: the adapter takes atomic steps, and the producer's closed check with its expiry is one step.
- Timeout values of the producer: an expiry may happen to any connection that is not closed.
- Value and type codecs: a decoded PCCC value is represented by the address and bytes it is decoded from, and FINS type sizes are a parameter.
- Address syntax: s7/address.go, omron/address.go and pccc/address.go are represented by what they yield; `FromParser` says which S7 addresses that are.
- Error texts: errors keep their kind and codes.
- Omron's EIP path and Logix batching through Multiple Service Packets; `readTagChunked` and `ReadTagFragmented`, which need not terminate.
- `getMemberTypesRecursive`, template caches and template downloads; a template fetch is a function that may fail.
- Identity, Message Router, TCP/IP and Ethernet Link objects, and the assembly object's explicit services: arbitrary deterministic handlers in the dispatcher.
- Field parsing of Forward_Open and Forward_Close requests and their reply bodies: the services start from the parsed fields.
- Whole-frame replies of the session server: its decision and status are modelled, not the payload bytes of list replies.
- PCCC writes, file discovery and the write path of FINS.
- The library sort is represented by an insertion sort that callers know only by its contract: sorted, and a permutation.
- The result error of the S7 client when its connection is down at the end of a read.
- Fins.Respond: the controller refuses word ranges beyond 65536 words and answers bit ranges as asked.
- S7Protocol.ParseInvertsLayout: a refused item is laid out as its bare return code, as the parser assumes.
- S7Batch.FlawlessAnswers: stated for a negotiated PDU of at least 50, below which the planner assumes 240 while the single read assumes its own minimum; `ReadWithTypes` has no such bound.
- S7Request.ReadThroughWire: the controller refuses a read whose reply is longer than its PDU, all items together, with error class 0x85; it does not refuse requests for their own length.
- FinsBatch.BatchReader.ReadBatchedWithTypes: after a panic the process is over; what the slots then hold is not stated.
- S7Client.ReadChunksIsMemory: ranges end within the 2 MiB the 24-bit bit address can name; `ChunkWraps` says what happens beyond.
- PcccRead.Adapter.Read: an address that does not parse is reported with count 0 in bulk mode and count 1 by the plain client; name, bytes, value and type agree.
- ConnectionManager.ConnectionManager.AllocateConnID: some draw is assumed acceptable, as for the random source to end the loop.
- Sessions.TcpServer.Register: the same assumption about its draws.
- Routes.FormatAndParseAreInverse: text addresses contain a dot, no comma and no blank at either end, as the string form needs.
- Routes.ParseConnectionPath: blanks are the ASCII ones and the two Latin-1 ones.
