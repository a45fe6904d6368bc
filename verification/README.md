# ProDBG message format, session, remote link and fake 6502 target

A Dafny model of the parts of ProDBG where correctness is hardest to see from
the code.

**The binary message format.** A writer (`pd_binary_writer.c`) lays events,
typed fields, data and arrays of entries into one flat buffer and patches their
lengths in afterwards; a reader (`pd_binary_reader.c`) walks the buffer by raw
offsets. `Format` defines events, items and fields as values and their bytes.
`BinaryWriter` and `BinaryReader` say what each call of the source does to
state and buffer; `WriterObject` and `ReaderObject` are the same calls in place
over an array, each proved equal to its specification. `Tiling` is the writer's
invariant, `Requests` its length patches and request ids, `Unbracketed` what
calls out of order do to those patches, `WireFormat` some of the bytes written
out, `Codec` the integer conversions, `RoundTrip` the searches, `Malformed` the
reader where there is nothing to read, `Events` the whole stream, and
`Unambiguous` and `Serialise` show that the bytes determine what was written and
that every stream can be written.

**Session and remote link.** `Session`/`SessionObject` model the exchange of
requests and replies between the user interface and a plugin over two writers
and one reader. `Transfer`, `Remote` and `RemoteObject` model the chunked
transfer over a socket and one update of the remote side. Both rest on the same
events.

**The fake 6502.** `Opcodes` holds the tables of emulator and disassembler;
`Cpu` is the machine as a function on states and `CpuObject` the emulator in
place. `Decoding`, `Addressing`, `InstructionSet` and `Timing` are what a data
sheet says: operation, operand, effect and cycles of each opcode, proved of
executed instructions; `Arithmetic`, `Shifts` and `Operations` are the arithmetic
behind it. `Stack` and `Subroutines` prove that calls and interrupts resume,
`Cycles` bounds what runs cost, and `HiddenState` proves that nothing but registers, flags and memory
passes from one instruction to the next. `Disassembler` compares the two
decoders and the code they walk. `Multibyte` runs programs for numbers of any length and `ExecEnds` decides when
`exec6502` ends. `Stepper`/`StepperObject` are the debugger's stop, step and run
loop, and `Report` is what the target writes about itself and the debugger reads.

**Two small structures.** `FixedString` is the inline-or-heap string of the
Rust API, `RecentExecutables` the list of recent files.

The pattern is the same everywhere: a class with the source's fields and loops,
each method proved to leave the state its specification function gives, and
lemmas that say what those functions achieve over all inputs and all runs.

## Reading the contracts

* A pointer is an offset into its buffer and null is 0, and comparisons of
  pointers are comparisons of offsets. The two differ for an empty stream over a
  buffer, where the reader stops at the first instead of the second of its end
  tests, with the same result.
* `Complete(w, calls)` is a well-bracketed run on a fresh or reset writer that
  closes what it opens and fits the buffer. The source never checks capacity,
  so room for the calls is a precondition. Calls out of order are modelled too:
  the begin calls that the source rejects move an offset first, and
  `Unbracketed` is about any order of calls.
* `BalancedRun(c, hs, base, n, depth)` is a run of executed instructions and
  interrupts whose pushes and pulls stay within the 256 bytes below `base`, never
  reach into the n bytes that are to survive, and end just below them; any other
  instruction in it must leave the stack pointer and those n bytes alone.
* A record other than data or an array has a 16-bit size, so a written field
  must stay below 65536 bytes (`Small`); the writer stores a longer one with a
  truncated size. Ids and strings contain no NUL.
* Event id 0 ends the enumeration of events, and an entry whose field count is 0
  modulo 65536 ends that of entries. Loops are therefore proved to pass
  everything up to the first such one (`UntilNone`, `Visible`), and all of it
  when there is none.
* Integers have the widths of the source; promotions and truncations are
  written out as two's complement.

## Where the code departs from what it promises

* `write_event_begin` returns 1 on failure, its documentation says 0; 1 is also
  the first valid id (`Requests.FailureLooksLikeFirstId`).
* After a rejected nested begin the end call no longer patches the open record
  (`Unbracketed.EndHitsOwnSize` for when it does, `Unbracketed.EndHitsLastBegin`
  for where it does instead).
* An event with id 0 hides the rest of its update from the plugin
  (`Session.ExactlyOnce`).
* `update_current_pc` ignores the status of the find. When the first reply has no
  data field, what the uninitialised pointer shows can be taken for a message
  (`SessionObject.LocatesFirst` for exactly when,
  `SessionObject.PlainEventMisleads` for a reply that does it).
* A start that does not get the target running leaves the timer polling
  (`Session.LaunchPolls`, `Session.TimerFollows`).
* The 64-bit getters sign-extend from bit 31. The exact domain on which values
  survive is `Codec.Exact`; 0.1 as a double and large request ids fall outside.
* A double found as another type is reported as a float
  (`RoundTrip.StatusNamesType`).
* `exec6502` need not end for a goal in the last 7 counts before 2^32
  (`ExecEnds.EndsExactly`).
* `recvStream` advances by the block it asked for, not by what it got
  (`Transfer.TakesExactlyTheBody`, `Transfer.ShortReadLosesBytes`).
* A step action that arrives while the target runs does not stop it
  (`Stepper.StepHonoured`).
* `reset6502` starts at address 0, not at the reset vector
  (`HiddenState.ResetIgnoresVector`).
* `put_file_on_top` ignores a file that the list has dropped
  (`RecentExecutables.RunRefines`, `RecentExecutables.ForgottenFile`).

## Model

| member | source | states |
|---|---|---|
| Tiling.ApplyKeeps | api/src/remote/pd_binary_writer.c:298-458 | any one well-bracketed call keeps the buffer tiled: the 4 header bytes, then complete events end to end, then at most one open event, array and entry, each exactly the encoding of what was written; a begin-event returns the next request id, every other call success |
| Tiling.RunKeeps | api/src/remote/pd_binary_writer.c:47-458 | the tiling holds after every well-bracketed run |
| Tiling.WriteKeeps | api/src/remote/pd_binary_writer.c:47-294 | a field write of any type appends exactly that field to the innermost open scope and counts it in an open entry |
| Tiling.BeginEventKeeps | api/src/remote/pd_binary_writer.c:298-321 | opening an event appends its record head and its `_request_id` field |
| Tiling.EndEventKeeps | api/src/remote/pd_binary_writer.c:325-344 | closing an event turns the open region into one complete event record |
| Tiling.BeginArrayKeeps | api/src/remote/pd_binary_writer.c:411-430 | opening an array appends its head inside the open event |
| Tiling.EndArrayKeeps | api/src/remote/pd_binary_writer.c:434-458 | closing an array completes its record including the appended terminator entry |
| Tiling.BeginEntryKeeps | api/src/remote/pd_binary_writer.c:363-381 | opening an entry appends its head inside the open array |
| Tiling.EndEntryKeeps | api/src/remote/pd_binary_writer.c:385-407 | closing an entry completes its record with size and field count |
| Requests.EndEventPatch | api/src/remote/pd_binary_writer.c:325-344 | ending an event writes the byte length of the event record into its 4 size bytes and leaves every other byte of the buffer and the write position alone |
| Requests.EndEntryPatch | api/src/remote/pd_binary_writer.c:385-407 | ending an entry writes its byte length and its field count modulo 65536 into its 6 bytes and nothing else |
| Requests.EndArrayPatch | api/src/remote/pd_binary_writer.c:434-458 | ending an array writes the byte length of the whole array record, terminator included, into its 4 size bytes, appends the 7-byte terminator, and changes no other byte |
| Unbracketed.OffsetStays | api/src/remote/pd_binary_writer.c:298-458 | for events, arrays and entries alike and any calls up to the end call: the offset to be patched stays at the size bytes of the open record if no further begin call of its level is made, and otherwise has moved behind the position the record was opened at |
| Unbracketed.EndHitsOwnSize | api/src/remote/pd_binary_writer.c:298-458 | for any calls in between, in any order: the end call of an open event, array or entry patches that record's own size bytes, with its length, if and only if no begin call of that level was made since it was opened; otherwise those bytes keep what they held |
| Unbracketed.EndHitsLastBegin | api/src/remote/pd_binary_writer.c:298-458 | otherwise the patch goes just behind the write position that the last such begin call found, over whatever has been written there since |
| Unbracketed.RejectedBegin | api/src/remote/pd_binary_writer.c:298-344 | in a well-bracketed stream: a begin-event inside an open event fails leaving bytes and position alone; whatever is called next, the end of the event then patches there and the event's own size bytes stay as they are |
| WireFormat.RejectedExactly | api/src/remote/pd_binary_writer.c:298-458 | for every call in every state: it reports failure, 1, if and only if its flag forbids it; a rejected call leaves bytes, position and flags, but a begin has moved its offset and a begin-event used up an id; otherwise it reports success or its id |
| WireFormat.CountsFields | api/src/remote/pd_binary_writer.c:47-57 | a field is counted if and only if an entry is open, and an entry starts counting at 0 |
| WireFormat.BytesOnTheWire | api/src/remote/pd_binary_writer.c:32-105 | concrete 8- and 16-bit fields, byte for byte |
| WireFormat.WordsOnTheWire | api/src/remote/pd_binary_writer.c:109-143 | concrete 32-bit fields, byte for byte |
| WireFormat.LongsOnTheWire | api/src/remote/pd_binary_writer.c:147-189 | a concrete 64-bit field, byte for byte |
| WireFormat.TextOnTheWire | api/src/remote/pd_binary_writer.c:250-294 | a concrete string and data field, byte for byte |
| WireFormat.EntryOnTheWire | api/src/remote/pd_binary_writer.c:363-407 | a concrete entry and the empty one, byte for byte |
| WireFormat.ArrayOnTheWire | api/src/remote/pd_binary_writer.c:411-458 | a concrete array with its terminator, byte for byte |
| WireFormat.EventOnTheWire | api/src/remote/pd_binary_writer.c:298-344 | a concrete event, byte for byte |
| WireFormat.SizeFieldExact | api/src/remote/pd_binary_writer.c:32-43 | the 16-bit size of a number or string is its length modulo 65536, so it is the length if and only if that is below 65536 |
| WireFormat.DataSizeExact | api/src/remote/pd_binary_writer.c:270-294 | the size of a data record leaves out the high bits of the length of its id, so it is exact if and only if that is below 65536 |
| Requests.FailureLooksLikeFirstId | api/src/remote/pd_binary_writer.c:298-321 | a begin-event returns 1 if and only if it fails or hands out the id 1, the first of all; it returns 0, which api/include/pd_readwrite.h promises for failure, only on success |
| Requests.RequestIds | api/src/remote/pd_binary_writer.c:298-321 | the i-th event of a run carries the i-th id after the writer's counter in its own `_request_id` field, and a reset goes on counting from the last |
| Requests.ReadRequestId | api/src/remote/pd_binary_reader.c:242-254 | finding `_request_id` as U64 in the k-th event read yields the id its begin call returned if and only if bit 31 is clear or the upper 32 bits are all ones |
| Requests.SmallIdsSurvive | api/src/remote/pd_binary_reader.c:82-86 | every id below 2^31 reads back unchanged |
| Requests.LargeIdsCollide | api/src/remote/pd_binary_reader.c:82-86 | two concrete ids beyond 2^31 read back equal |
| WriterObject.Writer.WriteIdSize | api/src/remote/pd_binary_writer.c:32-43 | writes type, 16-bit total size and NUL-terminated id at the write position, truncating the size to 16 bits |
| WriterObject.Writer.Write8 | api/src/remote/pd_binary_writer.c:47-71 | appends an 8-bit field as the specification does and changes nothing else |
| WriterObject.Writer.Write16 | api/src/remote/pd_binary_writer.c:75-105 | the same for 16 bits |
| WriterObject.Writer.Write32 | api/src/remote/pd_binary_writer.c:109-143 | the same for 32 bits and floats, most significant byte first |
| WriterObject.Writer.Write64 | api/src/remote/pd_binary_writer.c:147-189 | the same for 64 bits and doubles |
| WriterObject.Writer.WriteString | api/src/remote/pd_binary_writer.c:250-266 | appends a string field with its terminator |
| WriterObject.Writer.WriteData | api/src/remote/pd_binary_writer.c:270-294 | appends a data field with its 32-bit size |
| WriterObject.Writer.WriteEventBegin | api/src/remote/pd_binary_writer.c:298-321 | the new state, bytes and flags, is that of the specification, also for a rejected call |
| WriterObject.Writer.WriteEventEnd | api/src/remote/pd_binary_writer.c:325-344 | the same for the end of an event |
| WriterObject.Writer.WriteArrayEntryBegin | api/src/remote/pd_binary_writer.c:363-381 | the same, rejected calls included |
| WriterObject.Writer.WriteArrayEntryEnd | api/src/remote/pd_binary_writer.c:385-407 | the same |
| WriterObject.Writer.WriteArrayBegin | api/src/remote/pd_binary_writer.c:411-430 | the same, rejected calls included |
| WriterObject.Writer.WriteArrayEnd | api/src/remote/pd_binary_writer.c:434-458 | the same |
| WriterObject.Writer.Finish | api/src/remote/pd_binary_writer.c:526-535 | writes the total size into the header |
| WriterObject.Writer.Clear | api/src/remote/pd_binary_writer.c:546-554 | moves back to the first byte after the header, keeping the request counter |
| WriterObject.WriteAll | api/src/remote/pd_binary_writer.c:47-458 | running calls one after the other in place is the run of the specification |
| RoundTrip.SearchFrom | api/src/remote/pd_binary_reader.c:185-218 | from the start of any record the search returns the start of the first record with that id, or nothing if and only if there is none; it stays on record starts and skips arrays whole |
| RoundTrip.FindIdFirst | api/src/remote/pd_binary_reader.c:222-238 | the scoped search is first-match lookup in the items of that scope, for event scope and entry scope alike |
| RoundTrip.FindsValueAlways | api/src/remote/pd_binary_reader.c:242-282 | a typed find returns status and value dictated by the first item with that id: exact type, conversion, wrong type or not found |
| RoundTrip.StatusNamesType | api/src/remote/pd_binary_reader.c:242-282 | the status of a find on a number names the type that was written if and only if it is asked for as that type or is no double; a double found as something else is called a float |
| Malformed.NumberStatus | api/src/remote/pd_binary_reader.c:242-282 | the status of a typed find in numbers: found as asked for, converted, another type with its code, or not found |
| Malformed.OtherStatus | api/src/remote/pd_binary_reader.c:346-422 | the same for strings, data and arrays |
| Malformed.NothingToRead | api/src/remote/pd_binary_reader.c:113-140 | without a stream, past the end or before anything that is no event, get_event returns 0 and changes nothing |
| Malformed.EmptyStreams | api/src/remote/pd_binary_reader.c:529-536 | so it does on an empty stream and on none |
| Malformed.NoEntry | api/src/remote/pd_binary_reader.c:426-435 | next_entry returns -1 and keeps the iterator if and only if it does not stand before an entry |
| RoundTrip.FindsStringAlways | api/src/remote/pd_binary_reader.c:346-365 | finding a string yields exactly the written string, or the status for a wrong type or a missing id |
| RoundTrip.FindsDataAlways | api/src/remote/pd_binary_reader.c:369-392 | finding data yields exactly the written bytes and length |
| RoundTrip.FindsArrayAlways | api/src/remote/pd_binary_reader.c:396-422 | finding an array yields an iterator that stands before its first entry |
| RoundTrip.FindStaysInside | api/src/remote/pd_binary_reader.c:185-282 | every typed find on a written scope reads inside the stream only |
| RoundTrip.Packed | api/src/remote/pd_binary_reader.c:106-109 | packing offset and size in 64 bits loses nothing for offsets and sizes below 2^32 and never gives 0, the value that means event scope |
| RoundTrip.NextEntryStep | api/src/remote/pd_binary_reader.c:426-455 | a step yields the next entry's field count and makes that entry the scope; after the last it yields 0 |
| RoundTrip.NextEntryInside | api/src/remote/pd_binary_reader.c:426-455 | no step of an array iterator reads outside the stream |
| Codec.ReadBackExact | api/src/remote/pd_binary_reader.c:34-282 | for every pair of written and requested integer type and every value: the find returns the written value if and only if it lies in an explicit domain (same width and signedness: everything, but 64-bit values with bit 31 set only if the upper word is all ones; conversions: the values the getters and the target keep) |
| Codec.ReadBackWraps | api/src/remote/pd_binary_reader.c:34-282 | outside that domain too: the find returns the value of the target type that agrees, modulo its size, with what the getter sees: 64-bit values extended from bit 31, signed shorts without their sign and unsigned words with one when converted, all others as written |
| Codec.FloatsExact | api/src/remote/pd_binary_reader.c:82-102 | float bit patterns always survive, double bit patterns if and only if the low word has bit 31 clear or the high word is all ones |
| Codec.TenthIsLost | api/src/remote/pd_binary_reader.c:82-94 | the double 0.1 is a concrete loss |
| ReaderObject.Reader.GetEvent | api/src/remote/pd_binary_reader.c:113-158 | result and new position are those of the specification |
| ReaderObject.Reader.FindIdByRange | api/src/remote/pd_binary_reader.c:185-218 | the loop terminates with the record the specification finds |
| ReaderObject.Reader.FindId | api/src/remote/pd_binary_reader.c:222-238 | the same, choosing the scope by the iterator |
| ReaderObject.Reader.FindValue | api/src/remote/pd_binary_reader.c:242-282 | status and value as specified, both payload offsets included |
| ReaderObject.Reader.FindString | api/src/remote/pd_binary_reader.c:346-365 | as specified |
| ReaderObject.Reader.FindData | api/src/remote/pd_binary_reader.c:369-392 | as specified |
| ReaderObject.Reader.FindArray | api/src/remote/pd_binary_reader.c:396-422 | as specified |
| ReaderObject.Reader.NextEntry | api/src/remote/pd_binary_reader.c:426-455 | the iterator rewritten as specified |
| ReaderObject.Reader.InitStream | api/src/remote/pd_binary_reader.c:529-536 | sets all four pointers |
| ReaderObject.Reader.Reset | api/src/remote/pd_binary_reader.c:540-544 | goes back to the first event and keeps the stream |
| Events.EventStep | api/src/remote/pd_binary_reader.c:113-158 | one call returns the next written event with exactly its items in scope, and 0 once all have been returned, although the end pointer may be 4 bytes short |
| Events.Enumerates | api/src/remote/pd_binary_reader.c:113-158 | the k-th call returns the k-th event, for every k, and 0 ever after |
| Events.CollectAll | api/src/remote/pd_binary_reader.c:113-158 | a loop over get_event sees exactly the events before the first with id 0 |
| Events.WholeStream | api/src/remote/pd_binary_reader.c:529-536 | after any complete well-bracketed run, a reader on the finalised buffer, with the size the session passes or the one in the header, stands before exactly the written events |
| Events.EveryFind | api/src/remote/pd_binary_reader.c:113-422 | after any complete run, for every event, id and type: reading on to that event and finding in it is answered from its written items (value, string and data), and an array found stands before its written entries |
| Events.EveryNestedFind | api/src/remote/pd_binary_reader.c:113-455 | after any complete run, for every event, array, entry, id and type: reading on to the event, finding the array and stepping on to the entry gives its field count, every find there is answered from that written entry alone, and the step after the last entry gives 0 |
| Serialise.EventsWritten | api/src/remote/pd_binary_writer.c:298-458 | the calls for a list of events, made on an idle writer, leave exactly those events behind what was there, under consecutive request ids |
| Serialise.EveryStreamIsWritten | api/src/remote/pd_binary_writer.c:298-458 | every list of events that can be stored and fits is what some complete run writes |
| Events.EveryEntry | api/src/remote/pd_binary_reader.c:396-455 | k steps over an array stand in its k-th entry, where every find is answered from that entry alone; the step after the last gives 0 |
| Events.EntryLoopAll | api/src/remote/pd_binary_reader.c:426-455 | the usual loop over entries visits them in order up to the first whose field count is 0 modulo 65536 |
| Unambiguous.ScopeDeterminesItems | api/src/remote/pd_binary_writer.c:32-458 | two lists of items with the same bytes are the same list: the encoding is injective |
| Unambiguous.ViewsDetermineEvents | api/src/remote/pd_binary_reader.c:113-158 | so the ids and scopes a reader passes determine the written events completely |
| Session.RequestKeeps | src/prodbg/Backend/BackendSession.cpp:420-449 | writing further requests leaves the session in the state of the invariant |
| Session.UpdateKeeps | src/prodbg/Backend/BackendSession.cpp:577-618 | an update keeps the invariant and hands over what was pending as one batch |
| Session.PluginSeesPending | src/prodbg/Backend/BackendSession.cpp:582-591 | the plugin is shown exactly the requests written since the last update, up to the first with id 0 |
| Session.ExactlyOnce | src/prodbg/Backend/BackendSession.cpp:577-618 | over every run of request writes and updates: everything written is the batches handed over and what is pending, in order, each event with its own request id; the plugin has been shown each batch once, up to its first id 0; and nothing is lost if and only if no event has the id 0 |
| Session.UiSeesReplies | src/prodbg/Backend/BackendSession.cpp:593-597 | afterwards the user interface reads exactly that update's replies, up to the first with id 0 |
| Session.RewindRepeats | api/src/remote/pd_binary_reader.c:540-544 | a reset after any number of reads makes the enumeration start over |
| SessionObject.BackendSession.InternalUpdate | src/prodbg/Backend/BackendSession.cpp:577-618 | the three objects in place end in the specified state, the plugin has drained exactly the pending requests, and a change to a state other than running reports the location found in the replies |
| SessionObject.BackendSession.Ask | src/prodbg/Backend/BackendSession.cpp:582-591 | finalise, re-point the reader, reset the other writer, run the plugin |
| SessionObject.BackendSession.Listen | src/prodbg/Backend/BackendSession.cpp:593-598 | finalise the replies, re-point the reader, drop the requests |
| SessionObject.BackendSession.UpdateCurrentPc | src/prodbg/Backend/BackendSession.cpp:507-573 | finds the first wanted message in the replies and leaves the reader rewound; an event without a data field is judged by the message before it, as in the source |
| SessionObject.LocatesFirst | src/prodbg/Backend/BackendSession.cpp:508-528 | whichever replies have a data field: what is found is the first wanted message that was written, if and only if the first reply has a data field, or the uninitialised pointer shows nothing wanted, or it shows just that message; in every other case what the pointer shows is reported |
| SessionObject.FirstIsFirst | src/prodbg/Backend/BackendSession.cpp:515-528 | what ought to be found is the message of the first event seen with a wanted one, and nothing if and only if there is none |
| SessionObject.PlainEventMisleads | src/prodbg/Backend/BackendSession.cpp:508-519 | a concrete reply without a data field for which the uninitialised pointer is reported |
| Session.TimerOverRuns | src/prodbg/Backend/BackendSession.cpp:601-615 | over every run of requests and updates: the session state is the last one reported; the timer polls exactly while that is running if and only if it did so before or another state was reported, and is unchanged if none was; without a plugin neither changes; no update creates a timer |
| Session.TimerFollows | src/prodbg/Backend/BackendSession.cpp:602-615 | the same for the timer alone, over any list of states |
| Session.LaunchPolls | src/prodbg/Backend/BackendSession.cpp:629-642 | a start does nothing while the target runs; otherwise it is one update after which the timer polls whatever was reported, exactly while the target runs if and only if it got running |
| SessionObject.BackendSession.Launch | src/prodbg/Backend/BackendSession.cpp:629-642 | nothing when already running; otherwise one update and a polling timer |
| SessionObject.BackendSession.Drain | src/prodbg/Backend/BackendSession.cpp:514-528 | the usual loop over get_event passes exactly the events that can be enumerated, in order |
| Transfer.SendFromSends | api/src/remote/remote_connection.c:317-340 | for any outcome of the sends: the result counts the chunks sent in full, what went out is that prefix of the buffer plus less than one block, and the connection stays up if and only if everything went out |
| Transfer.Blocks | api/src/remote/remote_connection.c:317-340 | streams go out in blocks of 1024 bytes and a rest |
| Transfer.RecvFromFull | api/src/remote/remote_connection.c:344-387 | full-length reads fill the output with exactly the next bytes of the wire |
| Transfer.TakesExactlyTheBody | api/src/remote/remote_connection.c:344-387 | a receive that completes takes the whole body off the wire if and only if every read was full |
| Transfer.RecvCases | api/src/remote/remote_connection.c:282-297 | one read delivers what the outcome allows of what is on the wire, and loses the connection if and only if that is nothing |
| Transfer.CompletesExactly | api/src/remote/remote_connection.c:344-387 | with enough on the wire a receive completes if and only if every read delivers something, and otherwise the connection is lost |
| Transfer.NotConnected | api/src/remote/remote_connection.c:282-387 | without a connection nothing is sent and nothing received |
| Transfer.ShortReadLosesBytes | api/src/remote/remote_connection.c:368-383 | a concrete body that arrives in two pieces and is left incomplete |
| Transfer.SizeHeader | api/src/remote/remote_api.c:94-108 | a header below 2^30 is never taken for an action and decodes to its size |
| Transfer.TransferWhole | api/src/remote/remote_connection.c:317-387 | a finalised buffer of 4 to 2^30 - 1 bytes arrives byte for byte, header included |
| Remote.EndToEnd | api/src/remote/remote_api.c:80-139 | the events of any complete run, sent and received, are the events the remote plugin's reader stands before |
| Remote.RepliesIffEvents | api/src/remote/remote_api.c:125-132 | the size test sends a reply if and only if the plugin wrote an event |
| Remote.RepliesExactly | api/src/remote/remote_api.c:122-132 | the stream goes out if there is a peer and an event was written, and otherwise nothing does |
| Remote.ReceivesExactly | api/src/remote/remote_api.c:94-112 | the top bit of the header makes it an action with a 16-bit code and no stream; otherwise the stream that follows is received, or none when it is lost; nothing arriving is neither |
| RemoteObject.Connection.Send | api/src/remote/remote_connection.c:301-313 | as specified: anything but a full send ends the connection |
| RemoteObject.Connection.SendStream | api/src/remote/remote_connection.c:317-340 | the loop is the specification |
| RemoteObject.Connection.Recv | api/src/remote/remote_connection.c:282-297 | as specified |
| RemoteObject.Connection.RecvStream | api/src/remote/remote_connection.c:344-387 | the loop is the specification, with its advance by whole blocks |
| RemoteObject.RemoteBackend.Receive | api/src/remote/remote_api.c:94-112 | header decode, of a header that came in full or in part: an action code, or a stream received behind it |
| RemoteObject.RemoteBackend.Update | api/src/remote/remote_api.c:80-139 | receive, let the plugin write, finalise, send if there is something |
| Arithmetic.AddExact | examples/fake_6502/fake6502.c:325-352 | for all accumulators, operands and carries: result plus 256 times carry is the sum; N, Z describe it; V is set if and only if the signed sum overflows; nothing else changes |
| Arithmetic.SubtractExact | examples/fake_6502/fake6502.c:698-726 | the same for the difference with carry as not-borrow |
| Arithmetic.ChainAdds | examples/fake_6502/fake6502.c:325-352 | adding n digits in turn is n-byte addition with a final carry, for every n |
| Arithmetic.ChainSubtracts | examples/fake_6502/fake6502.c:698-726 | n-byte subtraction with a final borrow, for every n |
| Multibyte.ProgramComputes | examples/fake_6502/fake6502.c:971-992 | executing the program lda x, adc y, sta r for n digits from memory, in place or not, leaves the exact sum of the two n-byte numbers with the final carry, or with sbc the difference with the final borrow; pc is behind the program and no other byte has changed |
| Shifts.LeftExact | examples/fake_6502/fake6502.c:365-374 | asl and rol double the operand, carry in and out counted; flags and frame |
| Shifts.RightExact | examples/fake_6502/fake6502.c:609-619 | lsr and ror halve it, the carry being the remainder; flags and frame |
| Shifts.RotateBack | examples/fake_6502/fake6502.c:664-685 | ror undoes rol and rol undoes ror up to the zero and sign flags |
| Stack.RunIsLifo | examples/fake_6502/fake6502.c:192-211 | from any stack pointer, every run of pushes and pulls within 256 bytes returns what a list would, across the wrap in page 1, and touches nothing but those bytes |
| Stack.Balanced | examples/fake_6502/fake6502.c:192-211 | a balanced run restores the stack pointer and keeps all live bytes |
| Stack.CallReturns | examples/fake_6502/fake6502.c:577-696 | rts after jsr resumes behind the call whatever happened in between, provided the two pushed bytes and the stack pointer are as they were |
| Subroutines.CallOfBalancedBody | examples/fake_6502/fake6502.c:577-580 | jsr and rts around any body of stack operations within the remaining bytes and of arbitrary changes of state that keep the stack pointer and the two saved bytes |
| Subroutines.CallResumes | examples/fake_6502/fake6502.c:577-580 | executing the opcode jsr, then any balanced run of instructions and interrupts, nested calls included, that does not otherwise write the two saved bytes, then the opcode rts: execution goes on at the instruction after the call with the old stack pointer |
| Stack.InterruptReturns | examples/fake_6502/fake6502.c:687-691 | rti restores pc, status and stack pointer of an interrupt under the same condition |
| Subroutines.IrqResumes | examples/fake_6502/fake6502.c:913-925 | irq or nmi and rti around any body of that kind restore pc, status and stack pointer |
| Subroutines.InterruptResumes | examples/fake_6502/fake6502.c:913-925 | the same for executed handlers: from irq or nmi through any balanced run to the opcode rti |
| Subroutines.BrkResumes | examples/fake_6502/fake6502.c:438-444 | from the opcode brk through any balanced run to the opcode rti: execution goes on two bytes behind with BREAK and CONSTANT set |
| Subroutines.FlagsRestored | examples/fake_6502/fake6502.c:649-662 | from the opcode php through any balanced run to the opcode plp: every flag is restored, but BREAK and CONSTANT are set |
| Subroutines.AccumulatorRestored | examples/fake_6502/fake6502.c:645-658 | from the opcode pha through any balanced run to the opcode pla: the accumulator is restored and zero and sign describe it |
| Operations.LogicExact | examples/fake_6502/fake6502.c:354-363 | and, ora and eor: every bit of the result is the and, or, exclusive or of the operands' bits; zero and sign describe it and nothing else changes |
| Operations.CompareOrders | examples/fake_6502/fake6502.c:480-512 | cmp, cpx and cpy: carry is unsigned greater-or-equal, zero is equality, sign is bit 7 of the difference, and nothing else changes |
| Operations.BitTests | examples/fake_6502/fake6502.c:403-409 | bit: zero says that accumulator and operand share no bit, sign and overflow are bits 7 and 6 of the operand, and nothing else changes |
| Operations.CountExact | examples/fake_6502/fake6502.c:514-557 | inc and dec count modulo 256 with the flags of the result, keep carry and overflow, and undo each other |
| Operations.NopOnlyAdvances | examples/fake_6502/fake6502.c:621-632 | an opcode without an operation moves pc behind its operand and changes no register, flag but CONSTANT, or byte |
| Addressing.AddressingExact | examples/fake_6502/fake6502.c:228-311 | for every opcode: the effective address is the one its addressing mode names, from the bytes of the instruction, the index registers and pointers in memory, with the wraps in page zero and within a page; the penalty is set exactly when indexing carries into the high byte; pc is behind the operand and nothing else changes |
| InstructionSet.LoadsExact | examples/fake_6502/fake6502.c:582-607 | executing lda, ldx, ldy or lax: the register named takes the operand at that address, zero and sign describe it, nothing else changes |
| InstructionSet.StoresExact | examples/fake_6502/fake6502.c:740-750 | executing sta, stx, sty or sax: that address takes the register, for sax the bits common to a and x, and nothing else changes |
| InstructionSet.ComparesExact | examples/fake_6502/fake6502.c:480-512 | executing cmp, cpx or cpy: unsigned order, equality and bit 7 of the difference as flags, nothing else changes |
| InstructionSet.SumsExact | examples/fake_6502/fake6502.c:325-352 | executing adc or sbc: exact sum or difference with carry, signed overflow, nothing else changes |
| InstructionSet.LogicExact | examples/fake_6502/fake6502.c:354-363 | executing and, ora or eor: every bit of the accumulator, its flags, nothing else changes |
| InstructionSet.BitExact | examples/fake_6502/fake6502.c:403-409 | executing bit: its three flags, nothing else changes |
| InstructionSet.RewritesExact | examples/fake_6502/fake6502.c:365-685 | executing inc, dec, asl, lsr, rol or ror: the value put back in accumulator or memory, the bit shifted out, nothing else changes |
| InstructionSet.TransfersExact | examples/fake_6502/fake6502.c:524-789 | executing tax, tay, tsx, txa, txs, tya, inx, iny, dex or dey: the register named, zero and sign except for txs, nothing else changes |
| InstructionSet.FlagsExact | examples/fake_6502/fake6502.c:464-738 | executing a flag operation: that flag and no other |
| InstructionSet.BranchesExact | examples/fake_6502/fake6502.c:376-462 | executing a branch: the flag and value it tests, the signed displacement, nothing else changes |
| InstructionSet.StackExact | examples/fake_6502/fake6502.c:645-662 | executing pha, php, pla or plp: the byte in page 1, the stack pointer, register and flags |
| InstructionSet.JumpsExact | examples/fake_6502/fake6502.c:573-696 | executing jmp, jsr, rts or rti: pc, the bytes pushed or pulled in page 1, the stack pointer, the flags rti restores |
| InstructionSet.InterruptsExact | examples/fake_6502/fake6502.c:913-925 | irq, nmi and an executed brk: the three bytes pushed, the vector taken and the interrupt flag set; brk pushes BREAK and the address two bytes behind it |
| InstructionSet.SloExact | examples/fake_6502/fake6502.c:817-821 | executing slo: shifted left in memory, then ora |
| InstructionSet.RlaExact | examples/fake_6502/fake6502.c:823-827 | executing rla: rotated left in memory, then and |
| InstructionSet.SreExact | examples/fake_6502/fake6502.c:829-833 | executing sre: shifted right in memory, then eor |
| InstructionSet.RotateAddExact | examples/fake_6502/fake6502.c:835-839 | executing rra: rotated right in memory, then added with the bit that came out |
| InstructionSet.CountSubtractExact | examples/fake_6502/fake6502.c:811-815 | executing isb: counted up in memory, then subtracted |
| InstructionSet.CountCompareExact | examples/fake_6502/fake6502.c:805-809 | executing dcp: counted down in memory, then compared |
| HiddenState.StepAlike | examples/fake_6502/fake6502.c:971-992 | for all 256 opcodes: machines that agree in registers, flags and memory agree in them after an instruction; no stale address, opcode or penalty latch reaches the next one |
| HiddenState.ResetForgets | examples/fake_6502/fake6502.c:213-220 | whatever the machine was doing, the whole run after a reset is determined by memory and flags; it starts at 0 with the stack pointer 0xfd and the other registers 0 |
| HiddenState.ResetIgnoresVector | examples/fake_6502/fake6502.c:213-214 | it starts at the address in the reset vector if and only if that is 0 |
| Cycles.ChargeRange | examples/fake_6502/fake6502.c:852-950 | every instruction charges 2 to 8 cycles; an undocumented combined opcode charges exactly its table value, page crossed or not |
| Timing.ChargeExact | examples/fake_6502/fake6502.c:892-950 | the exact cycles of every instruction: by operation and addressing mode, one more when an operation that only reads crosses a page, one more for a taken branch and another when that leaves the page |
| Timing.PenaltyExact | examples/fake_6502/fake6502.c:621-632 | which opcodes ask for the page penalty |
| Cycles.MissesGoal | examples/fake_6502/fake6502.c:933-946 | the counter wraps before the goal is reached if and only if an instruction carries it past 2^32, which takes a goal in the last 7 counts |
| ExecEnds.StopsAtFirst | examples/fake_6502/fake6502.c:930-950 | for any other goal the loop ends with the first instruction that reaches it |
| ExecEnds.EndsExactly | examples/fake_6502/fake6502.c:930-950 | every machine with a given goal gets there if and only if the goal is not in the last 7 counts; for those a machine is given that runs for ever |
| Cycles.RunToGoal | examples/fake_6502/fake6502.c:930-950 | the loop of exec6502 ends, at or at most 7 cycles past its goal |
| Cycles.NeverFarPast | examples/fake_6502/fake6502.c:930-992 | after any sequence of exec6502 and step6502 calls from zero counters, goal <= ticks <= goal + 7 |
| Disassembler.AgreeExactly | examples/fake_6502/dis6502.c:67-345 | for each opcode: the two decoders agree on its size if and only if the disassembler knows it or the emulator takes no operand for it |
| Decoding.TablesFollowBits | examples/fake_6502/fake6502.c:852-910 | all four tables, for each of the 256 opcodes: operation, addressing mode, cycles and the disassembler's entry follow from the fields aaabbbcc of the opcode byte |
| Decoding.DecodersAgree | examples/fake_6502/dis6502.c:67-345 | whatever the disassembler knows it shows in the addressing mode the emulator uses; what it does not know is undocumented |
| Disassembler.SizeIsNext | examples/fake_6502/dis6502.c:370-425 | straight-line code continues at the address behind the size the disassembler returns |
| Disassembler.BranchGoesWherePrinted | examples/fake_6502/dis6502.c:397-403 | a branch goes to its printed target modulo 2^16 or to the next instruction |
| Disassembler.JumpGoesWherePrinted | examples/fake_6502/dis6502.c:408-412 | jmp and jsr go to the printed address |
| Disassembler.SweepReaches | examples/fake_6502/dis6502.c:429-435 | the sweep visits an n-th address if and only if n sizes behind its begin is not past its end |
| Disassembler.SweepIndex | examples/fake_6502/dis6502.c:429-435 | and that address is n sizes behind its begin |
| Disassembler.SweepVisitsVectors | examples/fake_6502/dis6502.c:417-420 | from 0xfffa on it visits every address |
| Disassembler.SweepIsRun | examples/fake_6502/dis6502.c:429-435 | n steps of straight-line code that does not overwrite the opcodes ahead of it visit exactly the addresses of the sweep |
| Disassembler.Disassemble | examples/fake_6502/dis6502.c:429-435 | the loop visits, for every n, the address n sizes behind the begin, if and only if that is not past the end |
| CpuObject.Cpu6502.Push16 | examples/fake_6502/fake6502.c:192-196 | memory and registers in place become the specified state |
| CpuObject.Cpu6502.Push8 | examples/fake_6502/fake6502.c:198-200 | the same |
| CpuObject.Cpu6502.Pull16 | examples/fake_6502/fake6502.c:202-207 | the same, with the value pulled |
| CpuObject.Cpu6502.Pull8 | examples/fake_6502/fake6502.c:209-211 | the same, with the value pulled |
| CpuObject.Cpu6502.Reset | examples/fake_6502/fake6502.c:213-220 | the specified state, from which HiddenState.ResetForgets determines the run |
| CpuObject.Cpu6502.Absx | examples/fake_6502/fake6502.c:260-271 | effective address and penalty as specified, where Addressing.AddressingExact says |
| CpuObject.Cpu6502.Indy | examples/fake_6502/fake6502.c:300-311 | effective address and penalty as specified, where Addressing.AddressingExact says |
| CpuObject.Cpu6502.Address | examples/fake_6502/fake6502.c:852-870 | the table dispatch computes the specified address for each of the 256 opcodes, where Addressing.AddressingExact says |
| CpuObject.Cpu6502.PutValue | examples/fake_6502/fake6502.c:318-321 | accumulator or memory, truncated to a byte |
| CpuObject.Cpu6502.Adc | examples/fake_6502/fake6502.c:325-352 | the whole new state is that of the specified operation, exact by Arithmetic.AddExact |
| CpuObject.Cpu6502.Sbc | examples/fake_6502/fake6502.c:698-726 | the whole new state is that of the specified operation, exact by Arithmetic.SubtractExact |
| CpuObject.Cpu6502.And | examples/fake_6502/fake6502.c:354-363 | the whole new state is that of the specified operation, whose bits and flags Operations.LogicExact gives |
| CpuObject.Cpu6502.Asl | examples/fake_6502/fake6502.c:365-374 | the whole new state is that of the specified operation, exact by Shifts.LeftExact |
| CpuObject.Cpu6502.Bit | examples/fake_6502/fake6502.c:403-409 | the whole new state is that of the specified operation, whose flags Operations.BitTests gives |
| CpuObject.Cpu6502.Branch | examples/fake_6502/fake6502.c:376-383 | the whole new state is that of the specified operation, whose target Disassembler.BranchGoesWherePrinted gives |
| CpuObject.Cpu6502.Brk | examples/fake_6502/fake6502.c:438-444 | the whole new state is that of the specified operation, undone by rti by Subroutines.BrkResumes |
| CpuObject.Cpu6502.Compare | examples/fake_6502/fake6502.c:480-512 | the whole new state is that of the specified operation, whose flags Operations.CompareOrders gives |
| CpuObject.Cpu6502.Dec | examples/fake_6502/fake6502.c:514-522 | the whole new state is that of the specified operation, whose value Operations.CountExact gives |
| CpuObject.Cpu6502.Eor | examples/fake_6502/fake6502.c:538-547 | the whole new state is that of the specified operation, whose bits and flags Operations.LogicExact gives |
| CpuObject.Cpu6502.Inc | examples/fake_6502/fake6502.c:549-557 | the whole new state is that of the specified operation, whose value Operations.CountExact gives |
| CpuObject.Cpu6502.Jsr | examples/fake_6502/fake6502.c:577-580 | the whole new state is that of the specified operation, undone by rts by Subroutines.CallResumes |
| CpuObject.Cpu6502.Lsr | examples/fake_6502/fake6502.c:609-619 | the whole new state is that of the specified operation, exact by Shifts.RightExact |
| CpuObject.Cpu6502.Nop | examples/fake_6502/fake6502.c:621-632 | the whole new state is that of the specified operation, of no effect by Operations.NopOnlyAdvances |
| CpuObject.Cpu6502.Ora | examples/fake_6502/fake6502.c:634-643 | the whole new state is that of the specified operation, whose bits and flags Operations.LogicExact gives |
| CpuObject.Cpu6502.Php | examples/fake_6502/fake6502.c:649-651 | the whole new state is that of the specified operation, undone by plp by Subroutines.FlagsRestored |
| CpuObject.Cpu6502.Pla | examples/fake_6502/fake6502.c:653-658 | the whole new state is that of the specified operation, undoing pha by Subroutines.AccumulatorRestored |
| CpuObject.Cpu6502.Plp | examples/fake_6502/fake6502.c:660-662 | the whole new state is that of the specified operation, undoing php by Subroutines.FlagsRestored |
| CpuObject.Cpu6502.Rol | examples/fake_6502/fake6502.c:664-673 | the whole new state is that of the specified operation, undone by ror by Shifts.RotateBack |
| CpuObject.Cpu6502.Ror | examples/fake_6502/fake6502.c:675-685 | the whole new state is that of the specified operation, undone by rol by Shifts.RotateBack |
| CpuObject.Cpu6502.Rti | examples/fake_6502/fake6502.c:687-691 | the whole new state is that of the specified operation, undoing an interrupt by Subroutines.InterruptResumes |
| CpuObject.Cpu6502.Rts | examples/fake_6502/fake6502.c:693-696 | the whole new state is that of the specified operation, undoing jsr by Subroutines.CallResumes |
| CpuObject.Cpu6502.Sax | examples/fake_6502/fake6502.c:798-803 | the whole new state is that of the specified combination, its cycle refund included |
| CpuObject.Cpu6502.Dcp | examples/fake_6502/fake6502.c:805-809 | the whole new state is that of the specified combination, its cycle refund included |
| CpuObject.Cpu6502.Isb | examples/fake_6502/fake6502.c:811-815 | the whole new state is that of the specified combination, its cycle refund included |
| CpuObject.Cpu6502.Slo | examples/fake_6502/fake6502.c:817-821 | the whole new state is that of the specified combination, its cycle refund included |
| CpuObject.Cpu6502.Rla | examples/fake_6502/fake6502.c:823-827 | the whole new state is that of the specified combination, its cycle refund included |
| CpuObject.Cpu6502.Sre | examples/fake_6502/fake6502.c:829-833 | the whole new state is that of the specified combination, its cycle refund included |
| CpuObject.Cpu6502.Rra | examples/fake_6502/fake6502.c:835-839 | the whole new state is that of the specified combination, its cycle refund included |
| CpuObject.Cpu6502.Execute | examples/fake_6502/fake6502.c:872-890 | the table dispatch runs the specified operation for each of the 256 opcodes, with the effects InstructionSet states |
| CpuObject.Cpu6502.Irq | examples/fake_6502/fake6502.c:920-925 | the specified state, undone by rti by Subroutines.InterruptResumes |
| CpuObject.Cpu6502.Nmi | examples/fake_6502/fake6502.c:913-918 | the specified state, undone by rti by Subroutines.InterruptResumes |
| CpuObject.Cpu6502.Step | examples/fake_6502/fake6502.c:971-992 | one instruction in place is one step of the specification, whose effects InstructionSet states |
| CpuObject.Cpu6502.Exec | examples/fake_6502/fake6502.c:930-950 | the loop in place is the specified run to the goal |
| Stepper.OneInstructionPerStep | examples/fake_6502/fake6502.c:1000-1023 | while waiting, executed instructions equal step actions consumed, for any order of actions; waiting ends exactly at the first run action |
| Stepper.SteppedThenRuns | examples/fake_6502/fake6502.c:996-1033 | entered stopped, the call returns if and only if a run action arrives, after one instruction for each step before it and one more |
| Stepper.BreakStopsAfterOne | examples/fake_6502/fake6502.c:1024-1032 | a break polled while running lets one more instruction through and then only steps execute |
| Stepper.OnlyBreakStops | examples/fake_6502/fake6502.c:996-1033 | a target that is not stopped, the trace state included, executes one instruction a call and does not stop before a break, whatever else arrives |
| Stepper.BreakStops | examples/fake_6502/fake6502.c:996-1033 | with no break among the first k actions, the next one stops it if and only if it is a break |
| Stepper.PollsSometimes | examples/fake_6502/fake6502.c:954-967 | an unconnected target looks for an action at every 128th instruction, then as a connected one, and at the others leaves the actions alone |
| Stepper.ActionsMean | examples/fake_6502/fake6502_plugin.c:123-156 | break stops, run runs, step steps, by their numbers, and no other action changes the state |
| Stepper.StepHonoured | examples/fake_6502/fake6502.c:996-1033 | a step stops the target again, after one instruction, if and only if the target was stopped when it came, over any number of calls and further actions but break and run |
| Stepper.StepWhileRunningRunsOn | examples/fake_6502/fake6502.c:1000-1032 | so a step polled while running leaves the target in the trace state, running on, one instruction a call |
| StepperObject.Debugger.DoAction | examples/fake_6502/fake6502_plugin.c:123-156 | the run state an action leads to and the calls made to the writer |
| StepperObject.Debugger.SendState | examples/fake_6502/fake6502_plugin.c:114-119 | the calls for location, registers and listing, in that order |
| Report.StateWritten | examples/fake_6502/fake6502_plugin.c:37-119 | those calls are a complete run that writes the three events |
| Report.RepliesToStops | examples/fake_6502/fake6502_plugin.c:123-156 | they are made for a break and a step, and no others are made |
| Report.LocationRead | examples/fake_6502/fake6502_plugin.c:74-80 | the debugger reading the reply finds the program counter, and 2 as its size |
| Report.RegistersRead | examples/fake_6502/fake6502_plugin.c:37-70 | stepping through its register array the debugger finds, in this order, pc with 16 bits and sp, a, x, y and status with 8: each under its own name, with the size 2 or 1, the value of that register of the machine, and read_only for pc and status only |
| Report.NamesSpelled | examples/fake_6502/fake6502_plugin.c:37-66 | the names and ids are those words |
| Report.ListingRead | examples/fake_6502/fake6502_plugin.c:84-95 | it finds the text of the listing, its start 0 and its 10 instructions |
| StepperObject.Debugger.Update | api/src/remote/remote_api.c:80-116 | one action is consumed for each update, none meaning no action |
| StepperObject.Debugger.WaitForRun | examples/fake_6502/fake6502.c:1000-1023 | the loop ends with the specified state, count and rest of the actions |
| StepperObject.Debugger.Execute | examples/fake_6502/fake6502.c:996-1033 | the whole call as specified |
| FixedString.WriteAppends | api/rust/prodbg/src/cfixed_string.rs:98-132 | one write leaves the concatenation, inline with a NUL behind it if and only if it is at most 511 bytes; it panics exactly when a string that goes to the heap contains a NUL |
| FixedString.WriteAllConcatenates | api/rust/prodbg/src/cfixed_string.rs:98-132 | any sequence of NUL-free writes leaves all arguments concatenated and the storage follows from the length |
| FixedString.NewConcatenates | api/rust/prodbg/src/cfixed_string.rs:33-132 | the same from a new string, whatever its uninitialised buffer holds |
| FixedString.CFixedString.WriteStr | api/rust/prodbg/src/cfixed_string.rs:98-132 | buffer, length and variant in place as specified |
| FixedString.CFixedString.AsStr | api/rust/prodbg/src/cfixed_string.rs:68-81 | reads back the text of either variant |
| RecentExecutables.SetRefines | src/prodbg/RecentExecutables.cpp:36-52 | setting a file commutes with forgetting all but the first 8 |
| RecentExecutables.PutRefines | src/prodbg/RecentExecutables.cpp:63-73 | putting a file on top commutes with it if and only if the file is not one that has been forgotten |
| RecentExecutables.ForgottenFile | src/prodbg/RecentExecutables.cpp:63-73 | nine files and a put of the oldest: the lists part |
| RecentExecutables.RunRefines | src/prodbg/RecentExecutables.cpp:36-73 | all through any run the list is the first 8 of the unbounded move-to-front list if and only if no put names a forgotten file |
| RecentExecutables.ListsByRecency | src/prodbg/RecentExecutables.cpp:36-73 | the unbounded list holds, after any requests, every name ever set, the one used last first, each with the type it was last set with |
| RecentExecutables.AgreeAtEnd | src/prodbg/RecentExecutables.cpp:36-73 | so such a run ends in those 8 |
| RecentExecutables.RunKeepsBound | src/prodbg/RecentExecutables.cpp:36-73 | every run keeps at most 8 entries with distinct names |
| RecentExecutables.RecentFiles.FindFile | src/prodbg/RecentExecutables.cpp:24-32 | the loop finds the first entry with that name, or -1 |
| RecentExecutables.RecentFiles.SetCurrentFile | src/prodbg/RecentExecutables.cpp:36-52 | the list in place as specified |
| RecentExecutables.RecentFiles.PutFileOnTop | src/prodbg/RecentExecutables.cpp:63-73 | the list in place as specified; nothing for an unknown name |

## Left out

- Sockets, polling, connecting, sleeping, `malloc` and `free`: the outcome of each send and receive is a parameter, and whatever an allocated buffer holds before it is written is arbitrary.
- Floating-point values: floats and doubles are bit patterns. A find that converts through floating point reports its status but no value (`ThroughFloat`).
- `read_dump_data`, the header arrays (which only return a failure) and logging.
- FlatBuffers payloads: a message is the bytes of a data field, and the test on its type is a parameter.
- SessionObject.BackendSession.UpdateCurrentPc: what the data pointer holds before the first message is a parameter; in the source it is uninitialised.
- SessionObject.BackendSession.InternalUpdate: the plugin is modelled as one that drains its requests and then makes any well-bracketed writes, and what the timer does when it fires is left to the caller.
- Transfer.TransferWhole: requires sizes from 4 to 2^30 - 1; bit 30 is masked off by the header decode.
- RemoteObject.Connection.RecvStream: requires a size of at least 4; below, the source writes its header past the end of the buffer it has allocated and then reads with a negative length.
- RemoteObject.RemoteBackend.Receive: does not model such stream sizes either. What the header buffer holds before the read, uninitialised in the source, is a parameter.
- RemoteObject.RemoteBackend.Update: leaves them out in the same way.
- WriterObject.Writer.Write8: does for both 8-bit types what the source has as two functions; so do the other widths, and floats and doubles share those of their width.
- Decimal mode, which is compiled out, and the `loopexternal` hook of `exec6502`, which is never set.
- CpuObject.Cpu6502.Branch: stands for the eight branch operations, which differ only in the flag tested; loads, compares and flag operations share methods in the same way.
- CpuObject.Cpu6502.Exec: requires the goal, wrapped to 32 bits, not to be one of the last 7 counts; there the loop of the source need not end, by `ExecEnds.EndsExactly`.
- Cycles.RunToGoal: requires the same of its goal.
- Cycles.NeverFarPast: holds for runs whose counters do not wrap; after a wrap the goal can be smaller than the ticks by any amount.
- Report.ListingRead: the text of the listing is a parameter, shorter than 640 characters as 10 lines of the disassembler are.
- Text of the disassembly: only sizes and printed targets are modelled.
- FixedString.CFixedString.WriteStr: works on bytes; that the parts are valid UTF-8 is not part of this model.
- Loading and saving the recent files, and the menu actions built from them.
- Qt windows, the backend thread, the delivery of timer events, plugin loading, breakpoints, LLDB, AngelScript and Capstone.
