# Verification of the diagnostics, hashing and memory core

This project models five parts of the library in Dafny and proves what each of them is for.

**The crash ring.** Any number of writers and inspectors share an array of slots without locks. A
writer takes a number by one exchange, claims the number's slot by another, marks the slot odd, fills a
plain payload, marks it even and releases it; an inspector claims each slot once, copies it, classifies it
and keeps the newest records in a window it sorts in place. `RingMachine` is the protocol as a transition
system with one step per atomic operation and one step per payload store or load (208 and 207 of them), so a
torn record can be expressed. Every thread may stop anywhere, for ever. `RingSafety` holds the invariant,
`RingTheorems` what follows for every run, `RingCoverage` what a walk among writers cannot miss, `RingWindow`
the top-k insertion, `RingNewest` the reading of the ring as the tail of a log. `CrashRing` is the code itself, over its arrays: every operation moves a
ghost copy of the transition system by one step, and between any two of them the other threads may run.

**The diagnostics engine.** `LaneLaw` is what each locked operation does to a lane, `Lanes` the bounded
queue over its slot array that obeys it. `Escaping`, `JsonText` and `Line` are the bounded rendering of a
record and a JSON reader that inverts it, `LogFiles` the family of rotated files. `EngineMachine`,
`EngineSafety` and `EngineTheorems` are the threads of the engine interleaved over the same `LaneLaw`: any
number of producers, both lanes, the writer thread and the stop flag. A wait may time out at any moment,
and the flush deadline may pass at any moment. `DiagnosticsService` is the code: emit, the writer loop and
shutdown as methods of one object. Its writer may start at any place of its loop, and each of its methods
says which run of `EngineMachine` it takes; `EngineView` is the reading of the object as a state of that
machine.

**SHA-256.** `Sha256Spec` is the hash as FIPS 180-4 defines it, `Sha256` the streaming core with its
buffer and its two branches of padding, `BlockBuffer` the byte loops, `Sha256Checks` the proof that the
constants are the bits of roots of primes that the standard says they are, `Sha256Example` the worked
example of appendix B.1 of FIPS 180-2.

**The byte builder.** `Endian` holds the scalar codecs, `Allocation` the allocator backends, with every
request they were asked, and the owner of a block, `Ownership` any sequence of operations on owners, `BuilderModel` the builder as a
pure machine, `ByteBuilders` the builder over real blocks, `FieldLists` lists of fields written through it
and read back through the cursor.

**The observer and the arena.** `UsageObserver` is the concurrent high-water mark as a transition system,
`ObserverCalls` the observer's calls over their counters, each atomic access one step of it, `Alignment` the mask
formulas, `LinearArena` the bump allocator.

`Words`, `Bits`, `Divisions` and `Sequences` hold the arithmetic and the sequence facts the rest uses:
`&` and `|` are functions on naturals with lemmas that say what masks, shifts and disjoint ors mean.

## What the code does and its comments do not say

- `shutdown` may report leftovers although every emit returned before it was called. The writer looks at
  the critical lane, then at the general lane, then at the stop flag. A record accepted after the look at
  its lane, with stop set before the flag is read, is left to the flush; a flush whose deadline has
  passed leaves it behind. `EngineTheorems.ZeroBudgetCanLeaveARecord` is such a run,
  `EngineTheorems.FlushedExactlyWhenSwept` says exactly when it cannot happen, and
  `DiagnosticsService.Service.Shutdown` counts what is left behind for each place of the writer and each
  flush budget.
- The main loop reads the stop flag only after both lanes were seen empty, so a producer that keeps
  emitting keeps the writer running after shutdown began (`EngineTheorems.StopCanBeOvertaken`).
- The escape buffer is sized for every byte doubling, but a control byte takes six. A message is cut when
  its escaped text passes 399 bytes (or 400, when its last byte escapes to one byte):
  `Escaping.WholeMessageKept`.
- The comment in the drain says that its bytes count toward the generation's budget. They are counted
  and nothing reads the count: the drain never rotates (`DiagnosticsService.Service.Drain`).
- `capture_newest` books nothing for an even slot of a covered reservation whose record has the wrong slot or
  sequence. No run ever reaches that fall-through (`RingTheorems.ReceiptAddsUp`).

## Model

| member | source | states |
|---|---|---|
| RingTheorems.CapturedRecordsAreWhole | include/qiven/diag/ring.hpp:157-260 | In every run of any number of writers and inspectors each captured entry equals, field for field, the record one write built for reservation r = sequence/2, at or below the capture's watermark, and shows that write's event: its sequence is 2r, every scalar is the event's own, its length is the text's up to 199, its first bytes are the text's and the rest are zero |
| RingTheorems.ReceiptAddsUp | include/qiven/diag/ring.hpp:184-211 | No slot is ever malformed or falls through unbooked; busy, empty, later and stable slots make up the capacity |
| RingTheorems.SlotLaw | include/qiven/diag/ring.hpp:81-123 | At most one thread holds a slot; a slot nobody holds is free and its word is 0 or 2r for a handed-out r that belongs there, above the whole record of r |
| RingTheorems.Accounting | include/qiven/diag/ring.hpp:71-123 | Reservations are exactly 1..last, each published, lost or held by one thread; finished writes are published or dropped, and the drop counter is the losses modulo 2^64 |
| RingTheorems.StepNeverGoesBack | include/qiven/diag/ring.hpp:93-122 | One step never takes a slot to an older reservation and changes a payload only under the odd word of the claim that owns it |
| RingTheorems.SlotsNeverGoBack | include/qiven/diag/ring.hpp:93-122 | Over any run a slot's reservation only grows, so a delayed producer never overwrites a newer record |
| RingTheorems.WindowIsNewest | include/qiven/diag/ring.hpp:213-258 | The window is strictly descending and is exactly the top of the stable records met; Valid and Empty each hold exactly when the receipt says so |
| RingTheorems.CallsAreWaitFree | include/qiven/diag/ring.hpp:65-124 | A call returns after a bounded number of its own thread's steps, whatever the others do, even if all of them stop |
| RingCoverage.NothingMissed | include/qiven/diag/ring.hpp:157-260 | A capture that counted no busy and no later slot met, for each slot that showed a reservation when its walk began, the whole record of that reservation or a newer one, whatever was written meanwhile |
| RingCoverage.ReturnedOrOutdone | include/qiven/diag/ring.hpp:157-260 | The record of each such slot, or a newer one of the slot, is in the result, or the result is full of records of later reservations |
| RingSafety.ApplyKeepsInv | include/qiven/diag/ring.hpp:69-260 | Every single step of every thread keeps the whole slot, thread, fate and counter invariant |
| RingWindow.InsertKeepsTop | include/qiven/diag/ring.hpp:213-251 | Inserting a record not met before keeps the window the max newest of all records met, in order |
| RingWindow.TopWindowUnique | include/qiven/diag/ring.hpp:213-251 | The records met and the limit determine the window |
| RingNewest.NewestIsWindow | include/qiven/diag/ring.hpp:157-260 | With no call under way the window of a walk is the newest events of the log, newest first |
| SnapshotReceipt.Receipt.MoveForward | include/qiven/diag/ring.hpp:218-231 | The in-place swaps compute the insertion the window lemmas are about |
| CrashRing.CrashRing.constructor | include/qiven/diag/ring.hpp:52-63 | The initialised arrays are the initial state of the transition system |
| CrashRing.CrashRing.Write | include/qiven/diag/ring.hpp:69-124 | With interference between any two operations a non-zero result names a published reservation of this event; alone it appends the event, drops nothing and leaves the home slot free, under the committed word and showing every field and the text of the event |
| CrashRing.CrashRing.CaptureNewest | include/qiven/diag/ring.hpp:157-260 | With interference the receipt adds up and every entry shows, field for field, the event its sequence names; alone it returns the newest min(n, capacity, k, 64) events of the log |
| CrashRing.WriteThenCapture | include/qiven/diag/ring.hpp:52-260 | A ring with a single user is a plain log: after any events a capture of k shows its newest min(n, capacity, k, 64), newest first, each with its sequence, scalars and text |
| RingTypes.LimitFillsWord | include/qiven/diag/ring.hpp:29-29 | The reservation limit is the largest whose odd word still fits in 64 bits |
| Bits.MaskIndexIsModulo | src/diag/service.cpp:570-576 | Mask indexing equals modular indexing for every position exactly for the capacities the install check accepts |
| Bits.PowerTest | src/diag/service.cpp:570-570 | v & (v - 1) is zero, for v > 0, exactly for powers of two |
| Lanes.BoundedLane.PushDropOldest | src/diag/service.cpp:63-76 | The array moves by the lane law the engine is interleaved over: the record is always accepted, and a full lane drops its oldest and nothing else |
| Lanes.BoundedLane.PushBoundedWait | src/diag/service.cpp:79-96 | With room at once the record is accepted without a wait; woken to a full lane the call waits again; woken to room it is accepted, last and with nothing else changed; it is refused, and counted, exactly when a wait times out |
| Lanes.BoundedLane.TryPop | src/diag/service.cpp:98-109 | The oldest queued record comes out, by the lane law, and joins the drained ones; an empty lane is left unchanged |
| Lanes.DrainedThenQueued | src/diag/service.cpp:63-109 | What was drained followed by what is queued is an order-preserving subsequence of what was accepted |
| Lanes.DrainedAll | src/diag/service.cpp:79-109 | A lane that never drops has drained exactly the accepted records that left it, in order |
| Lanes.LaneConserves | src/diag/service.cpp:63-109 | Every accepted record is drained, dropped or still queued |
| Escaping.EscapeInto | src/diag/service.cpp:363-418 | The escaper writes at most 400 bytes and a NUL: the escaped form of the longest prefix it found room for, byte by byte |
| Escaping.WholeMessageKept | src/diag/service.cpp:363-418 | The whole message is kept exactly when its escaped form is at most 399 bytes, or 400 with a last escape of two or more |
| Escaping.ReadEscaped | src/diag/service.cpp:363-418 | Unescaping by section 7 of RFC 8259 gives the text back and stops at the closing quote, so no raw quote, lone backslash or control byte is written |
| Escaping.EscapedIsPrintable | src/diag/service.cpp:398-418 | The escaped text holds no byte below 0x20 |
| JsonText.ReadFieldsBack | src/diag/service.cpp:424-433 | Reading the text of any list of fields gives the same fields in order and stops behind the closing brace |
| JsonText.DigitCount | src/diag/service.cpp:420-440 | A decimal numeral has at most k digits exactly when the value is below 10^k |
| Line.RenderLine | src/diag/service.cpp:363-440 | The delivered line is the full rendering of the kept text, cut at 511 bytes |
| Line.LineSpelledOut | src/diag/service.cpp:425-432 | Every value of the record stands behind its own key, in the order of the format |
| Line.SeverityNames | include/qiven/diag/event.hpp:33-45 | Levels 0 to 5 are named trace, debug, info, warn, error and critical, every other one unknown |
| Line.WholeLineReadsBack | src/diag/service.cpp:424-440 | A delivered line parses as one JSON object and its newline exactly when the rendering is under 512 bytes, and then to the record's scalars and text |
| Line.DeliveredLine | src/diag/service.cpp:434-440 | A delivered line is 53 to 511 bytes; it holds a newline, exactly one and at its end, exactly when it was not cut |
| Line.LineIsDetermined | src/diag/service.cpp:363-440 | A record has exactly one line: what the escaper keeps is determined by the message |
| Line.ShortMessageReadsBack | src/diag/service.cpp:363-440 | A message whose escaped form is at most 370 bytes is never cut, and its line parses back to all its scalars and its whole text |
| Line.WholeForAllScalars | src/diag/service.cpp:424-440 | The line is whole for all scalars exactly when the escaped text is at most 370 bytes |
| LogFiles.LogFile.Rotate | src/diag/service.cpp:471-508 | The open generation becomes the first closed one, every other moves one place, the oldest beyond the limit is dropped, nothing else changes |
| LogFiles.LogFile.Deliver | src/diag/service.cpp:315-333 | A line is appended to the stream; its generation closes exactly when the bound is reached, with a size from the bound to the bound + 510 |
| LogFiles.ReadingIsRecordSuffix | src/diag/service.cpp:471-508 | Reading from the oldest closed file to the root gives a suffix of the delivered stream cut between two lines, and all of it while the family is not full |
| DiagnosticsService.Service.Emit | src/diag/service.cpp:219-257 | The record takes the next number and shows every field and the text of the event; the event is written into the crash ring first; a record of the level named critical then goes to the critical lane as a bounded push and leaves the general lane alone, every other one goes to the general lane, which makes room, and leaves the critical lane alone |
| DiagnosticsService.Service.Drain | src/diag/service.cpp:335-347 | The flush hands over queued records in order, as many as it has time for, never rotates, and is a run of the interleaved machine |
| DiagnosticsService.Service.WriterLoop | src/diag/service.cpp:315-359 | From every place of the loop it ends, is a run of the interleaved machine, hands records over in the order that place gives, and leaves none behind unless stop had caught it past its look at a lane that holds a record; then it leaves what the flush has no time for |
| DiagnosticsService.Service.Shutdown | src/diag/service.cpp:259-284 | For every place of the writer and every flush budget: leftovers are zero when the writer still sweeps the queues, else the backlog beyond the budget; drained is the rest, the writer flushed exactly when nothing is left, and the whole is a run of the interleaved machine from the set flag |
| DiagnosticsService.Service.SweepsIsWillSweep | src/diag/service.cpp:315-334 | The condition `Shutdown` counts by is the one that decides the flush of the interleaved engine |
| EngineView.PushAndWakes | src/diag/service.cpp:79-96 | A bounded push as the lane's contract has it is the push and the wakes of one producer of the interleaved machine |
| EngineSafety.ApplyKeepsInv | src/diag/service.cpp:219-359 | Every step of every producer, the writer and the stop flag keeps the engine's invariant |
| EngineTheorems.Conservation | src/diag/service.cpp:219-359 | In every state the emits of a lane are handed over, with the writer, lost, queued or in flight, and the counts add up |
| EngineTheorems.QuiescentConservation | src/diag/service.cpp:219-359 | At quiescence non-critical emits are drained, dropped or queued, and critical emits drained, queued or overflowed |
| EngineTheorems.HandedInOrder | src/diag/service.cpp:315-359 | Each producer's records on one lane reach the sink in strictly increasing order, so none twice, and each was issued |
| EngineTheorems.GapsAreLosses | src/diag/service.cpp:219-359 | Once a later record of a producer's lane was handed over, an earlier one was too exactly when the lane did not lose it |
| EngineTheorems.WokenToRoomAccepted | src/diag/service.cpp:83-95 | A producer woken before its deadline that finds room has its record accepted last and nothing is lost |
| EngineTheorems.LossesAreTimeouts | src/diag/service.cpp:83-90 | In every run at most one critical record is lost for each wait that timed out, and none when no wait did |
| EngineTheorems.WriterEnds | src/diag/service.cpp:315-359 | With stop set and quiet producers the writer ends within four steps a queued record and seven more, whatever the clock says |
| EngineTheorems.StopCanBeOvertaken | src/diag/service.cpp:315-334 | With a producer that keeps emitting there is, for every n, a run in which stop is set first, the writer takes at least n steps and is still in its main loop |
| EngineTheorems.FlushedExactlyWhenSwept | src/diag/service.cpp:259-359 | With stop set and quiet producers shutdown leaves nothing for every flush budget exactly when no record arrived between the writer's look at its lane and its reading of the flag |
| EngineTheorems.EmptyBacklogFlushes | src/diag/service.cpp:259-359 | With nothing queued when stop is set nothing is left behind, wherever the writer stands and for every flush budget |
| EngineTheorems.UnhurriedFlush | src/diag/service.cpp:335-347 | A flush budget that is not used up leaves nothing behind |
| EngineTheorems.ZeroBudgetCanLeaveARecord | src/diag/service.cpp:317-347 | A concrete run in which an emit has returned, shutdown follows with a budget of zero and the record stays queued |
| Sha256.Compress | include/qiven/hashing_sha256.hpp:72-122 | The in-place schedule and rounds compute the hash value of section 6.2.2 of FIPS 180-4 |
| Sha256.SHA256Core.Absorb | include/qiven/hashing_sha256.hpp:133-152 | Any chunk is appended to the message the core stands for |
| Sha256.SHA256Core.AppendPadding | include/qiven/hashing_sha256.hpp:154-181 | Both branches fold in exactly the padding of section 5.1.1 for a message under 2^61 bytes |
| Sha256.SHA256Core.Finalize | include/qiven/hashing_sha256.hpp:154-197 | The result is the FIPS 180-4 digest of everything absorbed, and the core is armed for the next message |
| Sha256.Streamed | include/qiven/hashing_sha256.hpp:222-250 | Two messages hashed one after the other in any chunks each give the digest of their concatenation |
| Sha256.OneShot | include/qiven/hashing_sha256.hpp:203-208 | The one-shot form gives the digest of its bytes |
| Sha256Example.DigestOfAbc | tests/hashing_sha256.cpp:27-45 | The digest of "abc" is the one the standard publishes, through the whole schedule and all sixty-four rounds |
| Sha256Spec.ZeroCountIsLeast | include/qiven/hashing_sha256.hpp:163-179 | The padding has the least number of zero bytes that section 5.1.1 allows |
| Sha256Checks.RoundConstantsAreCubeRoots | include/qiven/hashing_sha256.hpp:39-48 | Every round constant is the first 32 fractional bits of the cube root of its prime |
| Sha256Checks.InitialHashIsSquareRoots | include/qiven/hashing_sha256.hpp:36-37 | Every initial word is the first 32 fractional bits of the square root of its prime |
| Sha256.LoadBigEndian32 | include/qiven/hashing_sha256.hpp:50-54 | Shifting and or-ing four bytes gives the word whose big-endian value they are |
| BlockBuffer.StoreBigEndian32 | include/qiven/hashing_sha256.hpp:56-62 | The four stores write the word most significant byte first and nothing else |
| BlockBuffer.StoreBigEndian64 | include/qiven/hashing_sha256.hpp:64-70 | The eight stores write the word most significant byte first and nothing else |
| Endian.EncodeLittle | include/qiven/endian.hpp:47-59 | The shift-and-mask loop writes the low bytes of the value, least significant first, exactly when the span has the width |
| Endian.EncodeBig | include/qiven/endian.hpp:61-73 | The same, most significant first |
| Endian.DecodeLittle | include/qiven/endian.hpp:13-28 | The shift-and-or loop reads the little-endian value of a span of the width, and nothing otherwise |
| Endian.DecodeBig | include/qiven/endian.hpp:30-45 | The same, most significant first |
| Endian.EncodeDecode | include/qiven/endian.hpp:13-73 | A value that fits is read back from its bytes, in either order |
| Endian.LittleBack | include/qiven/endian.hpp:13-59 | Any bytes are the little-endian encoding of the value they are read as |
| Endian.BigBack | include/qiven/endian.hpp:30-73 | Any bytes are the big-endian encoding of the value they are read as |
| Endian.LittlePrefix | include/qiven/byte_builder.hpp:248-255 | A narrow little-endian put is the first bytes of the wide encoding |
| Endian.BigSuffix | include/qiven/byte_builder.hpp:271-280 | A narrow big-endian put is the last bytes of the wide encoding |
| Allocation.OwnedAllocation.TryAllocate | src/memory/owned_allocation.cpp:15-23 | The backend is asked once for this layout, not at all for size 0; there is no owner exactly when it refused, and else the new owner holds a fresh block of the layout asked for |
| Allocation.OwnedAllocation.Move | src/memory/owned_allocation.cpp:30-36 | The block changes hands and the source is left empty |
| Allocation.OwnedAllocation.MoveAssign | src/memory/owned_allocation.cpp:38-50 | The block held is returned once to its own backend with its own layout, the other's is taken over; self-assignment changes nothing |
| Allocation.OwnedAllocation.Destroy | src/memory/owned_allocation.cpp:25-28 | Destruction returns the block held, if any, to its own backend |
| Ownership.RunConserves | src/memory/owned_allocation.cpp:15-50 | After any sequence of operations the blocks out are exactly those live owners hold, each by one, and every return was lawful and the only one of its block |
| Ownership.NothingLeaks | src/memory/owned_allocation.cpp:15-50 | Once every owner is gone every block ever handed out has been returned |
| BuilderModel.BytesAreAccepted | include/qiven/byte_builder.hpp:93-113 | The bytes are the concatenation of the appends that returned ok since the last reset |
| BuilderModel.FailureLatches | include/qiven/byte_builder.hpp:93-104 | After the first failure every later append changes nothing until a reset |
| BuilderModel.BytesOnlyGrow | include/qiven/byte_builder.hpp:206-234 | Over any appends, granted or refused, no accumulated byte is lost or altered: the bytes only grow at their end |
| BuilderModel.RefusedExactlyWhen | include/qiven/byte_builder.hpp:206-234 | An append is refused exactly when the bound is passed, or growth is needed and the allocator refuses |
| BuilderModel.OkExactlyWhen | include/qiven/byte_builder.hpp:93-234 | A run of appends stays ok exactly when all the bytes fit the bound and the allocator granted everything it was asked, and then it holds all of them |
| BuilderModel.TargetIsClampedDouble | include/qiven/byte_builder.hpp:206-222 | The block asked for is the larger of the double and what is required, clamped to the bound, and what is required when the double overflows |
| BuilderModel.CapacityIsMonotone | include/qiven/byte_builder.hpp:184-234 | Over any calls the capacity never decreases and never passes the bound |
| BuilderModel.CopyingIsAmortised | include/qiven/byte_builder.hpp:206-234 | Over any run with a bound of at most half the size range regrowth copies at most twice the largest size reached |
| ByteBuilders.ByteBuilder.Append | include/qiven/byte_builder.hpp:93-113 | One call is one step of the pure machine, copies what the machine charges, asks the allocator exactly what the machine asks, and returns the latched status |
| ByteBuilders.ServeAll | include/qiven/byte_builder.hpp:93-234 | Over every sequence of appends and resets the builder is the pure machine run on the answers the allocator gave to exactly the machine's requests, and copies what the machine charges |
| ByteBuilders.ByteBuilder.Regrow | include/qiven/byte_builder.hpp:221-233 | The allocator is asked once for a block of the target; granted, the bytes are kept, the old block is returned and the new one held; refused, nothing changes |
| ByteBuilders.ByteBuilder.EnsureCapacity | include/qiven/byte_builder.hpp:206-234 | The capacity grows to the clamped double exactly when needed, allowed and granted; the allocator is asked once for that block when growth is needed and allowed, else not at all |
| ByteBuilders.ByteBuilder.AppendEncodedLittle | include/qiven/byte_builder.hpp:236-257 | A little-endian put is one machine step appending the value's low bytes |
| ByteBuilders.ByteBuilder.AppendEncodedBig | include/qiven/byte_builder.hpp:259-282 | A big-endian put is one machine step appending the value's low bytes |
| ByteBuilders.ByteBuilder.Reset | include/qiven/byte_builder.hpp:184-188 | A reset empties the bytes, clears the status and keeps the capacity |
| ByteBuilders.ByteBuilder.Move | include/qiven/byte_builder.hpp:53-67 | Bytes, status, capacity and block change hands and the source is an inert empty builder |
| ByteBuilders.ByteBuilder.MoveAssign | include/qiven/byte_builder.hpp:69-85 | What was held is returned, the rest is as for move construction; self-assignment changes nothing |
| FieldLists.ByteCursor.Take | include/qiven/byte_cursor.hpp:20-28 | The bytes taken and the bytes left make up the bytes before; too large a count changes nothing |
| FieldLists.FieldsReadBack | include/qiven/byte_builder.hpp:236-282 | Any list of fields is read back from its encodings value for value, and nothing else is taken |
| FieldLists.ReadFields | include/qiven/byte_cursor.hpp:20-28 | Taking and decoding each width in turn computes the reading function, for any bytes |
| FieldLists.RoundTrip | include/qiven/byte_builder.hpp:236-282 | Fields appended with status ok come back in order through a cursor over the bytes, which is then empty; a good builder takes them all exactly when they fit its bound and the allocator grants what it is asked |
| UsageObserver.PeakIsHighest | include/qiven/memory/observer.hpp:49-67 | Whenever no allocation is being observed the peak is the largest usage over all the states the run passed through: none held more, and one held it |
| UsageObserver.PeakWasHeld | include/qiven/memory/observer.hpp:49-67 | At any moment, calls under way or not, the peak does not exceed what the usage has held |
| UsageObserver.AllocatedMinusFreed | include/qiven/memory/observer.hpp:49-78 | Allocated minus freed bytes is the usage exactly when the calls caught between two counters cancel out, and so whenever no call runs |
| UsageObserver.UsageNeverWraps | include/qiven/memory/observer.hpp:69-78 | Balanced calls never drive the usage below zero nor below what running deallocations will take |
| UsageObserver.FailuresAreFew | include/qiven/memory/observer.hpp:59-63 | A true exchange failure has strictly raised the peak seen, and a call suffers at most as many as the usage it made |
| ObserverCalls.AllocationObserver.ObserveAllocate | include/qiven/memory/observer.hpp:49-67 | The loop ends, under interference and weak failures, with the peak at least the usage made, after exactly the steps of one call of the transition system; alone the peak is the larger of the old peak and the new usage |
| ObserverCalls.AllocationObserver.ObserveDeallocate | include/qiven/memory/observer.hpp:69-78 | Among other threads it takes exactly the three steps of one deallocation, none of which lowers the peak or wraps the usage; alone the size leaves the usage and is counted as freed |
| Alignment.IsAlignedMeans | include/qiven/alignment.hpp:12-17 | The mask test holds exactly for multiples |
| Alignment.AlignDownMeans | include/qiven/alignment.hpp:19-25 | The mask formula gives the largest multiple not above the value |
| Alignment.AlignUpMeans | include/qiven/alignment.hpp:27-35 | The mask formula gives the least multiple not below the value |
| Alignment.CheckedAlignUpMeans | include/qiven/alignment.hpp:37-46 | The checked form answers exactly when the least multiple fits in a word, and then with it |
| LinearArena.LinearArena.TryAllocate | src/memory/linear_arena.cpp:18-39 | A block of positive size comes back exactly when the least aligned address leaves room, and it is that address; failure changes nothing |
| LinearArena.LinearArena.Used | src/memory/linear_arena.cpp:66-74 | Used and remaining bytes split the capacity at the current address |
| LinearArena.LaidBlocksAreDisjoint | src/memory/linear_arena.cpp:18-39 | No two blocks handed out since the last reset share a byte |
| LinearArena.Serve | src/memory/linear_arena.cpp:18-74 | Over any requests the arena stays in order and every block answered is non-empty, aligned and inside the region |

## Left out

- Weak memory: relaxed, acquire and release accesses are sequentially consistent steps.
- Real time: the critical wait, the flush deadline and the 20 ms park are free choices of the model.
  Nothing is claimed about how long a shutdown takes.
- Crash ring indices and words are naturals; only the reservation limit, the drop counter and the width of the
  stored fields are kept to their machine widths.
- The event's own sequence field and a null text: an event here is its six stored values.
- The 64-bit counters of the lanes, the log's byte count and the observer's totals do not wrap in the model.
- DiagnosticsService.Service.Emit: other threads run during the ring's write and during the critical wait only; emits that overlap
  elsewhere are in the `RingMachine` and the `EngineMachine` modules.
- DiagnosticsService.Service.WriterLoop: has no producer running while the method runs, and so have the methods
  it calls and `Shutdown`; producers interleaved with the writer are in the `EngineMachine` modules, whose
  steps these methods take.
- A size bound on the last file after a drain, and any promise about a cut line, which the code does not make.
- File operations that fail, other than a missing source of a rename, and the counters of sink failures.
- The standard error and debugger sinks, `health()` read while threads run, process-wide install state, thread
  creation, exceptions and packaging.
- Ownership.RunConserves: works on values that mirror the contracts of `OwnedAllocation`; a block is named by the
  allocation that made it, so the reuse of an address is not modelled.
- The alignment of the addresses that backends return, except in the arena, and the assertions on it.
- ByteBuilders.ByteBuilder.Append: asks, as the code's comment does, that the bytes are not the builder's own; here
  they are a value.
- `AllocationObserver::reset`, the failure count, `ScopedMemoryWatch`, and the arena's `deallocate`, which only asserts.
- The hex form of a digest and the strength of the hash.
- Argument checks of the arena's constructor, and the system allocator, contracts and crash handlers.
