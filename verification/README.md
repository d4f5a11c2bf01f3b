# A model of a kernel's 9P client, copy-on-write memory, poll arms and console

This project models five state machines of the Thylacine kernel and proves what they keep.

**The pipelined 9P client.** A session (`SessionSpec`) is a set of bound fids and a map from each
tag in flight to its entry; every session call is a function on that value, and `SessionInv` proves
what each keeps. `TagTable` is the session as the kernel keeps it, a table that grows by chunks
with cached counters and a fid array, and proves every method against the flat session.
`ClientRun` composes the session with registered rpcs, a FIFO wire each way and any server that
answers a request at most once and never answers what it has flushed; `ClientInv`, `ClientWire`,
`ClientLocal` and `ClientDemux` hold the invariant and `ClientTheorems` and `ClientOwed` what
follows for every run; `ClientFids` says when a fid is busy, which op an rpc stands for and why it
ended. `ReaderRole` is the election of the one thread that reads for all;
`ClientLive` runs both machines together, each joint step being a step of either, and proves that no
waiter is forgotten: its op is owed an end and someone reads for it. `Transport` is the resumable
framing and the send under back-pressure; `Wire` and `Bytes` are the codecs.

**The closer pool** (`CloserPool`, `CloserInv`, `CloserTheorems`): threads that send deferred
Tclunks, spawned, retired and reaped on demand.

**Copy-on-write address spaces** (`CowMemory`, `CowFork`, `Decommit`, `BurrowLife`, `PageCounter`): pages
with share counts, lazy Burrows, the fork that clones an address space, the release of a range of
addresses, the life of one Burrow, and the lock-free page counter.

**Remote poll arms** (`PollArms`): arm, widen, collect, reap and cancel at close.

**The console** (`ConsoleInput`, `ConsoleOutput`): the line discipline as a fold of what was typed,
and the write path with its short-count rule.

Code that updates an object in place is a class whose methods are proved against a function of the
old state. Concurrent protocols are state machines: one action is one hold of the lock, or one step
a thread takes outside it, and the theorems hold in every reachable state. Table sizes are
parameters, bound only by the relations the source asserts at compile time: two tags for every op,
chunks that cover the tag limit, a ring that holds a longest line and its newline. Memory, the
transport, the scheduler and the server are nondeterministic.

Where the code and its own words differ the code is followed. A console write interrupted by a note
is documented to answer EINTR when nothing went out (kernel/cons.c:2360-2363); the code answers EINTR
when nothing is *counted*, and the CR of a leading newline may have gone out by then.
`ConsoleOutput.Terminal.InterruptedNewline` is such a write, `OutputWrite` says exactly when it happens and
`LoneReturnPossible` for which outputs it can. The page counter of an address space is documented to let
racing charges overshoot its budget (kernel/addrspace.c:405-412); the loop decides again after every
failed swap, and `PageCounter.NeverOverBudget` proves that it does not.

## Model

| member | source | states |
|---|---|---|
| `SessionInv.SendWalkKeeps` | kernel/9p_session.c:422-457 | a walk that passes its gates, with a destination no op in flight may still bind, keeps the fid, tag and flush-link invariant |
| `SessionInv.SendClunkKeeps` | kernel/9p_session.c:501-523 | a Tclunk unbinds its fid and keeps its slot reserved, so bound plus reserved is unchanged and the invariant holds |
| `SessionInv.SendFlushKeeps` | kernel/9p_session.c:530-560 | staging a Tflush keeps the invariant: it names one live victim that records it |
| `SessionInv.SlotBindWorks` | kernel/9p_session.c:135-138 | binding into a reserved slot succeeds for the fid the op claims: neither the duplicate check nor the capacity check can refuse |
| `SessionInv.RetractUnsentRebinds` | kernel/9p_session.c:596-605 | taking back a never-sent Tclunk always re-binds its fid, frees its tag and keeps the invariant |
| `SessionInv.AbortUnsentKeeps` | kernel/9p_session.c:578-586 | reclaiming a never-sent tag keeps the invariant |
| `SessionInv.FlushUnstageKeeps` | kernel/9p_session.c:643-656 | unstaging a Tflush frees its tag, clears the victim and keeps the invariant |
| `SessionInv.FlushRollbackKeeps` | kernel/9p_session.c:658-666 | rolling a Tflush back keeps the invariant |
| `SessionInv.FullWalkBinds` | kernel/9p_session.c:1231-1252 | a full Rwalk binds exactly the new fid, late or not; the tag is freed exactly when no Tflush holds it |
| `SessionInv.LateRepliesBindOnce` | kernel/9p_session.c:1545-1592 | over any run of late or duplicate replies to a flushed op its tag stays reserved for the same op and its new fid is bound at most once |
| `SessionInv.DispatchKeeps` | kernel/9p_session.c:1256-1592 | every dispatch, whatever the reply, keeps the invariant |
| `SessionInv.DispatchFlushedKeeps` | kernel/9p_session.c:1594-1615 | a reply honoured for an owner that still waits keeps the invariant and the reservation |
| `SessionInv.ReplyMeans` | kernel/9p_session.c:1256-1592 | a reply to an op in flight is taken exactly when a request of its kind may get it, reported as a failure exactly when it is an Rlerror, and gives the client exactly the fid of a walk answered in full; taken it frees the tag, else it changes nothing |
| `SessionInv.FlushedReplyMeans` | kernel/9p_session.c:1594-1615 | the same for a flushed op whose owner waits, whose tag stays reserved for the same op; the owner waits no longer, even for a reply that is not taken |
| `SessionInv.LateReplyMeans` | kernel/9p_session.c:1231-1252 | a late reply to an op nobody waits for reports nothing and keeps only the fid of a walk answered in full, once |
| `SessionInv.FlushReplyFrees` | kernel/9p_session.c:1350-1376 | an Rflush frees both its own tag and its victim; an Rlerror frees only its own |
| `SessionInv.FlushesBelowOps` | kernel/9p_session.c:55-64 | while an op may be flushed, flushes are fewer than ops: each names its own victim |
| `SessionInv.FlushFindsTag` | kernel/9p_session.c:59-60 | whenever an op may be flushed a tag below the limit is free, so only memory can refuse a Tflush |
| `TagTable.CountMoves` | kernel/9p_session.c:225-253 | one slot changing moves any count over the table by exactly whether the slot had the property before and has it after |
| `TagTable.PutRepresents` | kernel/9p_session.c:144-152 | writing one chunk entry changes exactly the tag whose index it is |
| `TagTable.FullChunk` | kernel/9p_session.c:200-201 | a chunk whose counter reads full has no free tag, so skipping it is sound |
| `TagTable.IdleChunk` | kernel/9p_session.c:256-268 | a chunk whose counter reads zero holds no such tag, so both walks may skip it |
| `TagTable.SwapWithLast` | kernel/9p_session.c:93-103 | swap-with-last removal drops exactly the removed fid and keeps the array distinct |
| `TagTable.Table.constructor` | kernel/9p_session.c:306-340 | a new table is an empty flat session with all counters zero, whenever the chunks it may have reach the tag limit |
| `TagTable.Table.FidBound` | kernel/9p_session.c:73-78 | membership in the bound set |
| `TagTable.Table.FidBind` | kernel/9p_session.c:84-89 | binds exactly when the fid is new and there is room; the set gains that fid only |
| `TagTable.Table.FidUnbind` | kernel/9p_session.c:93-103 | removes exactly that fid |
| `TagTable.Table.SlotReserve` | kernel/9p_session.c:120-123 | the flat session with the op holding a slot; counters equal a recount |
| `TagTable.Table.SlotRelease` | kernel/9p_session.c:125-130 | the flat session with the op holding none; a second release changes nothing |
| `TagTable.Table.BindSlot` | kernel/9p_session.c:135-138 | the flat SlotBind: release first, then bind |
| `TagTable.Table.Grow` | kernel/9p_session.c:179-191 | adds an empty chunk and returns its first tag, refusing only at the limit or for want of memory; the flat session is unchanged |
| `TagTable.Table.FindFree` | kernel/9p_session.c:198-207 | walks the chunks for the lowest free tag under the limit |
| `TagTable.Table.AllocTag` | kernel/9p_session.c:196-208 | returns the lowest free tag under the limit when the op share has room; with memory it refuses only when the share is full or no tag is free |
| `TagTable.Table.MarkOutstanding` | kernel/9p_session.c:225-240 | places the op under the next op id; every cached counter equals a recount |
| `TagTable.Table.ClearOutstanding` | kernel/9p_session.c:243-253 | drops the tag and releases its slot; every cached counter equals a recount |
| `TagTable.Table.NextActive` | kernel/9p_session.c:256-268 | the lowest active tag from a given one on, none skipped |
| `TagTable.Table.NextSyncOwned` | kernel/9p_session.c:1688-1701 | the lowest tag a synchronous waiter owns from a given one on, none skipped |
| `TagTable.Table.AnyOutstandingOnFid` | kernel/9p_session.c:288-301 | true exactly when a live op in flight names the fid |
| `TagTable.Table.ChangeOwner` | kernel/9p_session.c:1678-1686 | sets the owner; the sync counter follows |
| `TagTable.Table.BecomeAsync` | kernel/9p_session.c:1703-1709 | marks an op async once; sync and async counters follow |
| `TagTable.Table.Walk` | kernel/9p_session.c:422-457 | the flat walk on the lowest free tag, exactly when every gate passes, or nothing |
| `TagTable.Table.WalkGetattr` | kernel/9p_session.c:463-494 | the flat Twalkgetattr on the lowest free tag, with a walk's gates exactly when it names a destination, or nothing |
| `TagTable.Table.PlainOp` | kernel/9p_session.c:689-748 | the flat op on the lowest free tag, exactly when its fid is bound and, for an op that must have the fid alone, idle |
| `TagTable.Table.Clunk` | kernel/9p_session.c:501-523 | the flat clunk on the lowest free tag, exactly when every gate passes, or nothing |
| `TagTable.Table.Flush` | kernel/9p_session.c:530-560 | the flat Tflush on the lowest free tag, exactly when the victim may be flushed, or nothing; on a table whose session keeps its invariant only memory can refuse it |
| `TagTable.Table.Retract` | kernel/9p_session.c:596-605 | the flat take-back of a never-sent op |
| `TagTable.Table.Unstage` | kernel/9p_session.c:643-656 | the flat unstage of a never-sent Tflush |
| `TagTable.Table.Rollback` | kernel/9p_session.c:658-666 | the flat rollback of a Tflush whose owner is gone |
| `TagTable.Table.Abort` | kernel/9p_session.c:578-586 | the flat reclaim of a never-sent tag |
| `TagTable.Table.Abandon` | kernel/9p_session.c:632-639 | the flat mark of an op nobody waits for |
| `TagTable.Table.OwnerWaits` | kernel/9p_session.c:674-681 | the flat mark of an owner that waits on its flush |
| `TagTable.Table.HonourLate` | kernel/9p_session.c:1231-1252 | the flat handling of a late walk reply |
| `TagTable.Table.ApplyReply` | kernel/9p_session.c:1256-1543 | the flat application of a reply to its op |
| `TagTable.Table.DispatchReply` | kernel/9p_session.c:1545-1592 | the flat dispatch of any reply |
| `TagTable.Table.DispatchFlushedReply` | kernel/9p_session.c:1594-1615 | the flat dispatch to an owner that waits on its flush |
| `ClientTheorems.StepKeeps` | kernel/9p_client.c:474-611 | every build, send, take-back, flush, abandon, server and demux step keeps the invariant of session, wire, registrations and fates |
| `ClientTheorems.FreeTagsAreQuiet` | kernel/9p_session.c:196-253 | over every run a free or never-sent tag has no request and no reply anywhere in flight, one message per tag, each the request of the op holding its tag |
| `ClientTheorems.RepliesReachTheirOp` | kernel/9p_client.c:474-611 | over every run a demux ends an rpc as answered exactly when the frame answers its own op, and as cancelled exactly when it is the Rflush naming its tag |
| `ClientTheorems.ConformingRepliesAreTaken` | kernel/9p_client.c:488-611 | over every run no reply of a conforming server kills the session; the one unaccounted frame is a Tflush answered with an error |
| `ClientTheorems.FatesAreFinal` | kernel/9p_client.c:1101-1146 | over every run an rpc once answered, cancelled, left, never sent or dead keeps that fate and is never registered again |
| `ClientTheorems.FlushedTagIsReserved` | kernel/9p_session.c:1560-1592 | over every run, from the moment a Tflush is on the wire its victim's tag stays with the same op for as long as no Rflush naming it is read, through late replies, an error in answer to the Tflush, the owner leaving and the session's death |
| `ClientTheorems.RflushFreesTags` | kernel/9p_session.c:1350-1376 | over every run the reading of an Rflush frees exactly its own tag and its victim's |
| `ClientTheorems.StagedFlushIsTakenBack` | kernel/9p_client.c:459-472 | a reply landing while the Tflush is only staged answers the op, takes the Tflush back and frees both tags |
| `ClientTheorems.CallbacksFireOnce` | kernel/9p_client.c:1415-1504 | over every run an async op has run its callback exactly once if it ended other than by an abandon, else not at all |
| `ClientTheorems.NoCallbackAfterAbandon` | kernel/9p_client.c:1612-1674 | no callback runs after an abandon returned |
| `ClientTheorems.FidsNeverOverrun` | kernel/9p_session.c:105-138 | over every run bound plus reserved fits the table and no fid an op may bind is bound or claimed twice |
| `ClientFids.OpIsAsBuilt` | kernel/9p_session.c:422-748 | over every run a registered rpc holds the tag it was built on, and the entry there is the op it was built for: same kind, fids and names |
| `ClientFids.BusyMeansWanted` | kernel/9p_session.c:288-301 | over every run on a live session a fid is busy exactly while an op that a thread waits for, or a Tclunk in flight, names it |
| `ClientFids.ExclusiveIsAlone` | kernel/9p_session.c:422-523 | a Tclunk, a walk to a new fid or an exclusive op is sent only when no waiting op names the fid |
| `ClientFids.OpsActOnBoundFids` | kernel/9p_session.c:422-748 | an op acts only on a bound fid, a Tclunk never on the root, and a walk's destination was never handed out before |
| `ClientFids.AdmittedWhen` | kernel/9p_session.c:422-748 | on a live session an op is admitted exactly when there is a tag, a place among the ops and a fid slot for it and its fids are bound, free or unwanted as it needs |
| `ClientFids.FateHasCause` | kernel/9p_client.c:474-611 | over every run a registered rpc gets each fate exactly by its cause: its own reply, the Rflush naming its tag, its owner leaving, its frame taken back, the death of the session |
| `ClientFids.SomethingServes` | kernel/9p_client.c:537-611 | over every run, while an op is on the wire, the wire, the server or a reader can take a step |
| `ClientOwed.WaitersAreOwed` | kernel/9p_client.c:537-611 | over every run an rpc whose frame is on the wire is owed its end: its request or reply is in flight, or the Rflush cancelling it is |
| `ClientWire.AnswerKeepsWire` | kernel/9p_session.c:1358-1367 | a server that answers once, and never answers what it flushed, keeps the order of flushes on the wire |
| `ClientLocal.BuildKeeps` | kernel/9p_client.c:1182-1260 | building and registering an op keeps the invariant |
| `ClientLocal.TakeBackKeeps` | kernel/9p_client.c:1152-1166 | taking back a frame that never left keeps the invariant |
| `ClientLocal.StageKeeps` | kernel/9p_client.c:1101-1126 | staging the Tflush of a noted op keeps the invariant |
| `ClientLocal.RetractKeeps` | kernel/9p_client.c:1128-1139 | taking a staged Tflush back keeps the invariant |
| `ClientLocal.LeaveKeeps` | kernel/9p_client.c:1340-1402 | a dying owner or an abandon, flushed, rolled back or without a tag, keeps the invariant |
| `ClientLocal.MarkDeadKeeps` | kernel/9p_client.c:216-251 | session death completes every async op and keeps the invariant |
| `ClientDemux.DemuxOutcome` | kernel/9p_client.c:474-611 | what reading a reply leaves, in each of the five ways it can be taken: plain, cancelling, honoured, late, or taking a staged Tflush back |
| `ClientDemux.DemuxKeeps` | kernel/9p_client.c:474-611 | reading a reply keeps the invariant |
| `ReaderRole.HandoffForm` | kernel/9p_client.c:262-296 | a hand-off designates an eligible op whenever there is one and else wakes the role waiters |
| `ReaderRole.StepKeeps` | kernel/9p_client.c:656-959 | every election, sleep, send park, pump, stop, death, note and departure keeps the role invariant |
| `ReaderRole.RoleNeverLost` | kernel/9p_client.c:656-846 | over every run, with the role free on a live session, an op asleep with no answer is never without a designated op that is awake or about to wake |
| `ReaderRole.SendersNeverStuck` | kernel/9p_client.c:869-959 | over every run, with the role free on a live session, no sender is parked on the current progress generation |
| `ReaderRole.HooksNeverLost` | kernel/9p_client.c:1562-1593 | over every run, with the role free on a live session, a hooked role waiter has been woken or a designated op is coming |
| `ReaderRole.OneReader` | kernel/9p_client.c:700-765 | one thread reads at a time, and only while it holds the role |
| `ReaderRole.LeavesForCause` | kernel/9p_client.c:656-846 | a thread leaves exactly by giving its send up, dying, or coming to the top of its wait answered or on a dead session, and is answered exactly by the demux of a frame for it |
| `ReaderRole.ThreadsMove` | kernel/9p_client.c:656-959 | no thread is ever without a step of its own, and an answered one at the top of its wait leaves by it |
| `ReaderRole.ProgressReachesSenders` | kernel/9p_client.c:869-959 | over every run a frame read or the role given up leaves no sender parked on the current generation |
| `ReaderRole.DeathWakesHooks` | kernel/9p_client.c:216-252 | over every run a dead session has no waiter for the role unwoken |
| `ClientLive.PartsOfStep` | kernel/9p_client.c:537-959 | every step of the joint machine of ops and threads is, on each side, a step of that side's own machine or nothing |
| `ClientLive.StepLinks` | kernel/9p_client.c:656-959 | every joint step keeps the two sides in agreement: a thread with no answer is registered for its op, an op with a thread has that thread waiting, and a thread that waits has its frame on the wire |
| `ClientLive.StepKeeps` | kernel/9p_client.c:537-959 | every joint step keeps the invariants of both machines and their agreement |
| `ClientLive.WaitersAreServed` | kernel/9p_client.c:656-846 | over every run, on a live session, a thread asleep with no answer is registered for an op owed its end, and a pump, a holder of the role or a designated thread reads or is about to |
| `ClientLive.ReadersWaitToo` | kernel/9p_client.c:262-296 | over every run a designated thread is itself registered for an op that is owed its end |
| `Transport.ParseUnique` | kernel/9p_client.c:346-374 | whole frames followed by an incomplete one are exactly what their bytes parse to |
| `Transport.BuiltIsFramed` | kernel/9p_wire.c:247-258 | every message the builders write announces its own length |
| `Transport.ParsedIsFramed` | kernel/9p_wire.c:271-283 | every message a parser accepts announces its own length |
| `Transport.FrameArrives` | kernel/9p_client.c:346-374 | however a frame is cut up, a reader given its bytes reads exactly that frame |
| `Transport.ReadResumes` | kernel/9p_client.c:346-374 | a read cut short and resumed ends as one given all the bytes at once |
| `Transport.Receiver.Received` | kernel/9p_client.c:337-374 | the frames delivered and the bytes kept are the parse of the bytes consumed, however they arrived |
| `Transport.Receiver.ReadFrame` | kernel/9p_client.c:346-374 | no byte is lost or repeated; a whole frame is delivered once, an interrupted one is kept for the next reader, and how the read ends is decided by the bytes in hand and those received |
| `Transport.Sender.DoSend` | kernel/9p_transport.c:68-98 | each push takes the next bytes of the frame: the wire gains the whole frame exactly when the pushes complete it, nothing when the first is refused, and otherwise a proper prefix on a transport left closed |
| `Transport.Sender.TransportSend` | kernel/9p_transport.c:176-194 | as DoSend for frames whose header announces their length, anything else refused with nothing sent; the wire stays whole frames, with a fragment after them only once the transport has failed |
| `Transport.Sender.WireParses` | kernel/9p_transport.c:176-194 | a receiver parses the wire to exactly the frames sent, and takes no fragment for a frame |
| `Transport.Sender.SendFlow` | kernel/9p_client.c:972-1042 | success means exactly the bytes built at entry went out, once and as one frame; never-sent means none did; a break leaves none or a proper prefix on a closed transport; although peers overwrite the shared buffer at every lock drop |
| `Bytes.NatOfLe` | kernel/9p_wire.c:113-128 | a value that fits its width comes back from its little-endian bytes |
| `Bytes.LeOfNat` | kernel/9p_wire.c:176-195 | bytes come back from the value they spell |
| `Bytes.LeAt` | kernel/9p_wire.c:100-128 | byte i of an integer has weight 256 to the i: least significant first |
| `Wire.Pack` | kernel/9p_wire.c:100-128 | writes exactly the little-endian bytes of the value, or nothing when they do not fit |
| `Wire.Unpack` | kernel/9p_wire.c:162-195 | reads exactly the value of the bytes, or refuses a short string |
| `Wire.DecodeEncode` | kernel/9p_wire.c:130-143 | for every layout of fields, decoding what was encoded gives the values back |
| `Wire.EncodeDecode` | kernel/9p_wire.c:197-211 | for every layout, what was decoded re-encodes to the bytes it came from |
| `Wire.StrBack` | kernel/9p_wire.c:145-157 | a string its length field can count comes back from its bytes, whatever follows |
| `Wire.StrExact` | kernel/9p_wire.c:213-222 | a string that is read is the one those bytes encode |
| `Wire.PackStr` | kernel/9p_wire.c:145-157 | writes exactly the encoded string, or nothing when it is too long for its length field or the buffer |
| `Wire.UnpackStr` | kernel/9p_wire.c:213-222 | reads exactly the string at the offset, or refuses one that is not all there |
| `Wire.HeaderExact` | kernel/9p_wire.c:271-283 | an accepted header is the one the builders write for that message |
| `Wire.HeaderBytes` | kernel/9p_wire.c:247-258 | the header is four bytes of size, one of type and two of tag, least significant first |
| `Wire.StrBytes` | kernel/9p_wire.c:145-157 | a string is its length in two bytes, least significant first, and then its bytes |
| `Wire.FieldAt` | kernel/9p_wire.c:165-211 | each decoded field is the little-endian value of its own bytes |
| `Wire.AttrBytes` | kernel/9p_wire.c:677-730 | each attribute is read from its own bytes of the body |
| `Wire.GeometryBytes` | kernel/9p_wire.c:1312-1325 | share id, ring size and ring entries are read from bytes 0, 8 and 12 of an Rweft |
| `Wire.DriveBytes` | kernel/9p_wire.c:1353-1367 | fid, offset, length and direction are read from bytes 0, 4, 8 and 12 of a Tweftio |
| `Wire.BuildFixed` | kernel/9p_wire.c:1275-1283 | builds exactly the encoded message of a fixed layout, or refuses a short buffer |
| `Wire.ParseFixed` | kernel/9p_wire.c:1285-1297 | parses exactly the messages of a fixed layout |
| `Wire.ParseBuild` | kernel/9p_wire.c:1275-1390 | for every fixed layout, the shared-memory messages among them, parsing undoes building |
| `Wire.BuildParse` | kernel/9p_wire.c:732-742 | for every fixed layout, Rgetattr among them, a strict parser accepts only what its result rebuilds |
| `Wire.CountedExact` | kernel/9p_wire.c:412-436 | a counted reply that parses re-encodes identically from what the parser returns, within both bounds |
| `Wire.CountedBack` | kernel/9p_wire.c:412-436 | every counted reply within both bounds is accepted |
| `Wire.ParseRwalk` | kernel/9p_wire.c:412-436 | the moving-offset parser computes the strict parse of an Rwalk |
| `Wire.ParseRwalkgetattr` | kernel/9p_wire.c:783-814 | accepts exactly the strict Rwalkgetattr replies, and each qid returned is the one inside its attribute body |
| `Wire.QidOfAttr` | kernel/9p_wire.c:677-690 | the qid eight bytes into an attribute body is the qid its parser returns |
| `CloserInv.StepKeeps` | kernel/9p_attach.c:568-947 | every hand-off, spawn, loop top, send, unref, retirement and reap keeps the pool invariant |
| `CloserTheorems.ACloserIsThere` | kernel/9p_attach.c:824-871 | at every step a closer is idle or one is coming unless a spawn gave up; a sleeping closer is the one the idle slot names, kicked if a session waits |
| `CloserTheorems.StuckSinceGivingUp` | kernel/9p_attach.c:586-940 | over every run a session waits with no closer idle or coming only after a spawn gave up, and only until the next hand-off that finds none idle, which starts another |
| `CloserTheorems.ServedByOne` | kernel/9p_attach.c:568-584 | a session with entries is exactly one of run-queued and busy, and busy exactly when one closer serves it |
| `CloserTheorems.AttemptedInOrder` | kernel/9p_attach.c:730-773 | entries are attempted first in, first out, each once; the pending count is those queued or in hand |
| `CloserTheorems.OutlivesItsEntries` | kernel/9p_attach.c:305-322 | a session is never destroyed while an entry of it is queued or in hand |
| `CloserTheorems.NothingMissing` | kernel/9p_attach.c:730-773 | no closer finds its queue, count or reference missing: every step it takes for granted is enabled |
| `CloserTheorems.FreedOnce` | kernel/9p_attach.c:777-805 | a retired closer is freed once, only after its terminal mark |
| `CloserTheorems.AcceptsEach` | kernel/9p_attach.c:586-660 | over every run the entries accepted for a session are as many as were handed over for it |
| `CloserTheorems.ServedInTurn` | kernel/9p_attach.c:824-870 | over every run sessions get their closer in the order in which they came to need one |
| `CloserTheorems.GivesUpAfterThree` | kernel/9p_attach.c:904-940 | while a session waits and no closer is idle a spawn is given up only after three failures |
| `CloserTheorems.WakeServes` | kernel/9p_attach.c:824-870 | a closer that wakes while a session waits takes the first in line |
| `CloserTheorems.EntryIsAttempted` | kernel/9p_attach.c:724-775 | the entry at the head of a queue is attempted in three steps of its closer, none of which can be refused |
| `CowMemory.InstallKeeps` | kernel/cow.c:29-37 | establishing a fresh page in a slot keeps every share count equal to the slots naming the page |
| `CowMemory.GetKeeps` | kernel/cow.c:39-51 | a second slot with its share keeps the counts exact, and the count is never found unestablished |
| `CowMemory.PutKeeps` | kernel/cow.c:53-61 | emptying a slot keeps the counts exact and frees the page exactly when it was the last |
| `CowMemory.SlotsDecide` | kernel/burrow.c:816-831 | the slots decide which pages are free and every held page's count |
| `PageCounter.ActsOneAtATime` | kernel/addrspace.c:458-500 | however the compare-and-swap loops of any threads interleave, counter and answers are those of the same operations run one at a time: no update lost, no decision stale |
| `PageCounter.NeverOverBudget` | kernel/addrspace.c:458-490 | over every run racing charges never take the counter past the budget unless an exempt one landed |
| `PageCounter.AnswersAreRight` | kernel/addrspace.c:458-501 | over every run an uncharge succeeds and a charge is taken exactly when, on what was held then, the counter can express it and the budget allows it or it is exempt |
| `PageCounter.EachAnswersOnce` | kernel/addrspace.c:458-501 | over every run the operations begun are those answered and those still at it |
| `PageCounter.CountIsBalance` | kernel/addrspace.c:492-500 | over every run in which no more is returned than was taken, the counter is exactly what is still held |
| `CowMemory.AddrSpace.Charge` | kernel/addrspace.c:458-490 | charges exactly when the one-at-a-time meaning of the loop admits it |
| `CowMemory.Kernel.TakeSlot` | kernel/burrow.c:78-81 | empties one slot through the share count |
| `CowMemory.Kernel.LazyPopulate` | kernel/burrow.c:483-563 | fills exactly the run and charges for it, or leaves slots, free pages, counts and charge as found; succeeds only when the run is empty and in a lazy Burrow, pages are left and the space can pay, and always then unless an allocation is refused |
| `CowMemory.Kernel.ReleaseLazyRange` | kernel/burrow.c:1364-1391 | empties exactly the resident slots behind the range and refunds as many |
| `CowMemory.Kernel.FreeInternal` | kernel/burrow.c:798-831 | destroys a Burrow nothing holds, emptying exactly its slots |
| `CowMemory.Kernel.UnrefHandle` | kernel/burrow.c:1039-1063 | drops a handle and frees exactly when both counts reach zero, as in the life of one Burrow |
| `CowMemory.Kernel.ReleaseMapping` | kernel/burrow.c:1076-1101 | drops a mapping and reports a free owed exactly when both counts reach zero, as in the life of one Burrow |
| `CowMemory.Kernel.CloneCow` | kernel/burrow.c:568-633 | the clone's slots name exactly the source's pages, one share each, or nothing changed |
| `CowFork.DropTranslations` | kernel/addrspace.c:313-342 | exactly the translations inside the parent's copy-on-write ranges go |
| `CowFork.CloneOneVma` | kernel/addrspace.c:178-297 | the child gains exactly the counterpart of the mapping, or the fork stays one that can be discarded |
| `CowFork.MintAndMap` | kernel/addrspace.c:200-285 | mints, parks and maps one clone, or takes all of it back |
| `CowFork.BuildChild` | kernel/addrspace.c:344-347 | builds the child only after the parent's translations are gone, and charges it for exactly the pages of its clones |
| `CowFork.ClearCursors` | kernel/addrspace.c:349-354 | retires every cursor on every outcome |
| `CowFork.FlagParent` | kernel/addrspace.c:356-366 | marks exactly the parent's lazy mappings |
| `CowFork.Drain` | kernel/vma.c:943-980 | drops every mapping of the child and collects each clone that owes a free, once |
| `CowFork.FreeDeferred` | kernel/burrow.c:981-990 | frees what the drain collected, leaving Burrows and slots as the fork found them |
| `CowFork.AddrspaceClone` | kernel/addrspace.c:299-378 | a successful fork gives the child a mapping for each of the parent's that shows the same pages at the same addresses, isolated from the parent's, over one clone per lazy source, charged exactly and within budget; it succeeds only when every mapping can be reproduced and paid for, and always then unless an allocation is refused; a failed fork leaves Burrows, slots, free pages, counts and parent flags as found; either way exactly the copy-on-write ranges lose their translations |
| `CowFork.ChildShowsSame` | kernel/addrspace.c:255-270 | the child's mapping covers the same addresses with the same rights, and each address names the byte, and the page where there is one, that the parent's named when the fork began |
| `CowFork.ForkShowsSame` | kernel/addrspace.c:299-378 | after a fork every mapping of parent and child shows what it showed the parent before, and neither can write what the other reads: copy-on-write on both sides over Burrows of their own, or never writable |
| `CowFork.ForkShares` | kernel/addrspace.c:200-219 | a fork adds to a page's count one share for each slot naming it in each distinct cloned Burrow, however many pieces map it |
| `CowFork.CloneForEachSource` | kernel/addrspace.c:200-266 | the child's copy-on-write Burrows are exactly the clones, their origins exactly the parent's lazy Burrows, one clone each however many pieces map it |
| `Decommit.Admit` | kernel/burrow.c:1407-1417 | admits exactly a range every address of which is mapped, by plain lazy mappings only; answers ENOMEM exactly when a hole comes before any other kind of mapping |
| `Decommit.RangeIsRun` | kernel/burrow.c:1369-1372 | the slots that addresses of an aligned part of a mapping name are exactly one run of its Burrow |
| `Decommit.UninstallRange` | kernel/vma.c:551-565 | over a covered range exactly the translations of the range go, whatever mappings it spans |
| `Decommit.ReleaseAll` | kernel/burrow.c:1427-1432 | empties exactly the slots that addresses of the range name through any mapping and refunds each once, though mappings may share a Burrow |
| `Decommit.DecommitRange` | kernel/burrow.c:1398-1434 | succeeds exactly for a well-formed range covered by plain lazy mappings, and tells a hole from a wrong kind; a refusal changes nothing; success drops exactly the translations of the range, empties exactly the slots it names and refunds that many pages |
| `BurrowLife.FreedOnce` | kernel/burrow.c:854-1101 | over every interleaving of takes and drops the backing is freed exactly once, by the drop that brings both counts to zero, after which nothing can happen |
| `BurrowLife.RefundsAreOwed` | kernel/burrow.c:1001-1101 | over every run a refund goes to the space whose record it is and consumes it; no space gets back more than it paid |
| `BurrowLife.DropSettles` | kernel/burrow.c:1014-1101 | a drop gives each space exactly what stands recorded for it when the drop settles and that space makes it, and nothing otherwise |
| `BurrowLife.NothingLeaks` | kernel/burrow.c:1001-1101 | over every run whose records are made one at a time, what a space paid is what it got back and what still stands for it |
| `BurrowLife.FreedIsRefunded` | kernel/burrow.c:1001-1101 | when the drop that frees is made by whoever has the standing record, every space has got back all it paid |
| `BurrowLife.CountsAreEvents` | kernel/burrow.c:854-1101 | over every run the counts are the takes less the drops, the payments those recorded, and a Burrow is shared out from the first sharing on |
| `BurrowLife.RecordStands` | kernel/burrow.c:1001-1009 | a payment stands for the space that made it, in place of any other, until a drop settles it |
| `PollArms.StepKeeps` | kernel/dev9p_poll.c:392-700 | every register, arm, widening, completion, reap, collection, flush, free and close keeps the registry invariant |
| `PollArms.ArmedIsCovered` | kernel/dev9p_poll.c:392-459 | a poller told it is armed and not yet woken has an arm, linked or being reaped, that is answered or asks for all its events |
| `PollArms.RefsAreHeld` | kernel/dev9p_poll.c:187-237 | a poll-state's references are its file's and one per arm not yet freed; the newest arm is in the registry |
| `PollArms.CloseLeavesNoRead` | kernel/dev9p_poll.c:535-700 | when a close drops the poll-state, and ever after, every arm of the file has been answered or flushed at the client or was never sent, so none can refuse the Tclunk |
| `PollArms.OneOwner` | kernel/dev9p_poll.c:241-248 | an arm leaves the registry once: by reap, collection, widening or close |
| `PollArms.HookSince` | kernel/dev9p_poll.c:392-468 | over every run a hook stands for one registration, which asked for its events; its poller was told it is armed exactly when it reused or submitted an arm since, and woken exactly when an answered arm was walked since |
| `PollArms.MasksAreAsked` | kernel/dev9p_poll.c:392-468 | over every run an arm reads for no event that no poller asked for |
| `PollArms.MarksAreTrue` | kernel/dev9p_poll.c:307-318 | over every run an arm is marked answered exactly when its read was answered, and flushed exactly when it was given up at the client |
| `PollArms.AnswerWakes` | kernel/dev9p_poll.c:536-640 | an answered arm in the registry can be reaped, walked and freed, and the walk wakes every hook of its poll-state |
| `PollArms.FreshCovers` | kernel/dev9p_poll.c:408-440 | a widening covers the poller that asked and every poller the old arm covered |
| `ConsoleInput.Ring.Push` | kernel/cons.c:1183-1195 | appends one byte exactly when there is room |
| `ConsoleInput.Console.RxAccept` | kernel/cons.c:1289-1410 | takes a byte exactly when what it pushes fits, in which case the fold of the history takes it too; a refusal leaves ring, line and mode unchanged |
| `ConsoleInput.Console.InputRead` | kernel/cons.c:2205-2218 | hands out the front of the stream; what was read and what is ready stay the fold of what was accepted |
| `ConsoleInput.Console.SetTermios` | kernel/cons.c:2809-2826 | a mode write that leaves canonical mode delivers exactly as much of the pending line as the ring has room for, and counts the rest lost |
| `ConsoleInput.DrainedAdmits` | kernel/cons.c:69-72 | any byte is accepted once the ring has drained |
| `ConsoleInput.WholeLines` | kernel/cons.c:1334-1388 | whatever came before, bytes typed in canonical mode add nothing to the stream or add bytes that end in a newline |
| `ConsoleInput.LineIsBounded` | kernel/cons.c:1334-1388 | over every history of bytes and mode writes the pending line is bounded, holds no newline and is empty outside canonical mode |
| `ConsoleInput.EraseUndoes` | kernel/cons.c:1336-1346 | after any history, either erase byte right after a character taken into the line leaves no trace of either |
| `ConsoleInput.TypedJoinsLine` | kernel/cons.c:1374-1386 | after any history, characters typed in canonical mode join the line, as many as it has room for, the others being counted as lost |
| `ConsoleInput.LineComesOut` | kernel/cons.c:1347-1372 | after any history, characters and Enter typed in canonical mode add to the stream exactly what was pending, the characters and the newline |
| `ConsoleInput.RawComesOut` | kernel/cons.c:1388-1400 | after any history, a byte typed outside canonical mode adds to the stream exactly itself, translated |
| `ConsoleInput.InterruptDiscards` | kernel/cons.c:1319-1334 | an interrupt is raised once and discards what was pending: the line typed after it comes out alone |
| `ConsoleInput.ModeKeepsLine` | kernel/cons.c:1267-1284 | a mode write that stays canonical keeps the pending line; one that leaves delivers it raw |
| `ConsoleInput.RefusedForRoom` | kernel/cons.c:1357-1396 | a byte is turned away exactly when what it would add to the stream does not fit the ring |
| `ConsoleInput.RowShowsLine` | kernel/cons.c:1336-1386 | with echo on, what stands after the prompt is always the pending line, and an erase never touches the prompt |
| `ConsoleOutput.StageChunk` | kernel/cons.c:2265-2283 | stages exactly the cooked form of the longest prefix that fits |
| `ConsoleOutput.CutIsExact` | kernel/cons.c:2339-2345 | a cut after a newline re-stages to exactly the cut |
| `ConsoleOutput.CookMeans` | kernel/cons.c:2251-2283 | output goes out as it is, but for a newline under ONLCR, which goes out behind a CR |
| `ConsoleOutput.AcceptMeans` | kernel/cons.c:1009-1046 | the sink takes as much as there was room for, first and later, and a note counts exactly when it ends the waits with bytes to go |
| `ConsoleOutput.ShortAccept` | kernel/cons.c:2347-2352 | a short accept ends after some input prefix, or between a CR and its NL |
| `ConsoleOutput.CountedAsNothing` | kernel/cons.c:2347-2363 | a short accept counts as nothing written exactly when it is of no byte, or of the CR of a leading newline |
| `ConsoleOutput.LoneReturnPossible` | kernel/cons.c:2347-2363 | an output can meet EINTR after bytes went out exactly when it starts with a newline and ONLCR is set |
| `ConsoleOutput.Terminal.InterruptedNewline` | kernel/cons.c:2347-2363 | a newline under ONLCR, room for one byte, then a note: EINTR after the CR went out |
| `ConsoleOutput.Terminal.EmitBulkWait` | kernel/cons.c:1009-1046 | the sink takes exactly the accepted prefix, and how much and whether a note ended it follow from the room and the wakes |
| `ConsoleOutput.Terminal.NextChunk` | kernel/cons.c:2338-2346 | the chunk is all that is left, or ends in a newline, or holds none and fills the stage |
| `ConsoleOutput.Terminal.OutputWrite` | kernel/cons.c:2285-2364 | a count r means the sink took the translation of the first r bytes, plus at most a lone CR when byte r is a newline and the sink cut short; EINTR exactly when a note ends the first chunk before its first byte or between the CR and NL of a leading newline, and only in the second case has anything gone out |

## Left out

- The handshake (Tversion, Tattach) and the closed states: the client starts with its root bound.
- The per-operation wrappers and the repetitive send bodies: walk, clunk, flush, fid-exclusive and concurrent ops stand for the rest.
- The Larder cache, the `mutates` mark, statistics, the /ctl registry and diagnostic text.
- The async share limit: an async submission may be refused at any time, with its callback.
- Fairness and real time: back-off lengths, deadlines, the eventual reply; the safety invariants behind them are proved.
- Close jobs of the closer pool and the retries of one send: an entry's attempt is one step.
- Snapshots of the poll core and the kernel thread's pump and park: only arms are modelled, and a pass over the registry is a run of per-arm steps.
- The page-table, TLB and device side of address spaces, hardware Burrow kinds, and the fault path that breaks a share; phase 1 of a fork is kept as removing addresses from a set.
- The pagemap's node pages and their charge: a slot map stands for the pagemap, so a fork charges the child for resident pages only.
- The 32-bit saturation of a share count, which the source treats as an alarm.
- The console's trusted episode, the secure-attention BREAK, the UART and its interrupts, the drain mirror, winsize and beacon text.
- Wire formats other than strings, the fixed-layout messages, Rwalk and Rwalkgetattr.
- CowMemory.AddrSpace.Charge: is one step; that its retry loop amounts to one is proved apart, in PageCounter. The high-water mark is not modelled.
- CowMemory.Kernel.LazyPopulate: does not charge the pagemap's node pages, because a slot map stands for the pagemap.
- CowFork.CloneOneVma: the child's list is built by appending, because the parent's is sorted and walked in order; the sorted insert and its overlap refusal are a nondeterministic refusal.
- CowMemory.Kernel.CloneCow: whether an allocation is refused is nondeterministic; `plenty` says that none is.
- CowFork.AddrspaceClone: the child's charge is of resident pages; the pagemap's nodes are not in it.
- Transport.Receiver.ReadFrame: what each receive brings is a list given by the caller; a list that ends early stands for a failure.
- Transport.Sender.SendFlow: what each round meets is a list of any length given by the caller; past its end the thread counts as dying, so nothing is said about how long it waits.
- ConsoleOutput.Terminal.EmitBulkWait: what each park meets is a list given by the caller; a list that ends early stands for a timeout.
- ConsoleOutput.Terminal.OutputWrite: starts with the writer role held; the waits for the role and for an episode to end, which may answer EINTR with nothing written, are not modelled.
- ClientTheorems.StepKeeps: a server that answers a request twice, or answers a flushed one after its Rflush, is outside the model.
- ReaderRole.StepKeeps: which frame a reader demuxes is not part of this machine, only which ops it answers; ClientLive ties the answers to the frame.
- ClientLive.WaitersAreServed: is about safety; that the server answers and that the reader is scheduled is not claimed.
- Decommit.DecommitRange: refunds resident pages; the pagemap nodes a release empties are not in the charge, because a slot map stands for the pagemap.
