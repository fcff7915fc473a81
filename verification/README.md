# A verified model of opendnp3

Dafny models of the parts of opendnp3 whose correctness spans many calls, threads or layers, with proofs of what
every run of them does.

- **Shutdown.** `ResourceManager.dfy` is the table that keeps channels or stacks. `ShutdownProtocol.dfy` interleaves the
  critical sections of the root manager and of the manager of every channel with the closures queued on strands, for any
  number of threads, channels and stacks. `ShutdownInvariant.dfy` holds the invariant of that step system and
  `ShutdownTheorems.dfy` what follows: where each resource can be, in which order a channel and its stacks are taken
  down, exactly when everything can come to rest, and exactly when adding a stack deadlocks. `ShutdownAnswers.dfy` says what
  becomes of a stack by the answer its channel gives. `DNP3Manager.dfy` is the root object's life.
- **Sessions.** `SessionRegistry.dfy` is the registry of reconnecting outstations, measured against what the history of
  callbacks says should become of each session.
- **Link layer.** `Crc.dfy` proves the table-driven check equal to the bit-serial register and proves which errors it
  catches. `LinkFrame.dfy` is the frame codec, on values and on buffers. `LinkStream.dfy` says which frames a stream
  holds. `LinkParser.dfy` is the incremental parser with its shifting buffer and in-place transfer, proved to deliver
  those frames however the stream is cut into reads. `LinkSecondary.dfy` is the station that receives them, with its
  frame count bit.
- **Transport.** `SequenceNum.dfy`, `Transport.dfy` (segmentation, reassembly) and `TransportLoss.dfy` (loss,
  repetition and reordering against a receiver that cannot be confused). `EndToEnd.dfy` joins both layers.
- **Hex dumps.** `HexText.dfy`, `HexDump.dfy`, `HexDumpRoundTrip.dfy` and `HexDumpFailures.dfy` are the reader of
  `extract_dnp3.py`: what it makes of every input, its round trip, and exactly which inputs make it raise.
- **Bindings.** `Replay.dfy` (change sets), `Commands.dfy` (command sets), `GilSafeShared.dfy` (the Python pointer
  wrapper) and `Conversions.dfy` (times, octet strings, headers).

`dafny verify dfyconfig.toml` checks the whole project.

## Where the code differs from what it promises

- The comment above the deleter in `python/src/channel.cpp` says the Python reference is always dropped with the GIL held.
  That holds exactly when the interpreter is still up when the last copy goes (`GilSafeShared.ReleasedOnce`,
  `GilSafeShared.LateReleaseHasNoGil`).
- No thread should wait for a strand while it holds a manager's mutex. `DNP3Channel::AddStack` does: its `create` runs
  inside `Bind`, under the lock of the channel's stacks, and waits for a closure on the channel's strand. It can never
  return exactly when a closure that needs that lock is queued ahead of its own, a stack's detach closure or the channel's
  `ShutdownImpl`, or when every thread of the pool is lost to such closures of other channels
  (`ShutdownTheorems.AddStackReturnsIff`). All three happen (`ShutdownTheorems.DetachMeetsAddStack`,
  `ShutdownTheorems.ShutdownMeetsAddStack`, `ShutdownTheorems.StarvedByAnother`), and the second hangs a Shutdown of the
  root manager as well. Without new calls everything can come to rest exactly when no AddStack is stuck behind such a
  closure (`ShutdownTheorems.ComesToRestIff`), and shutdown always ends when none is under way
  (`ShutdownTheorems.ShutdownEnds`), whatever the size of the pool.
- Confirmed user data may be sent to a broadcast address, without a reply. The secondary then waits for the end of a reply
  it never sends, and ignores resets, tests, status requests and confirmed data until the link goes down
  (`LinkSecondary.DeafIff`, `LinkSecondary.DeafForever`). Two frames to a new station are enough
  (`LinkSecondary.DeafIsReached`).
- A session may be disabled and enabled again while the channel stays open. The stream of frames goes on, but the
  transport function forgets the fragment in hand: a fragment arrives exactly when that does not happen between its first
  segment and its last (`EndToEnd.FragmentArrives`, `EndToEnd.LostBetweenSegments`).
- `OctetData.h` documents that a buffer longer than 255 octets keeps its first 255. `OctetData::Set` does that; the
  constructor cuts the length to eight bits first and keeps a different number of octets unless the condition of
  `Conversions.ConstructorKeepsIff` holds; of 256 octets it keeps none (`Conversions.AllAreCut`).
- A `DNPTime` before 1970 does not survive the way to native code and back (`Conversions.DateSurvivesIff`,
  `Conversions.EarlyDateIsLost`).
- Six-bit transport numbers cannot tell segments 64 places apart: `TransportLoss.TogetherIff` says exactly when a run goes
  wrong, and `TransportLoss.SequenceWrapMixes` shows a fragment delivered that was never sent.
- `extract_from_pcap` raises on exactly the inputs of `HexDumpFailures.ExtractFailsIff`; `HexDumpFailures.FailureExample` is
  one.
- A `ChangeSet` replayed into itself throws unless it is empty (`Replay.ChangeSet.ApplyTo`).

## What is taken as given

- A strand runs its closures one at a time in the order they were posted, on a pool of at least one thread; a closure that
  has started and waits for a mutex keeps its thread. `block_until_and_flush` of exe4cpp, which is
  not part of this model, returns once the closure and what that closure queued have run; here the closure posts a
  marker the caller waits for. Called on that strand, as `ShutdownImpl` calls it for every stack, it runs the closure in
  place.
- Every channel has a strand of its own. `create` returns a new object and does not take the manager's lock. AddStack is
  called on a channel that exists and whose ShutdownImpl has not ended, and one that finds the flag set gets nothing. The
  calls come from threads outside the pool. Work is posted for a stack only while it is registered with the io handler.
- A session id names one connection, as `IListenCallbacks.cs` says, and every accepted session is a new object.
- `List<T>` notices changes under its enumerator by a version count. `TimeSpan.FromMilliseconds` is exact for whole counts
  below 2^48 and overflows above 922337203685477.
- The link and transport layers of a station go online and offline together.
- Regular expressions of the hex-dump reader are replaced by direct line classifiers over ASCII.
- A database and an outstation's update handler are any deterministic function of state and call.

## Model

| member | source | states |
|---|---|---|
| Resources.ResourceManager.Bind | cpp/lib/src/ResourceManager.h:45-62 | with the flag set `create` is not consulted and nothing changes; otherwise the table gains exactly the item made, and an exception or a null item leaves it as it was |
| Resources.ResourceManager.Detach | cpp/lib/src/ResourceManager.cpp:26-30 | removes that resource and makes no Shutdown call |
| Resources.ResourceManager.Shutdown | cpp/lib/src/ResourceManager.cpp:32-50 | sets the flag, empties the table, and calls Shutdown once for each resource that was in it and for no other |
| ShutdownInvariant.StepInv | cpp/lib/src/ResourceManager.cpp:26-50 | every step of every thread and strand, over the root manager and the managers of all channels, keeps the invariant tying tables, copies, queued closures and blocked threads together |
| ShutdownInvariant.ReachableInv | cpp/lib/src/ResourceManager.cpp:26-50 | the invariant holds in every reachable state |
| ShutdownTheorems.TablesStep | cpp/lib/src/ResourceManager.cpp:26-50 | in every step of the system a manager's table changes only as one of the critical sections of ResourceManager changes it, and no step changes two tables |
| ShutdownTheorems.ExactlyOnePlace | cpp/lib/src/ResourceManager.cpp:26-50 | over every interleaving each resource ever bound is tracked, detached while tracked, or claimed by one Shutdown, and is shut down by a manager at most once, exactly once when claimed and all loops are done |
| ShutdownTheorems.FlagIsFinal | cpp/lib/src/ResourceManager.h:45-62 | once a manager's flag is set, in every later state it is set, its table is empty, nothing more of it was made or bound, and no thread is inside its `create` |
| ShutdownTheorems.AddMeetsOpenChannel | cpp/lib/src/channel/DNP3Channel.cpp:63-87 | an `add` closure never runs on a channel that ShutdownImpl has taken down, whose io handler is gone |
| ShutdownTheorems.DetachComesLast | cpp/lib/src/StackBase.h:70-83 | a Detach that has run came after the shutdown closure, its own or its channel's, that took the resource out of the io handler, and the resource is in neither |
| ShutdownTheorems.EarlierWorkRunsFirst | cpp/lib/src/StackBase.h:70-83 | in every run, when a Detach posted later has run, everything queued on the strand before has run unchanged, and the removal came before the Detach |
| ShutdownTheorems.PendingWorkIsAlive | cpp/lib/src/StackBase.h:70-83 | while work queued for a stack is pending its reference count is positive |
| ShutdownTheorems.ShutDownMeansGone | cpp/lib/src/ResourceManager.cpp:32-50 | when a manager is shut down and all is quiet, nothing of it is in an io handler, and everything claimed was shut down once |
| ShutdownTheorems.RootDownMeansAllGone | cpp/lib/src/channel/DNP3Channel.cpp:63-87 | when the root manager is shut down and all is quiet, every channel is down and everything ever bound, stacks included, is removed |
| ShutdownTheorems.MeasureFalls | cpp/lib/src/ResourceManager.cpp:32-50 | every step the system takes by itself lowers a measure over unclaimed resources, remaining copies, open channels, queued closures and idle workers |
| ShutdownTheorems.SystemRunsAreShort | cpp/lib/src/ResourceManager.cpp:32-50 | no run without new calls is longer than the measure |
| ShutdownTheorems.Progress | cpp/lib/src/ResourceManager.cpp:32-50 | unless an AddStack is stuck, some step is possible until everything is idle, and one that leaves no AddStack stuck |
| ShutdownTheorems.ComesToRestIff | cpp/lib/src/ResourceManager.cpp:32-50 | from any reachable state, everything can come to rest without new calls if and only if no AddStack is stuck |
| ShutdownTheorems.RunsEnd | cpp/lib/src/ResourceManager.cpp:32-50 | under every schedule a run without new calls ends within the measure, at rest if and only if no AddStack is stuck then |
| ShutdownTheorems.ShutdownEnds | cpp/lib/src/channel/DNP3Channel.cpp:56-87 | with no AddStack under way every shutdown, of the root manager, a channel or a stack, ends under every schedule, within the measure |
| ShutdownTheorems.DoomedForever | cpp/lib/src/channel/DNP3Channel.cpp:130-140 | once AddStack holds the lock behind a closure that needs it, that lock and that table never change again |
| ShutdownTheorems.StuckBehind | cpp/lib/src/channel/DNP3Channel.cpp:56-77 | a Shutdown call that waits for that closure, or for one behind it, never returns |
| ShutdownTheorems.AddStackReturnsIff | cpp/lib/src/channel/DNP3Channel.cpp:130-140 | in every reachable state, with a pool of any size, AddStack can get its answer if and only if neither a stack's detach closure nor ShutdownImpl is queued ahead of its own closure and not every worker waits inside one for a lock some AddStack holds |
| ShutdownTheorems.StarvedForever | cpp/lib/src/DNP3ManagerImpl.cpp:44-53 | once every worker waits so, no AddStack on any channel gets its answer in any later state |
| ShutdownTheorems.StarvedByAnother | cpp/lib/src/DNP3ManagerImpl.cpp:44-53 | a run, with one worker and two channels, to a state in which an AddStack whose closure is next in line never returns |
| ShutdownTheorems.DetachMeetsAddStack | cpp/lib/src/channel/DNP3Channel.cpp:130-140 | a run, one thread closing a stack while another adds one, to a state in which AddStack is stuck behind a detach closure |
| ShutdownTheorems.ShutdownMeetsAddStack | cpp/lib/src/channel/DNP3Channel.cpp:56-77 | a run, one thread shutting the root manager down while another adds a stack, to a state in which both wait for ever and no detach closure exists |
| ShutdownAnswers.AnswerDecides | cpp/lib/src/channel/DNP3Channel.cpp:130-140 | the `add` closure may answer either way, and over every later run a stack refused is never registered, bound, tracked or removed, while one taken in is bound when its call returns and registered until a shutdown takes it out |
| ShutdownAnswers.BoundIsRegistered | cpp/lib/src/channel/IOHandler.cpp:110-127 | in every reachable state what was bound is registered with its io handler exactly until a shutdown closure removes it |
| ShutdownAnswers.PostedWorkIsSafe | cpp/lib/src/StackBase.h:70-83 | work posted for a registered resource stays where it was queued, behind all earlier work, and over every run the resource is referenced until that work has run |
| ShutdownAnswers.LateAddGetsNothing | cpp/lib/src/ResourceManager.h:45-62 | an AddStack during ShutdownImpl gets nothing and leaves every part of the state as it was |
| ShutdownAnswers.FailedCreateLeavesNothing | cpp/lib/src/ResourceManager.h:45-62 | a `create` that returns null or throws releases the lock and changes nothing else |
| Manager.DNP3Manager.Add | cpp/lib/src/DNP3ManagerImpl.cpp:117-143 | reports the channel, SHUTTING_DOWN or the exception of `create`, and tracks exactly the channel handed out |
| Manager.DNP3Manager.Shutdown | cpp/lib/src/DNP3ManagerImpl.cpp:55-67 | shuts down what is tracked and drops `resources`; a second call does nothing |
| Manager.EveryChannelOnce | cpp/lib/src/DNP3ManagerImpl.cpp:44-67 | over any sequence of Add, Detach, Shutdown and destruction every channel handed out and not detached is shut down exactly once, and a detached one not at all |
| Manager.AddNeverMeetsTheFlag | cpp/lib/src/DNP3ManagerImpl.cpp:117-143 | while `resources` is there Add reports SHUTTING_DOWN only for a null item, and an Add without a channel leaves the tracked set as it was |
| Manager.SecondShutdownIsIdle | cpp/lib/src/DNP3ManagerImpl.cpp:55-67 | after Shutdown nothing more is ever shut down and another Shutdown changes nothing |
| SessionRegistry.ListenCallbacks.OnFirstFrame | cpp/examples/master-gprs/ExampleListenCallbacks.cpp:110-149 | replaces the entry of the address, telling the old session to shut down, and appends the new one |
| SessionRegistry.ListenCallbacks.OnConnectionClose | cpp/examples/master-gprs/ExampleListenCallbacks.cpp:151-161 | removes the entry with that id and no other |
| SessionRegistry.ListenCallbacks.GetOutstationSession | cpp/examples/master-gprs/ExampleListenCallbacks.cpp:84-90 | finds the session of the first entry with the address, or nothing |
| SessionRegistry.RegistryIsFaithful | cpp/examples/master-gprs/ExampleListenCallbacks.cpp:110-161 | after any run of callbacks the vector holds exactly the sessions neither closed nor replaced, with no address, id or session twice, and each replaced session was told once to shut down |
| SessionRegistry.LookupAgrees | cpp/examples/master-gprs/ExampleListenCallbacks.cpp:84-161 | the lookup answers with the session of the latest first frame of the address if its id was not closed since, and with nothing otherwise |
| Crc.EntryIs | cpp/lib/src/link/CRC.cpp:27-46 | each of the 256 table entries is eight clocks of the polynomial's shift register |
| Crc.CalcCrc | cpp/lib/src/link/CRC.cpp:48-59 | the table loop computes the complement of the register for every message |
| Crc.RegisterIsSerial | cpp/lib/src/link/CRC.cpp:48-59 | octet by octet and bit by bit the register comes to the same value on every message |
| Crc.SerialXor | cpp/lib/src/link/CRC.cpp:48-59 | the register is linear in the message |
| Crc.CorrectLeavesResidue | cpp/lib/src/link/CRC.cpp:66-86 | every block with a correct check leaves the register at one fixed value |
| Crc.BurstIsRejected | cpp/lib/src/link/CRC.cpp:74-86 | a block altered by any burst of at most sixteen bits, anywhere in data or check, is rejected |
| Crc.OddErrorIsRejected | cpp/lib/src/link/CRC.cpp:74-86 | so is a block with any odd number of flipped bits |
| Crc.FewErrorsAreRejected | cpp/lib/src/link/CRC.cpp:74-86 | so is a block of at most eighteen octets with one, two or three flipped bits |
| LinkFrame.HeaderReads | cpp/lib/src/link/LinkHeader.cpp:58-93 | a written header reads back with the same fields and length and passes every check |
| LinkFrame.HeaderIsWritten | cpp/lib/src/link/LinkLayerParser.cpp:157-170 | a header that passes the checks is the one written for its fields, octet for octet |
| LinkFrame.BodyIsBlocks | cpp/lib/src/link/LinkFrame.cpp:51-69 | a body passes if and only if it is the blocked form of the user data read from it |
| LinkFrame.BlocksRead | cpp/lib/src/link/LinkFrame.cpp:33-49 | reading the blocked form returns the user data |
| LinkFrame.FormatIsAccepted | cpp/lib/src/link/LinkFrame.cpp:145-222 | every well-formed frame is accepted as itself, whatever follows it |
| LinkFrame.AcceptedIsFormat | cpp/lib/src/link/LinkLayerParser.cpp:157-309 | whatever is accepted is the formatted octets of a well-formed frame, the one delivered |
| LinkFrame.AcceptedIff | cpp/lib/src/link/LinkLayerParser.cpp:189-309 | in plain fields, for every function code, FCB, FCV and data: accepted as itself if and only if 0x42 or 0x43 with FCV, 0x40, 0x44 or 0x49 without, or 0x00, 0x01, 0x0B or 0x0F without FCB, and with data exactly for 0x43 and 0x44 |
| LinkFrame.HeaderLayout | cpp/lib/src/link/LinkHeader.cpp:58-93 | which octet and which bit each field is, destination before source, low octets first |
| LinkFrame.DataLayout | cpp/lib/src/link/LinkFrame.cpp:210-222 | where each octet of user data lies among the blocks |
| LinkFrame.KnownFrames | cpp/tests/unit/TestLinkFrame.cpp:96-124 | an ACK with DFC and a confirmed frame with user data are the very octets, checks included, that the repository's tests write out |
| LinkFrame.SizeStep | cpp/lib/src/link/LinkFrame.cpp:71-86 | the size formula adds up block by block, and no frame of at most 250 octets exceeds 292 |
| LinkFrame.CheckBlock | cpp/lib/src/link/CRC.cpp:74-86 | accepts exactly the data followed by its check, low octet first |
| LinkFrame.ValidateBodyCrc | cpp/lib/src/link/LinkFrame.cpp:51-69 | the loop over a buffer decides whether all blocks are correct |
| LinkFrame.ReadUserData | cpp/lib/src/link/LinkFrame.cpp:33-49 | moving the data down over the frame it came in leaves the right data, and everything else in the buffer untouched |
| LinkFrame.WriteUserData | cpp/lib/src/link/LinkFrame.cpp:210-222 | lays the blocked form into the buffer and touches nothing else |
| LinkFrame.FormatFrame | cpp/lib/src/link/LinkFrame.cpp:145-208 | writes the frame over the front of the buffer and touches nothing else, or refuses more than 250 octets or a buffer shorter than a header and leaves the buffer alone |
| LinkStream.DeframeSplits | cpp/lib/src/link/LinkLayerParser.cpp:48-60 | deframing may stop after any octet and go on from what it kept |
| LinkStream.ChunksDoNotMatter | cpp/lib/src/link/LinkLayerParser.cpp:48-60 | any way of cutting a stream gives the same frames |
| LinkStream.Residual | cpp/lib/src/link/LinkLayerParser.cpp:48-60 | what has to be kept is always smaller than the buffer |
| LinkStream.StreamRoundTrip | cpp/lib/src/link/LinkLayerParser.cpp:48-138 | every frame of a formatted stream is delivered once, in order, and nothing of it is kept back |
| LinkStream.OnlyTheseFrames | cpp/lib/src/link/LinkLayerParser.cpp:242-309 | whatever octets arrive, no frame of another function code, or against its rule for FCV or FCB, is ever delivered |
| LinkStream.NoiseIsSkipped | cpp/lib/src/link/ShiftableBuffer.cpp:63-77 | octets without a start pair before a frame are skipped and the frame is found |
| LinkStream.DamagedHeader | cpp/lib/src/link/LinkLayerParser.cpp:105-121 | a header with a burst of at most sixteen bits, up to three flips or an odd number of them is given up after one octet |
| LinkStream.DamagedBody | cpp/lib/src/link/LinkLayerParser.cpp:123-138 | so is a frame with such damage in any one body block |
| LinkParser.ShiftableBuffer.Shift | cpp/lib/src/link/ShiftableBuffer.cpp:34-43 | moves the unread octets to the front unchanged |
| LinkParser.ShiftableBuffer.Sync | cpp/lib/src/link/ShiftableBuffer.cpp:63-77 | stops at the first start pair, passing none, or leaves at most one octet |
| LinkParser.LinkLayerParser.ParseSync | cpp/lib/src/link/LinkLayerParser.cpp:88-103 | changes nothing that decides a later frame, and moves on or is stuck |
| LinkParser.LinkLayerParser.ParseHeader | cpp/lib/src/link/LinkLayerParser.cpp:105-121 | the same for a header, good, bad or incomplete |
| LinkParser.LinkLayerParser.CheckHeader | cpp/lib/src/link/LinkLayerParser.cpp:157-235 | accepts exactly the valid headers and then knows fields, length and frame size |
| LinkParser.LinkLayerParser.TransferUserData | cpp/lib/src/link/LinkLayerParser.cpp:150-155 | hands out the frame's data from the front of the receive buffer without harming the octets behind the frame |
| LinkParser.LinkLayerParser.ParseBody | cpp/lib/src/link/LinkLayerParser.cpp:123-138 | a complete body gives exactly the frame at the front, or one octet is given up |
| LinkParser.LinkLayerParser.ParseUntilComplete | cpp/lib/src/link/LinkLayerParser.cpp:62-86 | stops with the next frame in hand or where more octets are needed, losing nothing |
| LinkParser.LinkLayerParser.OnRead | cpp/lib/src/link/LinkLayerParser.cpp:48-60 | gives the sink the frames the octets hold, keeps what decides the rest of the stream, and always leaves room for more |
| LinkParser.ReadStream | cpp/lib/src/channel/IOHandler.cpp:51-66 | however a stream falls into reads, the sink gets the frames of the stream |
| SequenceNum.RunValue | cpp/lib/src/SequenceNum.h:28-72 | after any run of Increment and Reset the counter is (base + increments since the last reset) mod modulus |
| SequenceNum.CoincideIff | cpp/lib/src/SequenceNum.h:28-72 | after any run, two positions of a stretch of increments hold the same number exactly when their distance is a multiple of the modulus |
| SequenceNum.Sequence.Increment | cpp/lib/src/SequenceNum.h:55-58 | assigns what Next predicts and stays below the modulus |
| Transport.HeaderReads | cpp/lib/src/transport/TransportHeader.cpp:26-49 | the header octet reads back FIR, FIN and the number |
| Transport.HeaderLayout | cpp/lib/src/transport/TransportHeader.cpp:26-49 | the header octet is 128 for FIN, 64 for FIR and the number |
| Transport.SegmentSizes | cpp/lib/src/transport/TransportTx.cpp:49-86 | a fragment of n octets goes out in (n + 248) / 249 segments, all but the last with 249 octets of it |
| Transport.TransportTx.GetSegment | cpp/lib/src/transport/TransportTx.cpp:49-75 | returns the first segment of what is left, and the same one until Advance |
| Transport.TransportTx.Advance | cpp/lib/src/transport/TransportTx.cpp:77-86 | drops what was sent, counts on, and tells whether anything is left |
| Transport.TransportTx.Transmit | cpp/lib/src/transport/TransportTx.cpp:36-86 | configuring with a message and taking segments until none is left yields its segments, numbered in order from where the last message ended |
| Transport.TransportRx.Reset | cpp/lib/src/transport/TransportRx.cpp:40-48 | what is held is dropped, and nothing else changes |
| Transport.TransportRx.ProcessReceive | cpp/lib/src/transport/TransportRx.cpp:55-136 | the buffer, counters and result are those of the receiver on values, for every segment and state |
| Transport.TransportLayer.OnReceive | cpp/lib/src/transport/TransportLayer.cpp:79-92 | online a segment goes to the receiver and a completed fragment up; offline nothing changes |
| Transport.TransportLayer.OnLowerLayerDown | cpp/lib/src/transport/TransportLayer.cpp:151-168 | an online layer goes offline and drops what is held; offline nothing is ever held |
| Transport.EmptyDoesNotMatter | cpp/lib/src/transport/TransportRx.cpp:55-65 | over any arrivals, segments without a header change nothing |
| Transport.FragmentRoundTrip | cpp/lib/src/transport/TransportRx.cpp:55-136 | a fragment sent whole is delivered whole, whatever the receiver was doing, if it fits the buffer, and nothing is delivered if it does not |
| TransportLoss.SegmentsAreWired | cpp/lib/src/transport/TransportTx.cpp:49-86 | the transmitter's segments are the numbered pieces of its history |
| TransportLoss.HistoryIsOrderly | cpp/lib/src/transport/TransportLayer.cpp:151-168 | in the history of a sender whose fragments may be abandoned anywhere, with the last number used again, a segment that starts no fragment continues the one before it |
| TransportLoss.StepAgreesIff | cpp/lib/src/transport/TransportRx.cpp:55-136 | after one arrival the receiver holds what one that knows every place would hold if and only if the segment was not another one of the same sender with the number that is due |
| TransportLoss.TogetherIff | cpp/lib/src/transport/TransportRx.cpp:55-136 | over any arrivals, lost, repeated or reordered, the two stay together if and only if no such segment arrives |
| TransportLoss.RunAgrees | cpp/lib/src/transport/TransportRx.cpp:55-136 | then both deliver the same fragments |
| TransportLoss.NothingIsInvented | cpp/lib/src/transport/TransportRx.cpp:55-136 | every fragment then passed up is one the sender sent to its end, complete and unmixed, whatever it abandoned in between |
| TransportLoss.StrayIsIgnoredIff | cpp/lib/src/transport/TransportRx.cpp:80-106 | a segment that is not due leaves the receiver as it was unless it comes from the same sender with the number that is due, and then changes what it holds |
| TransportLoss.MistakenIff | cpp/lib/src/SequenceNum.h:28-72 | while the numbers run on, that is a segment of the same sender a multiple of 64 places from the one due |
| TransportLoss.SequenceWrapMixes | cpp/lib/src/transport/TransportRx.cpp:80-106 | a run in which a fragment that was never sent is passed up |
| LinkSecondary.LinkContext.OnFrame | cpp/lib/src/link/LinkContext.cpp:329-411 | online flag, address filter and secondary states decide, for every frame and state, whether its data is pushed up, whether a reply is owed, and what state follows |
| LinkSecondary.OthersDoNotMatter | cpp/lib/src/link/LinkContext.cpp:337-359 | over every run, frames of the own role, to another station, or not from the peer might as well not have been on the line |
| LinkSecondary.PushedIff | cpp/lib/src/link/LinkContext.cpp:329-411 | in plain fields, exactly which frames have their data pushed up |
| LinkSecondary.OwesReplyIff | cpp/lib/src/link/SecLinkLayerStates.cpp:57-132 | in plain fields, exactly which frames make a station owe a reply: resets and status requests, tests with the bit expected, and confirmed data once reset, sent to it alone |
| LinkSecondary.OtherwiseStays | cpp/lib/src/link/SecLinkLayerStates.cpp:40-132 | every other frame leaves the station as it was, but for confirmed data sent to everyone |
| LinkSecondary.AfterReply | cpp/lib/src/link/SecLinkLayerStates.h:69-102 | what state a reset, a status request, a test or data leave behind once the reply is sent |
| LinkSecondary.LinkContext.OnTxReady | cpp/lib/src/link/LinkContext.cpp:126-152 | the end of a reply's transmission ends the wait for it, and nothing else does |
| LinkSecondary.LinkContext.OnLowerLayerDown | cpp/lib/src/link/LinkContext.cpp:81-107 | an online layer goes offline, unreset and owing nothing, but keeps its frame count bit; an offline one refuses |
| LinkSecondary.BitsAlternate | cpp/lib/src/link/SecLinkLayerStates.cpp:78-120 | over every run the frame count bits of the frames counted alternate from true after each reset |
| LinkSecondary.RepeatIsNotPushed | cpp/lib/src/link/SecLinkLayerStates.cpp:94-113 | in every run, confirmed data got again, with no reset and no counted frame since it was pushed up, is not pushed up again |
| LinkSecondary.DeafForever | cpp/lib/src/link/SecLinkLayerStates.h:69-102 | a station that waits for a reply nobody sends ignores every reset, test, status request and confirmed frame until the link goes down |
| LinkSecondary.DeafIff | cpp/lib/src/link/SecLinkLayerStates.cpp:94-113 | after any run from construction a station is in that state if and only if, since the link last went down, it took confirmed user data sent to a broadcast address while it was reset |
| LinkSecondary.DeafIsReached | cpp/lib/src/link/SecLinkLayerStates.cpp:94-113 | a reset, the end of its reply and one confirmed frame to 0xFFFF bring a new station there |
| EndToEnd.Serve | cpp/lib/src/link/LinkContext.cpp:329-411 | over any events, the link and transport objects put together pass up exactly what the theorems below speak of |
| EndToEnd.OnlyOurs | cpp/lib/src/link/LinkContext.cpp:329-411 | without confirmed data for it, a station in any state is offered exactly the unconfirmed data for it, in order |
| EndToEnd.OfflineHoldsNothing | cpp/lib/src/transport/TransportLayer.cpp:151-168 | over every run, while the layer is offline the transport function holds no part of a fragment |
| EndToEnd.FragmentArrives | cpp/lib/src/link/LinkContext.cpp:329-411 | when the data a station accepts from a stream of frames, confirmed or not, are the segments of a fragment, then from the octets on the line its application is given exactly that fragment if and only if it fits and the layer does not go down between its first segment and its last, nothing of it otherwise, and goes on from an empty buffer |
| EndToEnd.UnconfirmedArrives | cpp/lib/src/link/LinkContext.cpp:154-161 | so the unconfirmed frames a sender makes for a fragment, among any frames that hold no confirmed data for the station, bring exactly that fragment if and only if it fits, the layer is online for each of them, and it does not go down between them |
| EndToEnd.LostBetweenSegments | cpp/lib/src/transport/TransportLayer.cpp:151-168 | a run, the layer going down and up again between two segments, in which a fragment that fits is lost |
| EndToEnd.SenderSpeaks | cpp/lib/src/link/LinkContext.cpp:154-161 | the frames a sender makes for a fragment are well formed and all for the peer |
| HexText.ParseHexLines | pcap_extract/extract_dnp3.py:88-94 | the loop returns the bytes of all two-character words of all lines, or raises |
| HexText.LinesConcat | pcap_extract/extract_dnp3.py:88-94 | concatenating line lists concatenates their bytes |
| HexText.AnyCutParses | pcap_extract/extract_dnp3.py:88-94 | however printed bytes are cut into lines, parsing returns them all in order |
| HexText.SplitAtBlank | pcap_extract/extract_dnp3.py:88-94 | a blank separates the words before it from those after it, and a word is itself |
| HexText.OtherWordsAreSkipped | pcap_extract/extract_dnp3.py:88-94 | a word that is not two characters long is passed over wherever it stands |
| HexText.DigitsAre | pcap_extract/extract_dnp3.py:88-94 | the 22 digits, in either case, and their values |
| HexText.PairsAre | pcap_extract/extract_dnp3.py:88-94 | what every word of two characters comes to, signs included, or that it raises |
| HexText.HexStringRoundTrip | pcap_extract/extract_dnp3.py:125-127 | parsing undoes bytes_to_hex_string |
| HexDump.ExtractPackets | pcap_extract/extract_dnp3.py:36-85 | the loop with its five variables computes the packets of the lines, the last section included |
| HexDump.HeaderLinesAre | pcap_extract/extract_dnp3.py:43-71 | the lines that open a packet, an application message or a TCP section are exactly the texts of the three patterns, with a byte count of any length and anything behind |
| HexDump.PutIs | pcap_extract/extract_dnp3.py:46-72 | dictionary assignment changes the value of its key in place, or adds it at the end |
| HexDump.ScannedConcat | pcap_extract/extract_dnp3.py:36-85 | reading may stop between any two lines |
| HexDump.ExtractLinkFrame | pcap_extract/extract_dnp3.py:97-105 | returns the rest of the packet from the first start pair on, or nothing exactly when there is none |
| HexDumpRoundTrip.DumpLineIsData | pcap_extract/extract_dnp3.py:74-77 | a printed data line is read as exactly its bytes, whatever the ASCII column holds |
| HexDumpRoundTrip.DataLinesAre | pcap_extract/extract_dnp3.py:74-77 | the data lines are exactly four digits, blanks and the longest run of digit pairs with a blank behind each |
| HexDumpRoundTrip.DumpRoundTrip | pcap_extract/extract_dnp3.py:36-85 | any dump, with lines to ignore anywhere and anything but a packet line before it, reads back as its packets, sections and bytes, a repeated section replacing the earlier one |
| HexDumpRoundTrip.PrintRoundTrip | pcap_extract/extract_dnp3.py:36-85 | printing any list of packets, with their byte counts and in lower case, and reading the lines gives back the list |
| HexDumpFailures.DataParses | pcap_extract/extract_dnp3.py:74-94 | whatever a data line matched can be parsed |
| HexDumpFailures.ExtractFailsIff | pcap_extract/extract_dnp3.py:36-85 | reading raises on exactly the inputs with a failing line |
| HexDumpFailures.ReadsEveryInput | pcap_extract/extract_dnp3.py:36-85 | every input is such a dump, and is read as its packets or raises exactly for a failing line before the first of them |
| HexDumpFailures.FailureExample | pcap_extract/extract_dnp3.py:66-72 | three lines, with any blank between offset and byte, that make it raise |
| Replay.ChangeSet.Apply | dotnet/CLRInterface/src/ChangeSet.cs:46-52 | replaying into any database equals making the recorded calls directly in order |
| Replay.ChangeSet.ApplyTo | dotnet/CLRInterface/src/ChangeSet.cs:46-52 | replaying into another set appends; into itself it throws unless empty |
| Replay.ReplayIsDirect | dotnet/CLRInterface/src/ChangeSet.cs:44-115 | for any history of calls and Clear, replay equals a database given each call at once and put back by Clear |
| Replay.UpdateBuilder.Build | cpp/lib/src/outstation/UpdateBuilder.cpp:26-29 | hands over everything added since the last Build and leaves nothing |
| Replay.Load | dotnet/CLRAdapter/src/OutstationAdapter.cpp:46-52 | the outstation gets the recorded calls in order through both hops |
| Replay.OctetUpdatesReturn | dotnet/CLRAdapter/src/DatabaseAdapter.h:58-111 | octet string updates converted for the native side and back return every call in its place, with kind, octets, index, mode and clear flag |
| Replay.LoadThrough | dotnet/CLRAdapter/src/OutstationAdapter.cpp:46-52 | a set replayed into another that is then loaded gives the outstation the calls of the second and then those of the first |
| Commands.CommandSetBuilder.Add | dotnet/CLRAdapter/src/CommandSetBuilder.cpp:34-77 | adds one header of the given kind with every command converted, at its own index and in order |
| Commands.CommandSetBuilder.Build | dotnet/CLRInterface/src/CommandSet.cs:50-114 | any nesting builds one native header per leaf, from left to right |
| Commands.ConvertHeaders | dotnet/CLRAdapter/src/MasterConversions.cpp:147-156 | as many headers as the tree has leaves, in their order, each with the kind of its leaf and every command converted at its own index |
| Commands.LeafLaws | dotnet/CLRInterface/src/CommandSet.cs:50-114 | the laws that fix the order of the leaves: a leaf is itself, sets side by side follow one another, a set of one is that one |
| Commands.NestingIsFlat | dotnet/CLRInterface/src/CommandSet.cs:92-114 | a set inside a set has the leaves of its headers in its place |
| GilSafeShared.ReleasedOnce | python/src/channel.cpp:86-98 | by the calls made: held while copies and successful locks outnumber drops, released at most once, and after the last drop under the GIL if the interpreter was up then, else without it once the last weak pointer is gone |
| GilSafeShared.CountsAgree | python/src/channel.cpp:86-98 | after every run the counts are those of the copies, locks, drops and weak pointers made |
| GilSafeShared.RunsAre | python/src/channel.cpp:86-98 | every sequence of calls on pointers that exist, and no other, is a run |
| GilSafeShared.LateReleaseHasNoGil | python/src/channel.cpp:86-98 | a run in which the release happens without the GIL |
| Conversions.TimeRoundTrip | dotnet/CLRInterface/src/DNPTime.cs:33-44 | every 48-bit count converts without overflow and in order, returns exactly up to 253402300799999, and clamps beyond |
| Conversions.OverflowsIff | dotnet/CLRInterface/src/DNPTime.cs:33-44 | exactly which counts overflow |
| Conversions.DateSurvivesIff | dotnet/CLRInterface/src/DNPTime.cs:66-70 | a UTC date survives to the millisecond exactly when it is not before 1970 |
| Conversions.EarlyDateIsLost | dotnet/CLRInterface/src/DNPTime.cs:66-70 | one millisecond before 1970 goes out and overflows on the way back |
| Conversions.ConstructorKeepsIff | cpp/lib/src/app/OctetData.cpp:35-61 | Set keeps the first 255 octets of any buffer; the constructor does so exactly when the length is below 256 or is 255 mod 256 |
| Conversions.AllAreCut | cpp/lib/src/app/OctetData.cpp:35-61 | of 256 octets the constructor keeps none where 255 are promised |
| Conversions.ToNative | dotnet/CLRAdapter/src/Conversions.cpp:269-281 | the eight-bit counter reaches its bound without wrapping and the first 255 octets are copied |
| Conversions.FromNative | dotnet/CLRAdapter/src/Conversions.cpp:491-501 | copies every octet |
| Conversions.OctetStringRoundTrip | dotnet/CLRAdapter/src/Conversions.cpp:204-207 | every octet string that can be constructed comes back octet for octet |
| Conversions.HeaderSurvivesIff | dotnet/CLRInterface/src/Header.cs:53-137 | conversion undoes the factories, and a header converts without loss exactly when a factory made it |
| Conversions.HeaderConvertsTo | dotnet/CLRAdapter/src/MasterConversions.cpp:47-135 | what every header converts to, the low eight bits for eight-bit fields, and which are refused |
| Conversions.ConvertToVectorOfHeaders | dotnet/CLRAdapter/src/MasterConversions.cpp:32-44 | the loop keeps, in order, the headers that convert |
| Conversions.NoHeaderIsLost | dotnet/CLRAdapter/src/MasterConversions.cpp:32-135 | a list made through the factories converts with none dropped and no field changed |

## Left out

- Application layer, event buffer, master scheduler and outstation context: not modelled.
- The primary side of the link layer, its keep-alive and timers: not modelled. Of the transmit queue only whether a reply
  of the secondary is owed is kept.
- The destructor of a channel, and listeners of the root manager that are no channels: a channel stands for both.
- Statistics counters and logging of the parser and of the transport function: they do not feed back into what is delivered.
- The fuzzing build of `IsCorrectCRC`, which accepts everything.
- Manager.DNP3Manager.Add: requires that Shutdown has not been called, because the source dereferences a null pointer then.
- ShutdownProtocol: AddStack on a channel whose ShutdownImpl has ended is no step, because the source dereferences a null
  pointer then; nor is a call made from a thread of the pool.
- The route table of `IOHandler::AddContext`: whether a route is free is either answer. What a reply of the secondary holds.
- Crc.FewErrorsAreRejected: does not cover four or more flipped bits of even number that lie further apart than a burst of
  sixteen; whether the check catches all of four is not decided here.
- LinkFrame.FormatFrame: requires room for user data, because the source writes it without looking at the buffer's length.
- EndToEnd.UnconfirmedArrives: shuts out confirmed data for the station; EndToEnd.FragmentArrives covers it.
- Conversions.DateSurvivesIff: covers UTC dates; the way back from DateTime.MaxValue depends on the local time zone.
- `extract_apdu_objects`, the tshark calls and the summary printing: a slice, and input and output.
- Offsets of five or more hexadecimal digits, which the reader's data-line pattern does not match.
- JNI wrappers, configuration reading and the remaining CLR and Python adapters: field-by-field copying.
