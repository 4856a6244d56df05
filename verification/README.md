# Enserva, modelled and verified in Dafny

Enserva is an authoritative UDP game server written in Go, with Rust and C# client endpoints. This project
models the parts of it that have to be right for a game to stay consistent over a lossy network, and proves
what they keep over every run:

- **Reliable delivery** (`AckWindow`, `Reassembly`, `RetryQueue`, `Transport`, `Delivery`, `SenderLink`,
  `CSharpSender`): the 64-bit acknowledgement window, ordered reassembly, the server's retry queue and the C#
  client's retry list, and all of it end to end over a network that loses, duplicates and reorders.
- **Snapshots** (`SnapshotDelta`, `Baselines`): deltas, and the baselines they are taken against, up to what
  a client can reconstruct.
- **Visibility** (`Interest`, `SnapshotView`): the spatial-hash filter against the linear scan, and which
  objects a client's snapshot contains.
- **Wire format** (`Bytes`, `Unicode`, `ValueCodec`, `SnapshotCodec`, `PacketCodec` as functions, `Layout` with the
  format byte by byte; `WireWriter` and `WireReader` as the code works, proved against those functions): one
  writer (Go), two readers (Go and Rust).
- **Bandwidth** (`Budget`, `Trimming`): the token bucket, and dropping the least prefix of low-priority
  objects so that a snapshot fits.
- **Inputs** (`InputBuffer`): the bounded, sorted, tick-aligned input buffer.

`Bits`, `Wire`, `Sorting` and `Wrappers` hold what the others share. Each module that models state has a pure
part (what one step does, and theorems about all runs of steps) and a part headed "the code": a class or
method in the form of the source, whose contract says that it takes exactly that step. What such a step means
is also told without its definition: in the constants and quantities of the source, written out.

## What holds, and what does not

Several properties that the repository's documentation states turn out to need a condition. Each of these is
proved with its exact condition, over every run:

- *Ordered delivery can stall.* documentation/docs/api/wire-protocol.md:72 says that ordered ids increase by
  one for the ordered stream. The server draws ordered and unordered ids from one counter, so an unordered
  message, or an ordered one that is refused after its id was taken, leaves a gap for good
  (`Transport.SharedCounterStalls`, `Transport.UnorderedFirstStallsOrdered`). So does a message that the
  receiver cannot read, such as one with an empty payload sent to the Go server (`Transport.UnreadableStalls`).
  When everything readable has arrived, an ordered message has been delivered if and only if there is no gap
  up to its id (`Transport.DeliveredUnlessGap`).
- *An acknowledged message has been delivered or buffered* if and only if the receiver supported its class when
  it came (`Transport.HandledIffSupported`; `Transport.AcknowledgedFate` when support changes in between;
  `Transport.UnsupportedClassIsLost` is the shortest run, for any terms).
- *The Rust client books a retry on the oldest pending entry with the message's id*, while ordered and unordered
  ids overlap. It is safe as long as that is the entry that was retried, or its message has been seen by the
  server anyway, or the retried one cannot be read (`Transport.RustSafetyWhenBookedRight`); any other booking, in
  any reachable state, leads to the loss of a message (`Transport.ForbiddenRetryLoses`). Two sends reach such a
  state (`Transport.RustCollisionLosesMessage`).
- *The first snapshot after a baseline reset is full* if and only if no delta is committed that a reset hit
  while it was encoded (`Baselines.FullAfterResetUnlessRaced`; `Baselines.ResetRace` for every state with a
  delta encoded). However often that happens, deltas in a row are bounded (`Baselines.DeltasInARow`). What a
  client reconstructs is right in either case (`Baselines.Reconstruction`).
- *The bandwidth bound in elapsed seconds* holds for all requests if and only if the clock readings never
  decrease (`Budget.BoundIffClockForward`). For every clock, what is granted in a window is bounded by the
  clock's forward movement, and a reservation is granted exactly when that bound allows it
  (`Budget.WindowBound`, `Budget.GrantedExactly`).
- *The Go reader refuses an empty field at the very end of its input* (`SnapshotCodec.GoReaderRefuses`); the
  round-trip theorems give the exact condition for both readers.
- *An input for the current tick is accepted* exactly when current tick plus future window does not exceed 64
  bits (`InputBuffer.CurrentTickAccepted`).

## Model

| member | source | states |
|---|---|---|
| `AckWindow.AckBitsMeaning` | network/udp.go:1093-1109 | bit k of the acknowledgement word is set exactly when sequence ack-1-k is positive and retained |
| `Bits.BitMeaning` | network/reliability.go:186-201 | bit k of a word is its binary digit of value 2^k |
| `AckWindow.AckedExactly` | network/reliability.go:186-201 | the pair (ack, bits) acknowledges exactly the retained sequences, which are the recorded ones no more than 64 below ack |
| `AckWindow.AdmitsExactly` | network/udp.go:854-861 | testing the pruned set is as good as testing everything ever accepted, whatever the wrapping staleness test says |
| `AckWindow.FreshAccepted` | network/udp.go:854-861 | after every arrival history, a non-zero sequence not accepted yet is accepted iff every accepted sequence is below it plus 64, less 2^64 where that sum wraps |
| `AckWindow.NewestAccepted` | network/udp.go:863-867 | after every history the acknowledged number is the largest accepted sequence, or 0 if there is none |
| `AckWindow.ZeroLeavesNoTrace` | network/udp.go:850-853 | a packet without a sequence is accepted every time and changes nothing |
| `AckWindow.EveryRun` | network/udp.go:850-872 | in every reachable session the window is a function of the set of accepted sequences, and no sequence was accepted twice |
| `AckWindow.AckWindowExactness` | network/udp.go:863-869 | for every arrival history and every s: s is acknowledged iff it is retained iff it was accepted and is at least ack-64 |
| `AckWindow.AtMostOnce` | network/udp.go:854-861 | once accepted, a non-zero sequence changes nothing when it arrives again, however much was pruned since and although sequence+64 wraps |
| `AckWindow.ReceiveWindow.AcceptSequence` | network/udp.go:850-872 | the server's fields after one packet are the specified window, and it accepts exactly the admitted sequences, which `AckWindow.FreshAccepted` spells out |
| `AckWindow.ClientWindow.RecordPeerPacket` | ClientExamples/Rust/src/lib.rs:540-554 | the client's fields after one packet represent the recorded sequences in the same window |
| `AckWindow.ClientAcknowledges` | ClientExamples/Rust/src/lib.rs:540-554 | after every history a client acknowledges exactly the packets it got that none it got is more than 64 ahead of |
| `AckWindow.ClientWindow.BuildAckBits` | ClientExamples/CSharp/EnservaUdpClient.cs:687-703 | the client's loop computes the same acknowledgement word as the server's |
| `AckWindow.ClientAckBits` | network/udp.go:1093-1109 | the loop with its early exit at sequence 0 computes the specified word |
| `AckWindow.PruneReceived` | network/udp.go:1111-1121 | pruning keeps exactly the sequences no more than 64 below ack |
| `Reassembly.DrainReleases` | network/udp.go:1075-1084 | draining terminates, stops at the least missing id and releases exactly the run before it |
| `Reassembly.EveryArrivalOrder` | network/udp.go:1018-1091 | after any arrivals, the state and the three delivered streams are functions of what arrived: ordered ids 1..n in order, once each, n+1 the least missing, the buffer exactly the arrived ids above |
| `Reassembly.Confluence` | network/udp.go:1046-1084 | two arrival orders with the same ordered messages end in the same state and have delivered the same ordered stream |
| `Reassembly.BatchingIrrelevant` | network/udp.go:1026-1027 | splitting the arrivals into packets in another way changes neither state nor deliveries |
| `Reassembly.UnorderedOnce` | network/udp.go:1031-1045 | no unordered id is delivered twice, and only arrived ones are |
| `Reassembly.ArrivedIsHandled` | network/udp.go:1018-1091 | every valid reliable message that arrived has been delivered or waits in the ordered buffer under its id |
| `Reassembly.AcceptedFrom` | network/udp.go:1018-1091 | every reliable message delivered had arrived |
| `Reassembly.HandledFrom` | network/udp.go:1018-1091 | nothing is delivered or buffered that had not arrived |
| `Reassembly.AcceptedClasses` | network/udp.go:1018-1091 | nothing of a class but 0, 1 and 2, and nothing reliable without an id, is ever delivered |
| `Reassembly.CountsMeaning` | network/udp.go:1031-1054 | a reliable message takes part iff it has an id and its class, by its own capability bit, was not negotiated away |
| `Wire.SupportsMeaning` | network/udp.go:788-802 | a class is supported unless a hello was negotiated without its bit, worth 2 for ordered and 4 for unordered delivery |
| `Reassembly.GapStalls` | network/udp.go:1063-1066 | an ordered id that never arrives holds back all larger ones |
| `Reassembly.Receiver.AcceptReliableIncomingMessages` | network/udp.go:1018-1091 | the loop over a packet's messages, fields and all, is the specified step |
| `Reassembly.Receiver.AcceptOrderedMessage` | ClientExamples/Rust/src/lib.rs:622-635 | accepting the next ordered message and draining the buffer is the specified step |
| `RetryQueue.EveryRun` | network/udp.go:874-1016 | in every run over all clients, with sends that others interrupt and sequences that go to snapshots and unreliable responses: queue sizes and attempts within limits, attempts equal to the sequences booked, no sequence booked twice anywhere, re-encoding never fails, queued = acknowledged + expired + discarded with a client + pending |
| `RetryQueue.EnqueueKeepsQueues` | network/udp.go:926-938 | queueing, however long after the id was taken, uses an id that no entry has, so it overwrites nothing, and a sequence booked nowhere |
| `RetryQueue.SettleKeeps` | network/udp.go:488-505 | the second half of a send keeps the invariant even if the queue filled up meanwhile: the second limit check is what keeps the size bound |
| `RetryQueue.RetransmitSucceeds` | network/udp.go:997-1006 | a due entry with attempts left is always sent again under one fresh sequence: the re-encoding error branch is dead |
| `RetryQueue.RetryAllEffect` | network/udp.go:980-1016 | after a pass in any map order every entry is unchanged if not due, gone if out of attempts, else has one more attempt and one more fresh sequence |
| `RetryQueue.RemoveAckedKeeps` | network/udp.go:942-956 | removing acknowledged entries keeps the invariant and the balance of the counters |
| `RetryQueue.UdpServer.PrepareReliableMessage` | network/udp.go:893-913 | an unreliable message passes; an unsupported class becomes unreliable; a full queue refuses and counts a drop; otherwise the next delivery id is taken |
| `RetryQueue.UdpServer.QueueReliableOutbound` | network/udp.go:915-940 | unreliable messages are not queued, a missing id and a full queue are refused; otherwise the message is queued with one attempt and its first sequence |
| `RetryQueue.UdpServer.BeginSend` | network/udp.go:485-489 | up to the sequence, sending is the specified first half, or for an unreliable message or an unsupported class the drawing of a sequence |
| `RetryQueue.UdpServer.FinishSend` | network/udp.go:490-510 | the rest is the specified second half; the bucket is charged exactly when the packet fits; what goes out, exactly when a reliable message was queued, is the one packet that encodes the flight's sequence, the client's ack and bits and the message, and every reader that can carry the message reads just that |
| `RetryQueue.UdpServer.RemoveAckedReliable` | network/udp.go:942-956 | removes exactly the entries of which some booked sequence is acknowledged and counts them |
| `RetryQueue.UdpServer.KeepUnacked` | network/udp.go:947-955 | the deletion loop keeps exactly the unacknowledged entries |
| `RetryQueue.UdpServer.CollectReliableRetransmits` | network/udp.go:980-1016 | visits every entry of every client exactly once, keeps the invariant, and returns one packet for each sequence it took, in their order, each encoding the message of the entry that the sequence was booked on, with its client's ack and bits |
| `RetryQueue.UdpServer.RetransmitClient` | network/udp.go:987-1013 | the inner loop visits exactly this client's entries, each once, changes no other client, and adds exactly the packets of these visits |
| `RetryQueue.UdpServer.VisitEntry` | network/udp.go:987-1012 | one visit is the specified step, touches no other entry and returns its packet, if it has one |
| `RetryQueue.PacketsCarryEntries` | network/udp.go:980-1016 | in a pass in any map order there is one packet for each sequence taken, and it encodes that sequence, the ack and bits of the client and the message of the entry on which it was booked |
| `RetryQueue.RetriedIsSent` | network/udp.go:987-1012 | every visited entry that is due and has attempts left has such a packet |
| `RetryQueue.CarriedIsRead` | network/udp.go:998 | such a packet is read back with that sequence, ack, bits and message by every reader that can carry the message |
| `RetryQueue.FirstRetry` | network/udp.go:987-990 | a queued message is sent again by a visit once the retry interval has passed, and not before |
| `RetryQueue.Lifetime` | network/udp.go:988-1008 | an entry visited whenever it is due is sent until it has been sent the maximal number of times, each under its own sequence, and is gone after the next visit |
| `RetryQueue.UnackedMeaning` | network/udp.go:947-955 | an entry stays iff none of its sequences is the acknowledged one or has its bit set among the 64 below |
| `RetryQueue.RetryDrops` | network/udp.go:991-1002 | a pass counts as dropped exactly what it expires, and changes no other counter but that |
| `Transport.EveryRun` | network/udp.go:834-1091 | the end-to-end invariant, with negotiation at any time and sends that others interrupt: ids unique per class, bookings and acknowledgements truthful, the receiver a function of what it took |
| `Transport.HandledIffSupported` | network/udp.go:1031-1054 | in every run, a message removed by an acknowledgement has been delivered or is in the peer's ordered buffer iff the peer supported its class whenever packets came |
| `Transport.AcknowledgedFate` | network/udp.go:1031-1054 | with support that comes and goes: iff some copy was taken; otherwise it was turned away |
| `Transport.ReliableSafety` | network/udp.go:942-956 | in every run, Go server to client or C# client to Go server, a reliable message removed by an acknowledgement has been delivered or is in the peer's ordered buffer, while a Go receiver supports its class; retries may be booked late or never |
| `Transport.RustSafetyWhenBookedRight` | ClientExamples/Rust/src/lib.rs:416-427 | the same for the Rust sender in every run in which each retry is booked on the message that was retried, or on one already seen, or carries one that cannot be read |
| `Transport.WrongBookingLoses` | ClientExamples/Rust/src/lib.rs:416-427 | from every reachable state in which a readable retry is booked on the oldest entry with its id and that is another message, not taken yet, the retry and one round trip leave that message acknowledged and lost |
| `Transport.ForbiddenRetryLoses` | ClientExamples/Rust/src/lib.rs:416-427 | every retry that the safety theorem forbids is one that loses a message |
| `Transport.DeliveredStreams` | network/udp.go:1018-1091 | in every run the application sees only sent messages, ordered ids 1, 2, 3, ... up to the least that has not arrived, and no unordered id twice |
| `Transport.SharedCounterStalls` | network/udp.go:893-913 | once an id went to an unordered or never-queued message, no ordered message with a larger id is delivered in any continuation |
| `Transport.UnorderedFirstStallsOrdered` | network/udp.go:909-911 | after one unordered message from the server nothing ordered is ever delivered |
| `Transport.DeliveredUnlessGap` | documentation/docs/api/wire-protocol.md:72 | when every readable ordered message was taken, one has been delivered iff every id up to its own went to a readable ordered message |
| `Transport.UnreadableStalls` | network/reliability.go:169-174 | a message the receiver cannot read is never acknowledged or handled, and if it is ordered nothing from its id on is delivered |
| `Transport.UnsupportedClassIsLost` | network/udp.go:1046-1050 | for any negotiated terms, one message and one round trip: it is acknowledged, and handled iff the terms include its class |
| `Transport.RustCollisionLosesMessage` | ClientExamples/Rust/src/lib.rs:496-508 | the first ordered and the first unordered message share their id: the shortest run into such a loss |
| `Delivery.InOrder` | network/udp.go:1018-1091 | however the packets of some ordered messages come, repeated and in any order, once each has come the application has got exactly these messages in the order in which they were sent (for a Go receiver: of up to 64 packets) |
| `SenderLink.AckMirrors` | network/udp.go:942-956 | an acknowledgement removes the same messages from the server's queue and from the end-to-end model |
| `SenderLink.PrepareMirrors` | network/udp.go:893-913 | taking an id and a sequence is a reservation in the model, or a sequence that goes elsewhere, or nothing |
| `SenderLink.SettleMirrors` | network/udp.go:915-940 | queueing is a launch in the model, giving up an abandonment |
| `SenderLink.RetryOneMirrors` | network/udp.go:987-1012 | a retransmission visit is a retry, an expiry, a sequence that goes elsewhere, or nothing |
| `SenderLink.EveryRun` | network/udp.go:834-1016 | in every run of the server with any clients, snapshots and unreliable packets included, sequence counter, id counter, sends under way and retry queue of a client are, step for step, those of an end-to-end run |
| `SenderLink.QueueSafety` | network/udp.go:942-956 | whatever an acknowledgement, also one of a snapshot or an unreliable packet, removes from the queue the server keeps has been delivered by the client or waits in its ordered buffer |
| `CSharpSender.EveryRun` | ClientExamples/CSharp/EnservaUdpClient.cs:266-316 | in every run, with sends and retries that others interrupt, the C# client's counters, sends under way and retry list are, step for step, those of an end-to-end run |
| `CSharpSender.ListSafety` | ClientExamples/CSharp/EnservaUdpClient.cs:649-666 | whatever an acknowledgement removes from the list has been handled by the server, while it supports the class |
| `CSharpSender.ActMirrors` | ClientExamples/CSharp/EnservaUdpClient.cs:106-138 | each step of the client is a short sequence of sender events of the end-to-end model |
| `CSharpSender.EnservaUdpClient.CreateOutgoingMessage` | ClientExamples/CSharp/EnservaUdpClient.cs:299-316 | a reliable message takes the next id of its class, and its packet the next sequence |
| `CSharpSender.EnservaUdpClient.TrackReliableMessage` | ClientExamples/CSharp/EnservaUdpClient.cs:631-647 | the message joins the list with one attempt and its first sequence |
| `CSharpSender.EnservaUdpClient.RemoveAckedReliableMessages` | ClientExamples/CSharp/EnservaUdpClient.cs:649-666 | walking down the list, exactly the acknowledged entries go and the others keep their order |
| `CSharpSender.EnservaUdpClient.CollectDue` | ClientExamples/CSharp/EnservaUdpClient.cs:110-127 | exactly the entries out of attempts go, and what is due is collected, last first |
| `CSharpSender.EnservaUdpClient.SendAgain` | ClientExamples/CSharp/EnservaUdpClient.cs:129-131 | the message goes out under the next sequence |
| `CSharpSender.EnservaUdpClient.BookRetry` | ClientExamples/CSharp/EnservaUdpClient.cs:132-137 | the entry books the packet if it is still there; an entry removed meanwhile stays removed |
| `CSharpSender.CollectMeaning` | ClientExamples/CSharp/EnservaUdpClient.cs:110-127 | kept are the entries with fewer than five attempts, and collected those of them whose time has come |
| `CSharpSender.BackwardsIsReverse` | ClientExamples/CSharp/EnservaUdpClient.cs:115-127 | what is due goes out in the reverse order of the list |
| `CSharpSender.FirstRetry` | ClientExamples/CSharp/EnservaUdpClient.cs:631-647 | a tracked message is due 100 milliseconds later and not before |
| `CSharpSender.NextRetry` | ClientExamples/CSharp/EnservaUdpClient.cs:132-137 | a retry adds one attempt and one sequence and puts the next off by 100 milliseconds; after the fifth attempt there is no other |
| `CSharpSender.AckedMeaning` | ClientExamples/CSharp/EnservaUdpClient.cs:649-666 | an entry stays iff none of its sequences is the acknowledged one or has its bit set among the 64 below |
| `SnapshotDelta.DeltaGivesCurrent` | network/snapshot_delta.go:11-51 | previous minus despawned plus spawned plus changed is current, and the three key sets are disjoint |
| `SnapshotDelta.DeltaUnique` | network/snapshot_delta.go:11-51 | the content of a delta, the order of the despawned list included, leaves no choice |
| `SnapshotDelta.DeltaContents` | network/snapshot_delta.go:11-51 | spawned are the new objects, changed those with another value, despawned the missing ones by ascending type and id; an unchanged object is in none |
| `Sorting.StrLessMeaning` | network/snapshot_delta.go:43-48 | one string is before another iff at the first place where they differ it has the smaller byte or has ended |
| `SnapshotDelta.FlatInjective` | network/snapshot_delta.go:11-51 | on snapshots without empty type groups the objects determine the snapshot |
| `SnapshotDelta.DeltaThroughClone` | network/snapshot_delta.go:55-76 | a client that agrees with the cloned baseline up to re-marshalling agrees with the current snapshot after applying the delta |
| `SnapshotDelta.BuildSnapshotDelta` | network/snapshot_delta.go:11-51 | the two passes produce exactly the delta of the two snapshots, despawned sorted |
| `SnapshotDelta.CompareWithPrevious` | network/snapshot_delta.go:11-33 | the first pass finds exactly the spawned and the changed objects |
| `SnapshotDelta.CollectDespawned` | network/snapshot_delta.go:35-51 | the second pass finds exactly the missing objects, strictly sorted |
| `Baselines.Reconstruction` | network/udp.go:1397-1516 | under loss, duplication, reordering and resets at any moment, what a client holds is, value by value up to re-marshalling, the snapshot committed for the tick it holds |
| `Baselines.FullAfterResetUnlessRaced` | network/udp.go:1403-1411 | in every run, the first snapshot of the session and the first after every reset is full iff no delta is committed that a reset hit while it was encoded |
| `Baselines.Cadence` | network/udp.go:1478-1484 | in every run, any FullSnapshotEvery consecutive committed snapshots are not all deltas, raced ones aside |
| `Baselines.CadenceUnlessRaced` | network/udp.go:1478-1484 | without a race, one of any FullSnapshotEvery consecutive committed snapshots is full |
| `Baselines.DeltasInARow` | network/udp.go:1486-1505 | in every run, among deltas in a row of which n are raced there are at most (n + 1) times FullSnapshotEvery, less one |
| `Baselines.ResetRace` | network/udp.go:1486-1516 | from every reachable state with a delta encoded, a reset and the commit break the promise |
| `Baselines.DeltaIsReachable` | network/udp.go:1403-1411 | such states are reachable wherever deltas are enabled |
| `Baselines.BaselineTable.NextIsDelta` | network/udp.go:1403-1411 | a delta is chosen exactly when enabled, supported, not due for a full one and a baseline exists, which `Baselines.NextDraft` says of every run |
| `Baselines.NextDraft` | network/udp.go:1403-1411 | in every run, told from what was sent and reset alone: the next snapshot is a delta iff deltas are enabled, the client takes them, the last thing that happened is that a snapshot was sent, and the deltas at the end, plus one, are fewer than FullSnapshotEvery |
| `Baselines.KeepsUp` | network/udp.go:1486-1516 | a client that holds the newest committed snapshot, and any client after a reset, holds the next one as soon as it comes |
| `Baselines.BaselineTable.CommitSnapshotBaseline` | network/udp.go:1486-1505 | the connection's new baseline is the specified one, and no other connection's changes |
| `Baselines.BaselineTable.ResetSnapshotBaseline` | network/udp.go:1507-1516 | the connection's baseline is gone, and no other changes |
| `Interest.WithinIsInRange` | network/interest_management.go:202-260 | whatever is within the radius lies in the cells between the floor of both ends, for 2D and 3D positions |
| `Interest.VisibleInterestObjectKeys` | network/runtime.go:733-772 | the spatial-hash filter returns, for every object list and radius, exactly the keys of the visible managed objects that the client sees: its own if it includes itself, others without position or radius, and those whose squared distance is at most the square of the player's radius if positive, else the object's |
| `Interest.VisibleInterestObjectKeysLinear` | network/runtime.go:775-796 | the linear scan returns the same keys, so the two agree |
| `Interest.VisibleMeaning` | network/runtime.go:733-796 | the keys of the specification both are proved against are those of the objects seen, distance and radius written out |
| `Interest.MovedTogether` | network/interest_management.go:202-214 | moving both positions by the same amounts does not change whether one is within the radius of the other |
| `Interest.TurnedTogether` | network/interest_management.go:202-214 | nor does turning both in the plane |
| `Interest.TiltedTogether` | network/interest_management.go:206-209 | nor, when both have a height, does turning both about another axis |
| `Interest.WithinOnAxis` | network/interest_management.go:202-214 | along one axis it is the plain distance, the radius included |
| `Interest.HeightsIgnored` | network/interest_management.go:206-211 | heights count only when both positions have one |
| `Interest.QueryRadius` | network/interest_management.go:290-307 | no object that goes through the grid has a radius larger than the query's |
| `Interest.NearbyKeys` | network/runtime.go:763-769 | the candidates kept are exactly the visible ones among those the grid returned |
| `Interest.SpatialHash.Insert` | network/interest_management.go:227-234 | the index is registered under its position, unless the grid is disabled |
| `Interest.SpatialHash.Query` | network/interest_management.go:237-252 | returns every inserted index in range and nothing that was not inserted |
| `SnapshotView.SnapshotCharacterised` | network/runtime.go:509-551 | the filtered snapshot is a same-valued part of the scene snapshot, and an object is missing only if it is out of its effective radius or the player itself without IncludeSelf |
| `SnapshotView.OutOfInterestIsMissing` | network/runtime.go:733-772 | conversely, where keys tell identities apart, an object out of interest is missing |
| `SnapshotView.SceneIsCollect` | network/runtime.go:799-818 | the scene-filtered snapshot is what all visible entries make |
| `SnapshotView.InterestSnapshotObjects` | network/runtime.go:678-730 | the entries are the specified ones, and the player index names the player's own positioned entry or nothing |
| `SnapshotView.SceneSnapshotOf` | network/runtime.go:799-818 | the loop builds the specified scene snapshot |
| `SnapshotView.SnapshotForClient` | network/runtime.go:509-551 | a client always gets a same-valued part of the scene snapshot: all of it unless interest filtering is on and has a positioned player for it, and then exactly the objects seen from that player's position |
| `SnapshotView.ClientSees` | network/runtime.go:509-551 | the snapshot of a client with a positioned player has exactly the objects that are shown in its scene and are registered for no interest or near enough, told from the registrations |
| `SnapshotView.SceneMeaning` | network/scene_management.go:233-253 | the scene-filtered snapshot has exactly the shown objects with an identity whose scene is unset, global or the client's; an object of another scene is missing |
| `SnapshotView.SceneValue` | network/runtime.go:799-818 | an identity registered more than once has the value of the last object shown |
| `Bytes.BigEndianRoundTrip` | network/wire.go:1366-1406 | a number written in n bytes is read back from them |
| `Bytes.StringBack` | network/wire.go:1316-1341 | a string comes back with the rest untouched; the Go reader fails exactly when the string is empty and nothing follows |
| `Bytes.U16Layout` | network/wire.go:1366-1370 | two bytes, the high one first |
| `Bytes.U32Layout` | network/wire.go:1380-1384 | the upper half first |
| `Bytes.U64Layout` | network/wire.go:1394-1398 | the upper half first |
| `Bytes.StringLayout` | network/wire.go:1316-1323 | a string is its length in two bytes and then its bytes; over 2048 bytes it is refused |
| `Bytes.ShortNumber` | network/wire.go:1366-1378 | of a number that the input breaks off, Go takes the missing low bytes for zeros, unless nothing is left at all |
| `Unicode.Utf8Meaning` | ClientExamples/Rust/src/lib.rs:1009-1029 | the strings the Rust reader accepts are exactly the encodings of sequences of Unicode code points |
| `ValueCodec.ValueRoundTrip` | network/wire.go:1251-1314 | every value within the limits is read back exactly, leaving exactly the rest; the Go reader fails exactly when the input ends in an empty string |
| `ValueCodec.EntriesRoundTrip` | network/wire.go:1137-1162 | the same for the sorted entries of a map, whatever was read before |
| `ValueCodec.ItemsRoundTrip` | network/wire.go:1183-1196 | the same for the items of a list |
| `SnapshotCodec.SnapshotRoundTrip` | network/wire.go:969-1037 | every snapshot the writer accepts is read back exactly by the Rust reader; the Go reader fails exactly when nothing follows and the last object ends in an empty string |
| `SnapshotCodec.GoReaderRefuses` | network/wire.go:1325-1341 | a family of snapshots that the Go writer accepts and the Go reader refuses |
| `PacketCodec.EnvelopeRoundTrip` | network/reliability.go:110-184 | the reliable envelope comes back, for Go unless its payload is empty |
| `PacketCodec.FrameRoundTrip` | network/wire.go:254-274 | a framed message comes back iff the reader can carry it |
| `PacketCodec.PacketRoundTrip` | network/wire.go:248-372 | every packet the Go writer accepts comes back with sequence, acks and messages iff each message can be carried: no unreliable message of the envelope's kind, and for Go no empty payload at the end or in an envelope |
| `PacketCodec.SinglePacket` | network/wire.go:293-372 | a packet of one message comes back iff the reader can carry the message |
| `PacketCodec.ReencodingKeepsLength` | network/wire.go:248-290 | whether a packet encodes, and its length, depend on its messages alone |
| `Layout.PacketLayout` | network/wire.go:248-290 | byte by byte: the letters ES, version 1, the count, four zeros, sequence, ack and bits, the length, the frames |
| `Layout.PacketLimits` | network/wire.go:248-290 | refused are exactly packets of no or more than 32 messages, with a refused message, or of more than 60 KiB of frames |
| `Layout.FrameLayout` | network/reliability.go:110-134 | each message byte by byte, in an envelope of kind 7 if reliable, and the exact limits: classes 0 to 2, an id if reliable, 48 KiB |
| `Layout.ReadersInsist` | network/wire.go:293-330 | what either reader accepts starts with ES and version 1, announces 1 to 32 messages and has exactly the announced length |
| `Layout.PacketAccepted` | network/wire.go:293-330 | which headers either reader accepts, and that the rest is read from the ninth byte on |
| `Layout.FrameAccepted` | network/wire.go:330-372 | exactly which frames either reader accepts, and as what |
| `Layout.EnvelopeAccepted` | network/reliability.go:136-184 | exactly which envelopes either reader accepts, and as what: Go asks for an id and for a payload of 1 byte to 48 KiB |
| `Layout.ValueLayout` | network/wire.go:1086-1135 | the first byte of each of the eight kinds, and what follows it |
| `Layout.ListLayout` | network/wire.go:1183-1196 | a list is its size and its items in order; refused exactly over 65535 items, 16 levels, or with a refused item |
| `Layout.ObjectLayout` | network/wire.go:1137-1162 | an object is its size and its fields by ascending name; refused exactly over 65535 fields, 16 levels, or with a refused name or field |
| `Layout.LeafLimits` | network/wire.go:1086-1135 | other values are refused exactly beyond 16 levels, and strings over 2048 bytes |
| `Layout.ValueReadersInsist` | network/wire.go:1251-1314 | a reader takes no value beyond 16 levels, and the first byte, 0 to 7, says its kind |
| `Layout.FlagRead` | network/wire.go:1251-1314 | a flag is true for every byte but 0 |
| `Layout.DepthLimit` | network/wire.go:1251-1314 | either reader takes lists nested up to 16 levels and no deeper |
| `Layout.SnapshotLayout` | network/wire.go:969-1006 | a snapshot is the number of its types and the types by ascending name, each with its objects by ascending id; with the exact limits |
| `WireWriter.Writer.EncodeWireValue` | network/wire.go:1086-1135 | appends exactly the specified encoding or fails where it refuses |
| `WireWriter.Writer.EncodeSnapshotData` | network/wire.go:969-1006 | appends exactly the specified encoding or fails where it refuses |
| `WireWriter.SortKeys` | network/wire.go:973-977 | the keys come out in the one ascending order |
| `WireWriter.EncodeReliableEnvelope` | network/reliability.go:110-134 | produces the specified envelope or fails where it refuses |
| `WireWriter.EncodePacketWithAcks` | network/wire.go:248-290 | produces the specified packet or fails where it refuses |
| `WireReader.Reader.ReadBuffer` | network/wire.go:1372-1378 | short and empty reads behave as each language's reader does |
| `WireReader.Reader.TakeString` | ClientExamples/Rust/src/lib.rs:1009-1029 | reads exactly what the decoding function reads, or fails with it |
| `WireReader.Reader.DecodeWireValue` | network/wire.go:1251-1314 | reads exactly what the decoding function reads, or fails with it; the recursion ends |
| `WireReader.Reader.DecodeSnapshotData` | network/wire.go:1008-1037 | reads exactly what the decoding function reads, or fails with it |
| `WireReader.DecodeReliableEnvelope` | network/reliability.go:136-184 | decodes exactly what the decoding function does, or fails with it |
| `WireReader.DecodeDatagram` | ClientExamples/Rust/src/lib.rs:687-759 | decodes exactly the packets the decoding function does |
| `Budget.EveryRun` | network/udp.go:643-668 | whatever the clock does, the balance stays in [0, capacity] and is exactly the least that any window leaves of one bucket plus the window's inflow |
| `Budget.WindowBound` | network/udp.go:610-668 | whatever the clock does, the bytes granted in any window are at most capacity plus the inflow of its forward clock movement |
| `Budget.TokenBucketBound` | network/udp.go:610-668 | with a clock that does not step back, the bytes granted from any past call on are at most capacity plus capacity times the seconds since, written out |
| `Budget.GrantedInSeconds` | network/udp.go:610-668 | with such a clock a reservation is granted iff it is at most the capacity and every window ending with it stays within capacity plus capacity times its seconds |
| `Budget.EmptiedFillsInASecond` | network/udp.go:662-667 | a bucket emptied holds capacity times the seconds since, until it is full after one second, and stays so |
| `Budget.FirstRefill` | network/udp.go:647-656 | a budget never refilled grants up to the capacity at once, one without capacity nothing |
| `Budget.GrantedExactly` | network/udp.go:610-640 | after any run and for any clock, a reservation is granted iff no window ending with it would exceed one bucket plus its inflow: the bucket is the most generous limiter with that bound |
| `Budget.LimitIsExact` | network/udp.go:590-608 | right after the limit was read, a packet is granted iff it is no longer than the limit |
| `Budget.BoundIffClockForward` | network/udp.go:657-660 | capacity plus capacity times elapsed seconds bounds every window for all requests at given clock readings iff the readings never decrease |
| `Budget.ClientBudget.RefillClientBudget` | network/udp.go:643-668 | the fields become the specified refill, in each of its five cases; how fast that is, `Budget.EmptiedFillsInASecond` says |
| `Budget.ClientBudget.ReserveOutboundBudget` | network/udp.go:610-640 | grants exactly when the specification does, and counts a refusal as a deferral or a drop |
| `Budget.ClientBudget.OutboundBudgetLimit` | network/udp.go:590-608 | refills and returns the whole bytes available |
| `Trimming.TrimmedMeaning` | network/udp.go:1307-1345 | trimming drops exactly the first k objects of the drop order, keeps the others with their values, and keeps nothing of lower priority than what it drops |
| `Trimming.SnapshotDropCandidates` | network/udp.go:1353-1380 | the candidates are the one sequence ordered by ascending priority, then descending type and id |
| `Trimming.DropOrderMeaning` | network/udp.go:1353-1380 | of two candidates the one of lower priority is dropped first, the default standing in for a missing one; with equal ones the greater type, then the greater id |
| `Trimming.FilterSnapshotForLimit` | network/udp.go:1307-1345 | finds the least positive k whose encoding fits, or reports that an encoding failed first, or that none fits |
| `Trimming.LeastPrefixFound` | network/udp.go:1316-1331 | those outcomes exclude each other, so a least fitting prefix is always found |
| `Trimming.FitToLimit` | network/udp.go:1273-1296 | the result fits, is the whole snapshot or the least prefix trimmed off, and is found whenever there is one for a positive limit |
| `Trimming.EncodeBudgetedSnapshot` | network/udp.go:1258-1297 | what is charged is what is sent, byte for byte; a charged snapshot exceeds neither the server's maximum nor the client's; the reservation is never refused; whenever the whole snapshot or a least prefix fits a positive limit it is the one sent; and what is counted when nothing is sent |
| `Trimming.ValidLengthMeaning` | network/udp.go:572-580 | a payload passes the size check iff it exceeds neither the server's maximum nor the client's, if it has one |
| `Trimming.SizeLimitMeaning` | network/udp.go:1264-1271 | the limit that a snapshot is fitted to is those two maxima and what the bucket holds |
| `InputBuffer.StableSortMeaning` | network/input_buffer.go:180-196 | the sort orders by tick, sequence, type, id, target and keeps inputs with equal keys as they came |
| `InputBuffer.StableSortUnique` | network/input_buffer.go:180-196 | that promise has only one solution |
| `InputBuffer.SortOrder` | network/input_buffer.go:180-196 | in the sorted list a smaller tick comes first, then a smaller sequence, then type, id and target as strings |
| `InputBuffer.BufferIsBatchSort` | network/input_buffer.go:91-98 | after any adds for any clients, a client's buffer is the last InputBufferLimit entries of the stable sort of all its accepted inputs |
| `InputBuffer.ArrivalOrderIrrelevant` | network/input_buffer.go:91-98 | while a key means one input, any arrival order of the same inputs gives the same buffer, overflow included |
| `InputBuffer.WindowExact` | network/input_buffer.go:82-89 | accepted iff within the past and future windows, as long as the upper end does not wrap |
| `InputBuffer.CurrentTickAccepted` | network/input_buffer.go:86-89 | an input for the current tick is accepted iff current tick plus future window stays below 2^64 |
| `InputBuffer.VerdictMeaning` | network/input_buffer.go:64-89 | in terms of the input as it came: which are refused and as what, and what exactly an accepted one is stored as |
| `InputBuffer.RefusalMeaning` | network/input_buffer.go:82-89 | a refused input changes nothing but its counter |
| `InputBuffer.KeepsTheLatest` | network/input_buffer.go:91-98 | a buffer that overflowed holds the last inputs of the sorted list, as many as the limit |
| `InputBuffer.EveryRun` | network/input_buffer.go:64-171 | over any mix of operations every accepted input was handed out once, dropped once or is still held, counters agree, and every list is ordered, bounded and its client's own |
| `InputBuffer.Conservation` | network/input_buffer.go:64-171 | Buffered = Consumed + Dropped + held |
| `InputBuffer.PartitionInPlace` | network/input_buffer.go:116-124 | writing the kept inputs into the slice being read returns exactly the matching ones and keeps exactly the others, both in order |
| `InputBuffer.Buffer.AddInput` | network/input_buffer.go:64-100 | the verdict and the new state are the specified ones |
| `InputBuffer.Buffer.StoreInput` | network/input_buffer.go:91-98 | append, stable sort, drop the oldest over the limit |
| `InputBuffer.DropSurplus` | network/input_buffer.go:93-96 | the loop leaves the newest entries and counts the others |
| `InputBuffer.Buffer.ConsumeInputs` | network/input_buffer.go:102-132 | hands out exactly the client's inputs whose tick is the one asked for, in order, and keeps the others |
| `InputBuffer.Buffer.ConsumeInputsForObject` | network/input_buffer.go:134-171 | hands out exactly the inputs of that tick whose type is the one asked for up to case, or none was asked for, and whose object or target has the id asked for, or none was |
| `InputBuffer.TakeHandsOut` | network/input_buffer.go:102-171 | taking what is wanted by its key hands out all inputs of each wanted key and keeps all others, each in their order |

## Left out

- Sockets, tickers, goroutine start, logging, the HTTP debug endpoints and the browser frontend: input and output only. A clock reading, whether a packet could be sent, and map visiting order are parameters or events.
- Reflection, `payload.go` and `encoding/json`: a wire value is an algebraic value, a snapshot value is its JSON text, and cloning is a text function that changes nothing the second time (an assumption of `Baselines.Reconstruction`).
- Trimming white space, case folding and reading a position out of an object are function parameters.
- Floating point: positions, radii and budget are exact reals, floats on the wire are bit patterns. Rounding, NaN, infinities and the branch for positions that are not finite are not modelled.
- Error identities and texts: a failed encoding or decoding is one value.
- Exhaustion of 64-bit counters: sending stops being possible when sequences or ids run out; `reliableOrderedNext` and the metrics counters are unbounded.
- The reader object holds the bytes not yet read, instead of the whole input and an offset.
- The Go decoder reads a few header fields while ignoring their errors; the header length check makes that the same as failing.
- Snapshot object reference lists, the fixed-field message codecs and the message registry: easy members once strings and numbers are proved.
- Counters of dropped requests and the lists of clients in the debug state.
- The Rust retry list is modelled as a set of pending entries in `Transport`, not as a list updated in place. The C# list holds values: an entry is found by its message, where the source keeps references to entries that may have left the list.
- Attempt limits, retry intervals and queue limits in `Transport`: entries may expire, and messages be sent again, at any time there; `RetryQueue` and `CSharpSender` have the limits.
- Packets with several messages in `Transport`: the servers and clients send one message a packet; the codec modules cover several.
- A Rust client drops the rest of a packet's accepted messages when one fails to decode as a server message (ClientExamples/Rust/src/lib.rs:461-465), and a C# client when dispatching one throws (ClientExamples/CSharp/EnservaUdpClient.cs:385-386): delivery here ends where reassembly hands messages on.
- Client and authentication bookkeeping (unique authenticated ids, the client limit, timeouts beyond what discards a retry queue): small invariants of single methods.
- Changes of configuration during a run, and `Config.Normalized`: limits are constants of a run.
- Minimality of deltas: cloning through JSON can report an unchanged value as changed.
- RetryQueue.UdpServer.BeginSend: id and sequence are taken in one step, though the source releases its lock in between; nothing else looks at either number before the second half.
- CSharpSender.EnservaUdpClient.CreateOutgoingMessage: takes id and sequence in one step, though the source releases its lock in between.
- RetryQueue.UdpServer.CollectReliableRetransmits: its caller checks each retry's size and budget before writing it (network/udp.go:963-977); a retry held back there is, like a lost one, sent again later.
- A send still under way when its client times out: its entry would go to a client that is no longer there.
- An unreliable message of kind 7, which every reader takes for an envelope, is never sent in `Transport`.
- Transport.WrongBookingLoses: asks, like Transport.ForbiddenRetryLoses, for 64 more sequences before the counter runs out, since the server's staleness test wraps around there.
- Budget.TokenBucketBound: asks for a clock that does not step back, the exact condition by `Budget.BoundIffClockForward`.
- SnapshotView.OutOfInterestIsMissing: needs keys that tell identities apart, since a type containing a slash can share a key with another object.
