# NEAT, verified state machines

NEAT is a callback-driven transport library written in C. An application opens a flow; the library
resolves the peer, races the candidates against each other, and then carries reads and writes over
TCP, MPTCP, SCTP, UDP or UDP-Lite from one event loop. This project models the parts of it whose
correctness depends on the order of events, and proves what they keep over every run.

Sockets, timers, DNS servers and the application are not modelled as code. What they decide is a
parameter: how many bytes the kernel takes, which event arrives next, what a callback calls, which
records a reply holds. Every main theorem quantifies over all of these.

Each part has the same shape. A specification machine says what one step does to a value. Lemmas
prove an invariant of the step and, from it, theorems about every run. A class with the source's
own fields and loops then carries out the steps in place, and each of its methods is proved equal
to the step of the machine, so that the theorems hold of it.

What a machine records of itself is tied to its events by theorems that read the events alone: what
was written (`WriteCalls.WrittenIsAccepted`), what arrived (`ReadSpec.ReceivedIsArrived`), who wins
and who fails (`RaceFates.SocketIsFirst`, `RaceFates.FailureReportedIff`), what was asked for
(`ResolverRequests.RequestsAreAsked`), which addresses are listed (`AddressBook.SourcesAreListed`),
which flows joined (`MultistreamFlows.FlowsConserved`). Others say that things do happen: bytes leave
(`WriteProgress.WritableSends`, `WriteProgress.EverythingSent`), drains are reported
(`WriteCalls.DrainReportedIff`), reads return (`ReadSpec.ReadReturnsPiece`,
`ReadSpec.ReadReturnsBytes`), lookups are answered with all that is due
(`ResolverAnswers.TimerAnswers`), and files are saved (`PeerGoodRun.FileIsSaved`).

| part | machine and theorems | in place |
|---|---|---|
| buffered write path | `WriteSpec`, `WriteProofs`, `WriteLabels`, `WriteProgress`, `WriteCalls`, `WriteShutdown` | `WriteBuffer`, on arrays |
| read path | `ReadSpec` | `ReadBuffer`, on an array |
| poll registration, on top of the write path | `PollEvents`, `PollSteps` | `PollEvents.PollHandle` |
| Happy Eyeballs race | `HappyEyeballs`, `RaceFates` | `RaceList`, on a tail queue of `Queues` |
| multihoming merge and split | `Multihoming` | `Multihoming.Combine`, on an array |
| resolution groups, on top of the resolver | `ResolutionGroups`, `ResolutionRuns`, `ResolutionLink` | `ResolutionRuns.Lookup` |
| SCTP multistream accounting | `Multistream`, `MultistreamFlows` | `MultistreamList`, on a list of `Queues` |
| source addresses and DNS resolver | `DnsReplies`, `Resolver`, `ResolverProofs`, `ResolverAnswers`, `ResolverLookups`, `ResolverRequests`, `ResolverPairs`, `AddressBook` | `ResolverContext` |
| DNS server list | `ServerList` | `ServerList.Servers` |
| JSON framing on the local socket | `JsonFraming` | `JsonFraming.Framer` |
| stop-and-wait file transfer | `PeerTransfer`, `PeerProofs`, `PeerArrivals`, `PeerSaves`, `PeerExample`, `PeerGivesUp`, `PeerGoodRun` | `PeerNode`, on bytes of `PeerWire` |
| intrusive lists and tail queues | `Queues` | `Queues`, on linked objects |

## Where the code falls short of what it seems to promise

The models follow the code. Seven laws hold only under a condition; each has a theorem that says
exactly when it holds, and an example that breaks it.

- Message boundaries. The reads are the peer's messages if and only if no end of file or shutdown
  event came in the middle of one (`ReadSpec.CutExample`) and no datagram was longer than the read
  buffer, whose tail is lost while the read succeeds (`ReadSpec.OversizedExample`). The theorems are
  `ReadSpec.WholeIff` and `ReadSpec.BoundariesPreserved`.
- Failed races. The attempt count has 8 bits. The report that all candidates failed comes exactly
  when all have failed if and only if there are at most 256 of them (`HappyEyeballs.ReportExactIff`,
  `HappyEyeballs.EarlyReport`).
- Stream use count. The count is the number of flows on the association if and only if no stream
  had both directions reset before its flow was connected: such a flow is counted down but stays in
  the list (`Multistream.CountIff`, `Multistream.EarlyResetExample`).
- Poll registration. A socket is registered for exactly what its flows need, except after a flow has
  left that was the last to need some event: nothing updates the registration then
  (`PollEvents.StaleIff`, `PollEvents.StaleExample`). No event that is needed is ever missing.
- File transfer. A receiver accepts segment 0 again and again until segment 1 has arrived, so a
  repeated copy ends up in the file (`PeerExample.RepeatedSegment`); and a receiver that gives up
  after its retries saves what it has (`PeerGivesUp.CutShort`). For every save, the saved file is
  right if and only if the file is empty, or exactly one copy of segment 0 and the last segment
  arrived, or copies of segment 0 stand in for missing segments by accident, which needs a file of
  full segments that begins with two equal ones (`PeerSaves.SavedRightIff`). After COMPLETE it is
  right if and only if exactly one copy of segment 0 arrived (`PeerSaves.SavedRightIffOnce`).
- JSON framing. With several documents, a document is delivered without the closing bracket of the
  one before if and only if a chunk ends between the two (`JsonFraming.FramingIff`,
  `JsonFraming.TwoInOneChunk`).
- Literals. The results of a literal lookup repeat nothing if and only if its addresses do not
  repeat or no source is usable (`ResolverProofs.LiteralCleanIff`, `ResolverProofs.RepeatedLiteral`).
  Name lookups need no condition.

Four smaller findings:

- A stream reset event looks up its flow and uses it before asking whether there is one
  (neat_core.c:7228-7231). A null flow is followed exactly when a reset names a stream without a
  listed flow, for example a late reset of a flow that the application has closed
  (`Multistream.FaultIff`, `Multistream.LateResetExample`).
- A built-in DNS server that resolv.conf lists once loses its static mark, and is gone when a later
  file drops it (`ServerList.ListedBuiltinsAreLost`).
- The built-in IPv6 servers are parsed as IPv4 addresses, which fails, so that none of them is ever
  in the list (neat_resolver_conf.c:230-238).
- Preparing a message copies six bytes too many, and leaves the buffer for payloads of 1389 to 1394
  bytes (`PeerNode.MessageBuffer.Prepare`).

## Model

| member | source | states |
|---|---|---|
| `WriteProofs.WriteConservation` | neat_core.c:4664-5201 | In every run of writes, shutdowns, callback changes and writable events against any kernel, the bytes the kernel took followed by the queued bytes are all successfully written bytes, in order; no queued message is empty |
| `WriteProofs.MessageFraming` | neat_core.c:4706-4807 | With explicit EOR, in every run the kernel log cut at effective EOR marks is a prefix of the written messages, each whole and on its own stream id and ordering; the open rest and the queue are exactly the remaining messages |
| `WriteProofs.DrainSafety` | neat_core.c:1077-1108 | In every run the drain flag holds exactly when the queue is not empty; shutdown and the drain report happen only when every accepted byte has reached the kernel; two drain reports have a write call between them |
| `WriteProgress.WritableSends` | neat_core.c:1077-1108 | A writable event of a draining flow hands queued bytes to the kernel in order: one send of at least a byte for each answer in a row that accepts, fewer only if nothing is left; what callbacks do comes after |
| `WriteProgress.FirstSend` | neat_core.c:4706-4807 | Its first send is the front of the oldest message: as much as the kernel takes of what the write limit lets it be offered, with the stream data of the message, ending the record exactly with its last byte |
| `WriteProgress.FlushTerminates` | neat_core.c:4664-4817 | With an accepting answer for every queued byte the event sends all of them |
| `WriteProgress.EverythingSent` | neat_core.c:1077-1108 | In every run such an event leaves nothing unsent of all that was written before |
| `WriteCalls.WriteEffect` | neat_core.c:5014-5201 | A write that is not refused sends the front of the message at once if the queue is empty and the kernel accepts, and queues exactly the rest; one that is refused sends and queues nothing; a missing peer starts closing |
| `WriteCalls.CloseEffect` | neat_core.c:6532-6554 | A close call is remembered, and shuts the transport down at once if and only if nothing is queued |
| `WriteCalls.WrittenIsAccepted` | neat_core.c:4888-5201 | In every run the written messages are those of the calls that were not refused, from outside or in callbacks that an event runs, in order and with the caller's bytes, stream and order flag; the kernel log and the queue have exactly their bytes |
| `WriteCalls.DrainReportedIff` | neat_core.c:1834-1849 | A writable event reports the drain, once, if and only if the application asked for it, has called since the last report, is not closing, and everything queued is sent |
| `WriteCalls.EventReports` | neat_core.c:1077-1108 | With any calls in the writable callback, the drain is reported once if and only if, after these calls or the flush, the flow neither drains nor closes, wants the report and has called since the last one |
| `WriteCalls.CallsCount` | neat_core.c:1077-1108 | In every run each call has left its trace and the handlers are those set last |
| `WriteLabels.LabelConservation` | neat_core.c:4819-4885 | In every run each byte is sent or waits with the stream and order flag of its message; only TCP merges messages, any other queued message is a written one or the end of one; only explicit EOR ends records |
| `WriteProofs.DeferredShutdown` | neat_core.c:1077-1108 | A flow shut down while draining issues the shutdown as the last act of the writable event that empties its queue, whatever the kernel answered |
| `WriteShutdown.CloseIsHonoured` | neat_core.c:6532-6554 | In every run each close call of the application is followed by the shutdown of the transport, or data is still queued and the flow remembers the call |
| `WriteShutdown.StepObeyed` | neat_core.c:1077-1108 | Every event, with the calls made inside callbacks, keeps this: a queue never becomes empty without the shutdowns that were asked for |
| `WriteProofs.RecordedIff` | neat_core.c:4960-5201 | A write of data counts as written, once and last, with the caller's bytes and order flag and the right stream, if and only if its stream id is not negative, it fits where it must go in one piece, and a send on an empty queue does not fail |
| `WriteProofs.WriteCodes` | neat_core.c:4960-5017 | Each error code of a write if and only if its cause holds; a write never reports would-block |
| `WriteProofs.FailedWriteInert` | neat_core.c:5167-5177 | A write that fails sends nothing, queues nothing and leaves the drain flag |
| `WriteProofs.GoodWriteRecorded` | neat_core.c:5183-5201 | A successful write of data counts as exactly one message, with the caller's bytes and order flag, on the flow's own stream, the caller's, or 0 |
| `WriteProofs.StepKeeps` | neat_core.c:1077-1108 | Every event keeps conservation, framing, the drain flag and the order of reports, also with calls made inside callbacks |
| `WriteProofs.SendConserves` | neat_core.c:4787-4807 | One accepted send moves bytes from the queue to the kernel, in order, and shortens the queue |
| `WriteProofs.FillConserves` | neat_core.c:4819-4885 | Buffering the rest appends exactly its bytes, and leaves an empty queue only if there was nothing to buffer |
| `WriteSpec.StreamId` | neat_core.c:4960-4979 | The stream is the flow's own on a shared association, else 16 bits of the caller's on SCTP with several streams, else 0 |
| `WriteSpec.Socket.Offer` | neat_core.c:5019-5028 | A send offers all there is, or exactly the write limit on SCTP with explicit EOR, and there never more than a positive limit |
| `WriteBuffer.RoundUp` | neat_core.c:4863-4864 | Allocations are the least multiple of 8 KiB that is enough |
| `WriteBuffer.BufferedMessage.Append` | neat_core.c:4856-4884 | Appending in place, after compaction or in a new allocation adds the bytes behind the unsent ones and stays inside the allocation |
| `WriteBuffer.BufferedMessage.Grow` | neat_core.c:4863-4881 | Reallocation keeps the unsent bytes and drops the sent ones |
| `WriteBuffer.BufferedMessage.Consume` | neat_core.c:4794-4805 | A partial send drops exactly the bytes the kernel took |
| `WriteBuffer.MessageQueue.FillBuffer` | neat_core.c:4819-4885 | The queued buffers hold what the specification's queue holds after buffering the rest |
| `WriteBuffer.MessageQueue.SendFront` | neat_core.c:4706-4807 | The bytes, stream data and EOR flag taken out of the first buffer, and the queue left behind, are those of the specification |
| `WriteBuffer.Flow.Write` | neat_core.c:6455-6489 | A write has the code, the queue, the flags and the sends of the specification |
| `WriteBuffer.Flow.SendAndBuffer` | neat_core.c:5014-5201 | The direct send and the buffering of the rest are those of the specification |
| `WriteBuffer.Flow.FlushQueue` | neat_core.c:4664-4817 | The flush loop sends, unlinks and returns what the specification says, for every sequence of kernel answers |
| `WriteBuffer.Flow.ShutDown` | neat_core.c:6532-6554 | Shutdown is deferred exactly while the flow drains |
| `WriteBuffer.Flow.OnWritable` | neat_core.c:1077-1108 | A writable event carries out the specification's step, including what callbacks do |
| `ReadSpec.ReceivedIsArrived` | neat_core.c:1386-1832 | In every run what was received is what the events bring: fragments their bytes, datagrams what there is room for, end of file and shutdown events marks |
| `ReadSpec.ReadConservation` | neat_core.c:1386-1832 | In every run of fragments, datagrams, notifications, end of file and reads, delivered bytes followed by buffered bytes are the bytes that the events brought; notifications add nothing |
| `ReadSpec.ReadReturnsPiece` | neat_core.c:5281-5314 | In every run with boundaries a read returns the next piece of what arrived, reports one that is too big, or would block, each exactly when it must |
| `ReadSpec.ReadReturnsBytes` | neat_core.c:5281-5314 | In every run without boundaries a read returns as many of the next bytes that arrived as it asks for; then an end of file once; else it would block |
| `ReadSpec.EofSeenIff` | neat_core.c:1789-1802 | In every run an end of file is still to be reported exactly if a mark came and no empty read since |
| `ReadSpec.ReadsArePieces` | neat_core.c:5281-5314 | With boundaries, the successful reads are in order and exactly the pieces into which ends of record and marks cut what arrived |
| `ReadSpec.WholeIff` | neat_core.c:1789-1802 | The non-empty pieces are whole messages of the peer if and only if no end of file or shutdown came inside a message and nothing of a datagram was lost |
| `ReadSpec.BoundariesPreserved` | neat_core.c:5281-5314 | In every run the non-empty reads and the waiting message are exactly the peer's messages if and only if there was no such cut and no datagram was longer than the read buffer |
| `ReadSpec.TruncatedIff` | neat_core.c:1492-1517 | In every run data is lost if and only if some datagram was longer than the read buffer |
| `ReadSpec.PiecesVersusMessages` | neat_core.c:1680-1702 | Without a cut and without lost data the pieces are the messages; after one, some piece is a proper part of, or differs from, the message in its place |
| `ReadSpec.CutExample` | neat_core.c:1789-1802 | A fragment, a shutdown event and a read deliver half a message |
| `ReadSpec.OversizedExample` | neat_core.c:1492-1517 | Any datagram longer than the buffer, and one read: the code is Ok and the tail is missing, with no cut |
| `ReadBuffer.ReadFlow.Resize` | neat_core.c:1355-1384 | There is room for the threshold afterwards, the contents are kept, and with enough room nothing changes, so a second call does nothing |
| `ReadBuffer.ReadFlow.ReceiveFragment` | neat_core.c:1789-1802 | A fragment is copied behind the contents as far as it fits; end of record counts only when all of it fitted |
| `ReadBuffer.ReadFlow.ReceiveNotification` | neat_core.c:1680-1702 | A notification is parsed in the buffer and leaves the contents alone |
| `ReadBuffer.ReadFlow.ReceiveDatagram` | neat_core.c:1492-1517 | Into an empty buffer of the threshold's size goes as much of the datagram as fits; the state records what was kept and what was lost |
| `ReadBuffer.ReadFlow.Read` | neat_core.c:5281-5314 | A read returns the first bytes of the buffer, keeps the rest in order, and has the specification's code |
| `ReadBuffer.Threshold` | neat_core.c:1364-1369 | The room asked for is a quarter of the read size rounded up to 8 KiB, 8 KiB for a read size of 0, and positive exactly for a read size of 0 or at least 4 |
| `PollEvents.NoLostWakeup` | neat_core.c:1868-1958 | In every run of calls, poll steps, joining and leaving flows, a handle that is not closing is registered for writing if a flow has a writable callback, queued data or is an SCTP flow not connected yet, and for reading if one reads, wants SCTP notifications or the socket waits for one; these flows know that they are polled |
| `PollEvents.ExactRegistration` | neat_core.c:1868-1958 | In every run in which no flow left, it is registered for exactly these |
| `PollEvents.StaleIff` | neat_core.c:742-800 | A flow that leaves makes an exact registration stale if and only if it was the last to need some event |
| `PollEvents.StaleExample` | neat_core.c:742-800 | A run: a flow joins, its write blocks, it leaves, and the socket stays registered for writing |
| `PollEvents.PollKeeps` | neat_core.c:2430-2503 | Every poll step leaves an exact registration, whatever it found before |
| `PollEvents.StepKeeps` | neat_core.c:2430-2503 | Every call, poll step, join and leave keeps all needed events registered and every flow's write path sound |
| `PollEvents.CallRegisters` | neat_core.c:930-956 | Calls keep what is needed registered and an exact registration exact, also failed writes and shutdowns that do not look at the handle; calls that update make it exact |
| `PollEvents.SilentCall` | neat_core.c:5189-5200 | A call that skips the registration changes nothing its flow needs |
| `PollEvents.UpdateRegisters` | neat_core.c:1868-1958 | Updating makes the registration what the flows need |
| `PollEvents.Collect` | neat_core.c:1898-1948 | One pass over the flows finds the union of their needs and marks the flows that are polled |
| `PollEvents.PollHandle.UpdatePollHandle` | neat_core.c:1868-1958 | The handle's fields become those of the specification, and the registration is exact |
| `PollSteps.CallActs` | neat_core.c:930-956 | A call acts on the write path and the callbacks of its flow and on no other flow |
| `PollSteps.PollServes` | neat_core.c:2430-2503 | A poll step serves the flows one after the other, each with its greeting, its writable event, its read and the calls of its callbacks, up to a read that fails; what is registered changes none of it |
| `PollSteps.WaitingPoll` | neat_core.c:2430-2450 | A socket that waits for notifications serves no flow; data, or a notification seen before when nothing is readable, ends the wait |
| `PollSteps.NotificationSeen` | neat_core.c:2430-2503 | A notification is remembered exactly if the step read one |
| `PollSteps.JoinAndLeave` | neat_core.c:742-800 | A flow that joins stands in front and is served; a flow that leaves is gone, the registration stays, and the handle closes with the last one |
| `HappyEyeballs.OneWinner` | neat_core.c:2198-2341 | In every run at most one candidate wins, it is the flow's socket, and with up to 255 candidates the count is the number of candidates not failed |
| `HappyEyeballs.WinnerIsFinal` | neat_core.c:2198-2341 | No later event changes the winner |
| `HappyEyeballs.FirstSuccessWins` | neat_core.c:2198-2310 | The first candidate to connect becomes the socket |
| `HappyEyeballs.FailureReport` | neat_he.c:60-101 | With at most 256 candidates the all-failed report comes once if all fail, otherwise never, and never after a winner |
| `RaceFates.FailureReportedIff` | neat_he.c:60-101 | With at most 256 candidates total failure is reported, once, if and only if each of them had a failed timer, or a first completion that was refused or turned down |
| `RaceFates.SocketIsFirst` | neat_core.c:2198-2341 | In every run the socket is the first candidate whose first completion succeeds, and until then every candidate is where its own events brought it |
| `RaceFates.ReadyDecides` | neat_core.c:2198-2341 | In every run a completion breaks its candidate, waits for the winner's first write, makes it the winner, or gives it up and takes one from the count, each exactly when it must |
| `RaceFates.TimerDecides` | neat_he.c:60-101 | In every run a timer starts its candidate or gives it up |
| `RaceFates.PendingIff` | neat_core.c:2198-2341 | In every run the first write is pending exactly if no step since the win saw the winner writable |
| `HappyEyeballs.ReportExactIff` | neat_he.c:283-323 | The report is exact in all runs if and only if there are at most 256 candidates |
| `HappyEyeballs.EarlyReport` | neat_he.c:283-323 | With more than 256 candidates some run reports total failure while a candidate still waits for its timer |
| `RaceList.Race.Open` | neat_he.c:283-323 | Walking the linked candidates starts one timer each and counts them in 8 bits |
| `RaceList.Race.TimerFired` | neat_he.c:60-101 | A timer starts polling or gives up its candidate, which is unlinked unless it was the last attempt; every candidate with an active timer or handle stays linked |
| `RaceList.Race.HandleReady` | neat_core.c:2198-2341 | A completion hands its handle over, closes it, or unlinks the candidate, and the race takes its step; no handler can find a freed candidate |
| `RaceList.CandidateList.Remove` | neat_queue.h:430-437 | Unlinking takes exactly one candidate out of the list |
| `Multihoming.MergeRoundTrip` | neat_core.c:3107-3183 | Splitting a merged candidate's source at connect time gives back the sources of its group in order, the first 64, and their number is the recorded one |
| `Multihoming.OnePerDestination` | neat_core.c:3107-3183 | After the merge no two SCTP candidates have the same destination |
| `Multihoming.EveryDestinationKept` | neat_core.c:3107-3183 | Every SCTP destination is still there, with all sources of its group |
| `Multihoming.EverySourceKept` | neat_core.c:3107-3183 | A destination's candidate has as many sources as there were candidates for it, up to 64, and each of these has its source at its place |
| `Multihoming.OthersAt` | neat_core.c:3107-3183 | The list of other stacks has each of them at the place that it had among them |
| `Multihoming.OthersUntouched` | neat_core.c:3107-3183 | Candidates of other stacks keep their fields and their order |
| `Multihoming.SplitJoin` | neat_core.c:5543-5575 | Splitting at commas undoes joining with commas |
| `Multihoming.SplitAddresses` | neat_core.c:5543-5575 | The loop over tokens finds the tokens of the specification |
| `Multihoming.Absorb` | neat_core.c:3122-3159 | The body of the inner loop merges one candidate into the current one as specified |
| `Multihoming.Combine` | neat_core.c:3107-3183 | The nested loops on the candidate array leave the first candidate of each group, merged, and the other stacks |
| `ResolutionGroups.GroupsPartition` | neat_core.c:3420-3503 | Every candidate is in exactly one group, the one of its name and port |
| `ResolutionGroups.GroupCandidates` | neat_core.c:3456-3503 | The loop builds such groups, and the shared counter starts at their number |
| `ResolutionGroups.FirstMatchIs` | neat_core.c:3357-3397 | A candidate's match is the first printable result on its interface whose family is that of its source, if the source is an address |
| `ResolutionGroups.ResolveMembers` | neat_core.c:3357-3404 | The loops over results and group members give each member its first match or clear its interface, and touch nothing else |
| `ResolutionRuns.ContinuationOnce` | neat_core.c:3408-3417 | In every run the counter is the number of groups outstanding, and the continuation runs once, at the last callback |
| `ResolutionLink.LookupsContinueOnce` | neat_core.c:3408-3503 | For every run of the resolver, the groups that answered are those whose lookup was called back, no callback is ignored, and the continuation has run, once, if and only if all were |
| `ResolutionLink.AnswersAre` | neat_core.c:3357-3417 | Callbacks that never repeat a lookup give each group at most one answer, and exactly the called-back groups one |
| `ResolutionLink.NoneIgnored` | neat_core.c:3408-3417 | The countdown takes every answer of a run in which no group answers twice |
| `ResolutionRuns.SurvivesIff` | neat_core.c:3237-3283 | A candidate keeps its interface if and only if some result of its lookup suits it, carries the address of the first, and is then handed on |
| `ResolutionRuns.ForwardIff` | neat_core.c:3237-3283 | Exactly the candidates with an interface are handed on |
| `ResolutionRuns.ForwardInOrder` | neat_core.c:3237-3283 | They are handed on in order |
| `ResolutionRuns.Lookup.constructor` | neat_core.c:3420-3503 | The groups partition the list and the machine starts with all of them outstanding |
| `ResolutionRuns.Lookup.OnResolved` | neat_core.c:3333-3417 | A callback resolves its group in place, counts down, and hands on the list when it is the last |
| `Multistream.CountIff` | neat_core.c:7212-7271 | In every run the use count is the number of listed flows if and only if no event completed the reset of a stream whose flow was not connected |
| `Multistream.PrematureIff` | neat_core.c:7230-7265 | One step changes the difference between count and list exactly when it is such a reset |
| `Multistream.LeavingOnce` | neat_core.c:6725-6807 | Without such resets each flow that left counted down once, no listed flow did, and the socket was closed only with no other flow left, also when on_close closes again |
| `Multistream.ResetClosesIff` | neat_core.c:7212-7271 | The reset of the second direction closes an open flow, in either order; the first does not |
| `Multistream.LastCloseShutsSocket` | neat_core.c:6774-6807 | Closing an open flow closes the socket exactly when it is the last one |
| `Multistream.EarlyResetExample` | neat_core.c:7230-7265 | The first flow of an association, reset in both directions before its first writable event, counts down twice, and the socket is never closed |
| `Multistream.FaultIff` | neat_core.c:7226-7234 | In every run a null flow was followed if and only if some reset named a stream without a listed flow |
| `Multistream.LateResetExample` | neat_core.c:7226-7234 | A flow is closed by the application and then reset by the peer: a null flow is followed |
| `MultistreamFlows.FlowsConserved` | neat_core.c:1713-1756 | In every run the flows that the events brought are exactly those listed and those that left |
| `MultistreamFlows.JoinAdds` | neat_he.c:235-262 | In every run an event that brings a flow lists it in front, with its stream, and counts it; one that cannot changes nothing |
| `MultistreamFlows.CloseTakes` | neat_core.c:6774-6807 | In every run a close takes an open flow off the list and counts it down; a flow that is not connected stays |
| `MultistreamFlows.CloseShuts` | neat_core.c:6725-6807 | In every run a close that leaves the count at zero closes the socket, and once more for every close made inside on_close |
| `MultistreamFlows.ConnectOpens` | neat_core.c:996-1070 | In every run a connected flow is open from then on |
| `MultistreamList.FlowList.Find` | neat_core.c:7153-7175 | Walking the links finds the first flow with the stream number |
| `MultistreamList.FlowList.RemoveFlow` | neat_core.c:774-778 | Unlinking takes exactly one flow out of the list |
| `MultistreamList.FlowList.InsertFlow` | neat_core.c:1745-1747 | A new flow is linked in front of the others |
| `MultistreamList.Association.ResetStream` | neat_core.c:7212-7271 | A reset event sets the flags of the flow object it finds, or records that it followed a null flow, and takes the step of the machine |
| `MultistreamList.Association.CloseFlow` | neat_core.c:6774-6807 | An application close of a linked flow takes the step of the machine |
| `MultistreamList.Association.NotifyClosed` | neat_core.c:6725-6753 | Notification marks the flow closed, runs on_close with its nested closes, and unlinks it |
| `MultistreamList.Association.PiggybackFlow` | neat_he.c:235-262 | Piggybacking links a connected flow whose stream number is the new count |
| `MultistreamList.Association.IncomingData` | neat_core.c:1713-1756 | Data on an unknown stream opens a flow, on a known one nothing |
| `DnsReplies.CheckDuplicate` | neat_resolver_helpers.c:128-204 | An address is a duplicate if and only if some pair of the same source has it |
| `DnsReplies.TakeReply` | neat_resolver.c:604-662 | A reply stores unseen addresses from the first slot on, at most three; only the pair's first slots change; every other record was seen before or is stored |
| `DnsReplies.TakeRecordsKeeps` | neat_resolver.c:604-662 | Any reply keeps all slots of one source distinct and filled from the front |
| `ResolverProofs.NoDanglingSources` | neat_addr.c:89-131 | In every run each pair of each queued lookup points to exactly one address of the source list |
| `ResolverProofs.SlotsDistinct` | neat_resolver_helpers.c:128-204 | In every run filled slots of pairs with the same interface, family and source differ, and slots are filled from the front |
| `ResolverProofs.ResultsClean` | neat_resolver.c:355-394 | In every run the results handed to a caller repeat no interface, source and destination and have no deprecated source, except those of a literal that names an address twice and got results |
| `ResolverProofs.PairsClean` | neat_resolver.c:355-394 | Results built from distinct slots and distinct sources repeat nothing, and each comes from a slot |
| `ResolverAnswers.NameResultIff` | neat_resolver.c:355-394 | A name lookup gets an address with a source if and only if the source is listed and not deprecated and one of its pairs has the address in a slot |
| `ResolverAnswers.DirectResultIff` | neat_resolver.c:224-353 | A literal or localhost gets exactly its targets with every listed source that is not deprecated and, for a literal, of its family |
| `ResolverAnswers.TimerAnswers` | neat_resolver.c:396-463 | In every run a timer calls its lookup back with exactly what is due: a name that no reply settled has timed out, and otherwise the code is Ok if and only if there is some result; the lookup leaves the queue |
| `ResolverRequests.RequestsAreAsked` | neat_resolver.c:902-1016 | In every run each waiting request and each callback belongs to the lookup asked for under its number, and a request is rearmed if and only if a reply to one of its pairs was bad or brought a new address |
| `ResolverRequests.StoresIff` | neat_resolver.c:604-662 | A reply stores something if and only if it has an address that no pair of the source has |
| `ResolverLookups.RunNumbered` | neat_resolver.c:811-858 | In every run the pairs of a request have numbers of their own, so that a reply has one addressee |
| `ResolverPairs.ResolveMakesPairs` | neat_resolver.c:902-950 | In every run a new name lookup gets a pair for every server that could be asked from every source that it may use, and no others |
| `ResolverPairs.AddressMakesPairs` | neat_resolver.c:36-93 | In every run a new address gives every waiting lookup that may use it such pairs |
| `ResolverPairs.ReplyFills` | neat_resolver.c:544-670 | In every run a good reply fills slots of its pair from the front with its addresses; each of its addresses was there before or is stored, unless all slots are used up; nothing else changes |
| `ResolverPairs.DeleteTakesPairs` | neat_resolver.c:860-898 | In every run a deleted address takes exactly the pairs whose source has it, and these wait, stopped, to be closed |
| `ResolverPairs.DoneStopsPairs` | neat_resolver.c:190-222 | In every run a lookup that is called back leaves its pairs, stopped, to be closed, and itself to the dead requests |
| `ResolverPairs.DeadIff` | neat_resolver.c:190-222 | In every run the dead requests are those called back whose timers are not closed |
| `ResolverPairs.PairClosedIff` | neat_resolver.c:105-188 | In every run closing a socket takes exactly its pair off the deleted ones |
| `AddressBook.SourcesAreListed` | neat_addr.c:66-195 | In every run the source list has exactly the addresses that the events list, with the preferred lifetime that events and seconds leave them: a limited positive one of an IPv6 address falls by one |
| `AddressBook.DumpedIff` | neat_resolver.c:410-430 | In every run the first dump is over exactly if it was announced |
| `ResolverProofs.LiteralCleanIff` | neat_resolver.c:284-353 | The results of a literal repeat nothing if and only if its addresses do not or no source is usable |
| `ResolverProofs.RepeatedLiteral` | neat_resolver.c:284-353 | A run: one address event, a lookup of a literal with one address twice and its timer call back with the same result twice |
| `ResolverProofs.ActiveWhileQueued` | neat_resolver.c:190-222 | In every run a request is waiting if and only if its timer is armed, dead requests have none, and a pair listens exactly while a waiting request has it |
| `ResolverProofs.NoFault` | neat_resolver.c:545-604 | In every run no timer or reply handler follows a pointer to a freed address or request |
| `ResolverProofs.DeadIsInert` | neat_resolver.c:507-541 | Timeouts and replies of a request that was called back find no active handle and change nothing |
| `ResolverProofs.CallbackOnce` | neat_resolver.c:396-463 | In every run, with timers and replies that may reach dead requests and deleted pairs, each lookup is either waiting or was called back, never both and never twice |
| `ResolverProofs.CallbackIsFinal` | neat_resolver.c:190-222 | Whatever happens later, a lookup that was called back is not queued, its timer is not armed, and its own timeouts and late replies change nothing |
| `ResolverProofs.TimerFinishesIff` | neat_resolver.c:396-463 | A timer finishes its lookup, except a literal or localhost before the first dump of addresses, which keeps its timer |
| `ResolverProofs.StepKeeps` | neat_resolver.c:36-93 | Address events, lookups, replies, timers, ageing and closed handles keep all of this |
| `ResolverContext.FindSource` | neat_addr.c:89-111 | The search finds the first entry with the family, interface and address |
| `ResolverContext.DeletePairs` | neat_resolver.c:860-898 | The pairs left are those whose source has another address; the others stop listening and go to the deleted pairs |
| `ResolverContext.PopulateResults` | neat_resolver.c:355-394 | The loops over pairs and slots build the specification's results |
| `ResolverContext.PopulateDirect` | neat_resolver.c:224-353 | The loops over targets and sources build the specification's results |
| `ResolverContext.Context.ResolveName` | neat_resolver.c:902-1016 | A new lookup is queued with its timer armed and its pairs made, and the invariant stays |
| `ResolverContext.Context.CleanUp` | neat_resolver.c:190-222 | A finished request stops every pair and its timer and moves to the dead ones |
| `ResolverContext.Context.UpdateSourceList` | neat_addr.c:66-160 | An address event reaches the resolver before the address goes, and the whole new state is the specification's |
| `ResolverContext.Context.LifetimeTimeout` | neat_addr.c:162-195 | Preferred lifetimes run down as specified, and the invariant stays |
| `ResolverContext.Context.Receive` | neat_resolver.c:544-670 | A reply updates slots and rearms as specified, and the invariant stays |
| `ResolverContext.Context.Timeout` | neat_resolver.c:396-463 | A timeout calls back with the specified code and results and removes the request, and the invariant stays |
| `ServerList.MarkAndSweep` | neat_resolver_conf.c:113-195 | After every sequence of updates no address is listed twice, no entry is marked for deletion, active entries are exactly the addresses of the last file, and static ones exactly the built-in addresses no file ever had |
| `ServerList.ListedBuiltinsAreLost` | neat_resolver_conf.c:56-111 | A built-in server that was listed and then dropped is gone |
| `ServerList.RunKeeps` | neat_resolver_conf.c:113-195 | Marks agree with the files seen so far after every update |
| `ServerList.Servers.constructor` | neat_resolver_conf.c:199-238 | The list starts with the built-in IPv4 servers, static and without repeats |
| `ServerList.Servers.ResetMarks` | neat_resolver_conf.c:13-22 | All but static entries are marked for deletion |
| `ServerList.Servers.CheckAddress` | neat_resolver_conf.c:56-111 | A listed address becomes active, or is inserted active at the head |
| `ServerList.Unmarked` | neat_resolver_conf.c:24-54 | The walk leaves out exactly the marked entries and keeps the order of the others |
| `ServerList.Servers.DeleteServers` | neat_resolver_conf.c:24-54 | The list becomes what the sweep of the specification leaves |
| `ServerList.Servers.Updated` | neat_resolver_conf.c:113-195 | One version of the file gives the specification's list |
| `JsonFraming.FramingIff` | neat_unix_json_socket.c:45-119 | For any documents and every split into chunks there is one delivery per document, in order; it is the document, leading white space aside, if and only if it is the first or a chunk ends between it and the one before; nothing is left over |
| `JsonFraming.FramingIndependent` | neat_unix_json_socket.c:45-119 | Every split of one document gives exactly one delivery, of that document |
| `JsonFraming.RunIsAt` | neat_unix_json_socket.c:53-118 | Reading chunk by chunk is reading byte by byte with cuts at the chunk ends |
| `JsonFraming.TwoInOneChunk` | neat_unix_json_socket.c:80-95 | Two documents in one chunk: the second delivery starts with a stray bracket |
| `JsonFraming.Framer.TakeBytes` | neat_unix_json_socket.c:58-96 | The loop over the new bytes of the joined buffer, with its offset, has the count, the deliveries and the undelivered rest of the specification |
| `JsonFraming.Framer.Receive` | neat_unix_json_socket.c:45-119 | The loop over the joined buffer and the carry-over do the specification's step |
| `PeerProofs.ReceiverBuffer` | examples/peer.c:256-268 | In every run over a lossy channel with resends the receiver holds segment 0 once per acceptance and then segments 1 to the current one once each; with at most one acceptance that is a prefix of the file |
| `PeerProofs.CompleteMeansWhole` | examples/peer.c:380-470 | Once COMPLETE is under way the buffer holds every segment, and is the file if and only if segment 0 was accepted once; the same holds of the saved file |
| `PeerProofs.FinishedBuffer` | examples/peer.c:380-470 | A finished buffer is the file behind one copy of segment 0 per extra acceptance |
| `PeerArrivals.RightIffOnce` | examples/peer.c:380-470 | In every run, once COMPLETE is under way to a receiver that did not give up, its buffer is the file if and only if exactly one copy of segment 0 reached it |
| `PeerSaves.SavedRightIff` | examples/peer.c:491-536 | In every run, whatever made the receiver save: the saved file is right if and only if it is empty, or exactly one copy of segment 0 and the last segment arrived, or copies of segment 0 stand in for the missing segments |
| `PeerSaves.AccidentIff` | examples/peer.c:412-436 | With several copies of segment 0 the buffer is the file if and only if the file is as long and each of its segments equals the one in its place |
| `PeerSaves.AccidentRepeats` | examples/peer.c:412-436 | Such a file begins with two equal segments |
| `PeerSaves.SavedRightIffOnce` | examples/peer.c:491-536 | In every run, a file saved after COMPLETE is right if and only if exactly one copy of segment 0 arrived |
| `PeerGivesUp.CutShort` | examples/peer.c:618-666 | For every file of more than one segment there is a run in which segment 0 arrives exactly once and the receiver, out of retries, saves it alone |
| `PeerGoodRun.FileIsSaved` | examples/peer.c:328-666 | Every file that is not empty and fits the receiver's buffer has a run without losses and timeouts in which the receiver saves exactly the file and both nodes finish |
| `PeerGoodRun.TooBigNeverSaved` | examples/peer.c:256-268 | No run saves a file that does not fit |
| `PeerGoodRun.DuplicateIsAcked` | examples/peer.c:412-436 | In every run a segment that the receiver has had is acknowledged again and not stored, and one ahead of its turn is an error |
| `PeerGoodRun.Refusals` | examples/peer.c:380-470 | An error, an unknown command or an acknowledgement of another segment ends a node, and a master refuses to be connected to |
| `PeerGoodRun.DiscardForgets` | examples/peer.c:328-378 | In every run a message that is thrown away is gone, and with it the timer that would ask again |
| `PeerArrivals.RightIfSentOnce` | examples/peer.c:554-631 | In particular the file is right whenever the master wrote segment 0 only once |
| `PeerArrivals.ArrivalsAreAccepts` | examples/peer.c:412-436 | In every run DATA messages arrive in order, so every arrival of segment 0 is accepted unless the file buffer is full |
| `PeerProofs.StepKeeps` | examples/peer.c:328-666 | Reads, writes, acknowledgements, timeouts and losses keep the agreement between sender, channel and receiver |
| `PeerExample.RepeatedSegment` | examples/peer.c:646-666 | One timeout makes a receiver save a one-byte file twice over |
| `PeerTransfer.SegmentNonEmpty` | examples/peer.c:554-631 | A segment read at its place has data if and only if its number is below the segment count |
| `PeerWire.WireRoundTrip` | examples/peer.c:172-199 | Decoding what was put on the wire gives back the command, the number and the data; a bare header keeps the old data |
| `PeerWire.UnderstoodAsMeant` | examples/peer.c:328-489 | The bytes of a protocol message make a node take the protocol's step for it, whatever payload came before |
| `PeerWire.Be32Inverse` | examples/peer.c:270-296 | Four bytes are the big-endian form of the number they stand for |
| `PeerNode.MessageBuffer.Receive` | examples/peer.c:270-296 | Reading bytes into the buffer and parsing them in place gives the decoded message; a bare header leaves the payload of the message before |
| `PeerNode.MessageBuffer.Prepare` | examples/peer.c:172-199 | The buffer starts with the message on the wire, or is untouched when it does not fit; the copy leaves the buffer exactly for payloads that fit without six more bytes and not with them |
| `PeerNode.FileBuffer.Append` | examples/peer.c:256-268 | Data is copied behind the contents, or refused when the buffer would be full |
| `PeerNode.Node.ReadMessage` | examples/peer.c:328-489 | For any bytes, the callback pointers, counters and buffers of the node take the protocol's step for the decoded message, with segment numbers that wrap around at 2^32 |
| `PeerNode.NeverWraps` | examples/peer.c:412-460 | With a file of less than 2^32 bytes no run reaches the number that wraps, so the step in 32 bits is the protocol's |
| `PeerNode.Node.WriteMessage` | examples/peer.c:538-644 | The node takes the protocol's step, and the bytes handed to neat_write carry the protocol's message |
| `PeerNode.Node.AllWritten` | examples/peer.c:491-536 | With its callback pointers and file buffer the node waits, or saves the contents and stops, as the protocol says |
| `PeerNode.Node.TimerFired` | examples/peer.c:646-666 | With its callback pointers and counters the node resends, or turns to ERROR, as the protocol says |
| `Queues.Splice` | neat_queue.h:105-111 | Rewriting the links around one place inserts the element there and keeps the list well formed |
| `Queues.SpliceBefore` | neat_queue.h:113-118 | The same in front of an element, found through its back link, without a head |
| `Queues.Unlink` | neat_queue.h:127-132 | Rewriting the links around an element removes exactly it |
| `Queues.ListInit` | neat_queue.h:101-103 | A head that was set up is a list without elements |
| `Queues.ListInsertHead` | neat_queue.h:120-125 | Inserting at the head prepends |
| `Queues.ListInsertBefore` | neat_queue.h:113-118 | Inserting in front of an element puts the new one there |
| `Queues.ListRemove` | neat_queue.h:127-132 | Removing deletes the element at its place |
| `Queues.ListForeachSafe` | neat_queue.h:139-142 | Every element is visited once, in order, whichever visited ones are removed; the others stay |
| `Queues.TailInit` | neat_queue.h:391-394 | A head that was set up is a queue without elements, with the tail link at the head |
| `Queues.TailInsertHead` | neat_queue.h:396-404 | Inserting at the head prepends and keeps the tail pointer right |
| `Queues.TailInsertTail` | neat_queue.h:406-411 | Inserting at the tail appends |
| `Queues.TailInsertAfter` | neat_queue.h:413-421 | Inserting behind an element puts the new one there |
| `Queues.TailInsertBefore` | neat_queue.h:423-428 | Inserting in front of an element puts the new one there and leaves the tail |
| `Queues.TailRemove` | neat_queue.h:430-437 | Removing deletes the element at its place and keeps the tail pointer right |
| `Queues.TailLast` | neat_queue.h:470-471 | Reading the tail link as a head gives the last element, or none |
| `Queues.TailPrev` | neat_queue.h:472-473 | Reading the link before as a head gives the element before, or none |
| `Queues.TailForeachSafe` | neat_queue.h:444-447 | Every element is visited once, in order, whichever visited ones are removed; the others stay |
| `Queues.WithoutIs` | neat_queue.h:444-447 | What stays is exactly what was not removed |

## Left out

- TLS and DTLS, usrsctp, WebRTC and SCTP over UDP: other libraries carry these, and flushing with security does not advance the buffer offset.
- Allocation failures and the release of memory: allocation always succeeds.
- Statistics, among them bytes_sent, which also adds the -1 of a blocked send.
- Partial reliability (pr_method, pr_value): handed through with a message and never looked at.
- I/O filters other than the lowest one, and the is_closed sweep at the end of a poll step.
- UDP accept: the first datagram of a passive UDP flow and the accept path of listening sockets.
- Application callbacks that free the flow, or release the resolver, in the middle of a step.
- The policy manager, the provisioning-domain code, netlink and routing sockets, logging, and the other example programs.
- The circular queue, the single-linked queues and TAILQ_CONCAT of neat_queue.h: nothing in the library uses them.
- Name resolution that fails: the callback walks the result list of an error as well, so the model covers successful answers.
- Stream ids of multistream flows are not unique, because they come from a count that falls; only the accounting is modelled.
- ResolutionLink.LookupsContinueOnce: that nt_resolve_candidates starts one lookup for each group is its condition, and how a resolver result is printed as an address is a parameter.
- ReadBuffer.ReadFlow.constructor: takes a read size of 0 or at least 4, because sizes 1 to 3 give a threshold of 0 and a receive call without room.
- Reading on a multistream association, where each flow has its own queue of received messages.
- Stream reset notifications that name several streams, or both directions at once, are separate events.
- Multihoming.MergeRoundTrip: the sources of the candidates are non-empty addresses without commas, as the address formatting code produces them.
- Multistream.CountIff: the use count is an integer, not 16 bits wide. nt_find_multistream_socket does not ask whether the socket is already shared, so a flow could piggyback before the association is enabled, which the enabling code then asserts away; the runs here start with the enabling.
- JsonFraming.FramingIff: the nesting count is an integer; a size_t behaves the same until it is off by 2^64. Brackets inside JSON strings count as brackets, as in the code, so a document must balance with them. Parsing, errors and end of file are left out.
- ResolverContext.Context.UpdateSourceList: valid lifetimes, the count of addresses and update events to other listeners are not modelled; a delete event for an unknown address inserts it, as in the code.
- ResolverProofs.CallbackOnce: holds while the resolver is not released. An armed timer may fire at any time, which includes the real delays; pairs whose socket or query failed at once are not kept.
- ServerList.Servers.Updated: reading lines, finding the keyword and parsing the address are a parameter.
- PeerNode.Node.constructor: the file name has at most 1388 bytes, so that CONNECT fits; for a longer one the code ignores that preparing failed.
- PeerNode.Node.ReadMessage: the file name in CONNECT, an empty read and the number of retries beyond 32 bits are not modelled, and the random loss of the example is the channel's.
- PollEvents.NoLostWakeup: poll events with an error status and accepting sockets are not part of these runs, and a flow leaves between poll steps, not inside one.
- HappyEyeballs.OneWinner: the delays of the timers are not modelled; timers fire in any order.
- Queues.ListRemove: the position of the element is a ghost argument; the code only has the element.
