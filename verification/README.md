# A model of the voting system, in Dafny

The system collects votes from many clients over the network, keeps a weighted count of
voters and supporters for every operation, and turns the counts into actions such as holding a
key. This project models its five hard parts and proves what they promise.

1. **The vote tally.** `Tally`, `TallyRefinement` and `TallyBounds` are the counters as a state
   machine over votes, disconnections, cleanups, changes of multiplier and changes of user;
   `VotingManagers` is the counter as an object whose handlers update dictionaries in place, each
   proved to be a transition of that machine. The counters are 32-bit words that wrap (`Int32`) and
   the specification is an unbounded weighted sum over clients (`Sums`), which `Ballots` reads off the
   votes themselves. `ManagerLocks` is the order in which the manager and the users are locked.
   `ResultProcessing` is the rule engine on top (`Config`), `Actuation` joins the two, and
   `KeyActuation` is what becomes of the keys. `Requirements` says the same in the numbers of the
   configuration: a rule's verdict as arithmetic on the votes, and what is then injected or written.
2. **The reader/writer lock.** `RwLock` has the steps of any number of calls in any interleaving;
   `RwLockObjects` has the lock and its tokens as objects.
3. **The wire.** `BinaryFormat` and `BinaryStreams` are the formats of .NET's BinaryWriter and
   BinaryReader; `Framing` and `FrameSender` are the length-prefixed messages, received in arbitrary
   chunks and sent concurrently; `InstructionsProtocol`, `Handshake`, `Commands`, `Operations` and
   `BitPacker` are the codecs; `Notices` and `Sessions` are lists of the server's frames and what they
   leave a client with; `EndToEnd` puts the codecs together, and `WireToKeys` leads from a client's
   bytes through the tally to the keys. `ByteLayout`, `FrameLayout` and `Packets` give the formats as
   numbers, without the functions that write and read them.
4. **Membership.** `Membership` and `MembershipObjects` are users, clients and sessions;
   `ChannelWrapper`, `ChannelEvents` and `ChannelObjects` are the pair of dictionaries between inner and
   outer clients, and `ChannelHistory` reads dictionaries and events off the steps of a run.
5. **The client's loops.** `Reconnect` and `ReconnectObjects` are the reconnection loop;
   `AfkPass` is one pass of the AFK thread.

A method that changes state is proved against a function or a transition of a value-level model, and
the theorems are about that model: over all runs, all interleavings, all inputs. Strings are
sequences of bytes. `Counting` counts threads at program points; `Wrappers` holds Option and Result.

## Where the code does less than it intends

Each of these is a contract with the exact condition, or a lemma with the run that shows it.

- A change of a user's multiplier between a client's disconnection and the cleanup of its votes
  leaves the counters wrong (`TallyBounds.ChangeBeforeCleanupDrifts`); so does a change of user after
  voting (`TallyBounds.ChangeOfUserAfterVotingDrifts`), and a vote at which a subscriber of the event
  throws (`TallyRefinement.ThrownVoteRight`). `TallyRefinement.RefinedExact` says exactly when a step
  keeps the counters right.
- A vote of a client and a change of its user's multiplier can wait for each other's lock, and then no
  vote is counted any more; `ManagerLocks.DeadlockExact` says exactly for which calls. After the deletion
  of a user the manager's lock is never free again (`ManagerLocks.DeletionStops`).
- The frame that tells a client that its user has been deleted lacks the multiplier which the client
  reads, so that its handler throws and it loses its connection (`Notices.DeletionExact`). After a login
  the server keeps quiet about the default multiplier, also if the client shows another one
  (`Notices.LoginInformsExact`).
- A send that completes after its client has gone is reported about the inner client, which the
  application has never seen (`ChannelEvents.SentExact`, `ChannelEvents.LateSend`).
- `SendOperationAsync` reports success without sending if the client disconnects or the token is
  cancelled just before its loop (`Operations.ClientOperation.SendOperationAsync`).
- An output rule with a negative threshold is not an upper bound, although `README.md:85` uses
  `-0.2` as one (`ResultProcessing.OutputThreshold`).
- Rules that share a key undo each other: in one profile (`Actuation.SharedKeysFight`), in two profiles
  (`KeyActuation.ProfilesFight`), and even with different keys if a colon makes their cache entries
  coincide (`KeyActuation.NamesCollide`). `ResultProcessing.VerdictStands` and `KeyActuation.KeyExact` say
  exactly when a rule's verdict stands after an update, and `KeyActuation.PlainKeyOwned` which rules own
  their keys.
- Overlapping readers can keep a writer waiting for any length of time (`RwLock.Starves`).
  `RwLock.WriterExact` says exactly when a waiting writer can go on, and `RwLock.WriterGetsIn` that it gets
  in once no new calls begin.
- A write that throws inside a frame tears the stream, because the lock is released all the same
  (`FrameSender.FailExact`). If another send still finds the connection open, the client decodes what
  nobody has sent (`FrameSender.TornStream`); if none does, nothing is lost but the frame
  (`FrameSender.TornIsLast`).
- `TryAddClient` and the other moves put a client that has disconnected back onto a user
  (`Membership.PartitionExact`).
- The bit packer fails on arrays of 2^28 - 1 bytes and more, and the unpacker drops most of a payload
  of 2^29 bytes (`BitPacker.Pack`, `BitPacker.Unpack`).
- A server whose instructions make the client's handler throw is reconnected to without end
  (`Reconnect.RetriesForever`), and a loop that waits for the connection lock when the client is
  disposed of never ends unless it is cancelled (`Reconnect.WaitsForever`). A disposal between the reads
  of the two flags does not stop an attempt (`Reconnect.DisposedMeanwhile`).

## Model

| member | source | states |
|---|---|---|
| TallyRefinement.CountersAlongRuns | core/Server/VotingManager.cs:139-279 | in every state of every run of safe steps each counter is, modulo 2^32, the sum of the multipliers of the users of the clients whose current vote it counts, and is that sum whenever it fits in 32 bits, whatever wrapped on the way; the last published pair is the current one |
| TallyRefinement.RefinedExact | core/Server/VotingManager.cs:139-279 | from right counters a step leads to right counters if and only if it is safe: a client changes user with no counted vote or between equal multipliers; a multiplier changes by an amount whose product with the number of disconnected clients still counted is a multiple of 2^32; and a subscriber throws only at a vote that counts like the one before it or weighs nothing |
| TallyRefinement.MoveExact | core/Server/User.cs:106-120 | a change of user leaves the counters alone, so they stay right exactly if the client has no counted vote or its weight does not change |
| TallyRefinement.MultiplierRight | core/Server/VotingManager.cs:217-243 | after a change of multiplier a counter is right exactly if the weight of the disconnected clients that the snapshot misses is a multiple of 2^32 |
| TallyRefinement.AdjustedIsMidway | core/Server/VotingManager.cs:231-240 | after any number of clients of the snapshot the counter is the sum in which those clients have the new multiplier and the others the old one |
| TallyRefinement.MissedWeight | core/Server/VotingManager.cs:217-243 | what the whole snapshot leaves differs from the new total by the multiplier's change times the number of counted clients that have left ConnectedClients |
| TallyRefinement.VoteRight | core/Server/VotingManager.cs:139-179 | a vote, first or repeated, keeps a right counter right |
| TallyRefinement.ThrownVoteRight | core/Server/VotingManager.cs:156-175 | after a vote at which a subscriber throws, which comes between the counters and the record, a counter is right exactly if the vote would have moved it by a multiple of 2^32 |
| TallyRefinement.CleanupRight | core/Server/VotingManager.cs:181-216 | the cleanup of a client's votes keeps a right counter right |
| TallyRefinement.ConsistentStep | core/Server/VotingManager.cs:139-243 | every step keeps every recorded vote on an operation that has counters, and the last published pair of an operation equal to what GetMetrics returns |
| TallyRefinement.AdjustmentsEnd | core/Server/VotingManager.cs:231-240 | the last event of a change of multiplier carries the final counters; without an event nothing has changed |
| Ballots.BallotsAreVotes | core/Server/VotingManager.cs:139-216 | at every point of every run, safe or not, a client's ballot has its last vote on each operation since its last cleanup, and nothing else |
| Ballots.CountersAreVotes | core/Server/VotingManager.cs:139-279 | at every point of every run of safe steps each counter is, modulo 2^32, the sum of the multipliers of the users of all clients whose standing vote, read off the steps of the run, it counts |
| Ballots.MetricsAreVotes | core/Server/VotingManager.cs:96-108 | at every point of every run of safe steps the supporters that GetMetrics returns are, modulo 2^32, the sum of the multipliers over the clients whose standing vote is the byte 1, and the voters exceed them by that sum over the byte 2; any other byte, or no vote, adds nothing; sums that fit in 32 bits are returned themselves |
| Ballots.EventsArePublished | core/Server/VotingManager.cs:139-243 | a step publishes one event for a vote, one for the cleanup of each standing vote, and one for each connected client with a standing vote when a multiplier changes; the last event carries the two numbers that GetMetrics then returns |
| Ballots.MultipliersAreSet | core/Server/User.cs:15-43 | a multiplier is the value it was set to last, whatever else has happened |
| TallyBounds.PublishedInRange | core/Server/VotingManager.cs:190-240 | in runs with non-negative multipliers and totals that fit, every event ever published has 0 <= supporters <= voters, including those in the middle of a change of multiplier |
| TallyBounds.ConnectedUsersMayChange | core/Server/VotingManager.cs:217-243 | if every counted client of a user is still connected, its multiplier may change to anything |
| TallyBounds.OneSupporterReached | core/Server/VotingManager.cs:139-216 | a run of safe steps in which a client connects, logs in, votes and disconnects reaches the states that the two runs below start from |
| TallyBounds.ChangeBeforeCleanupDrifts | core/Server/VotingManager.cs:181-243 | a multiplier that goes from 1 to 3 between disconnection and cleanup leaves an operation without votes at -2 |
| TallyBounds.ChangeOfUserAfterVotingDrifts | core/Server/User.cs:106-120 | a client that voted with weight 1 and moves to a user of weight 4 is still counted with 1 |
| Tally.AfterVoteRight | core/Server/VotingManager.cs:139-179 | a vote moves each 32-bit counter from the weight of the old ballot to that of the new one, modulo 2^32 |
| Tally.AfterCleanupRight | core/Server/VotingManager.cs:188-206 | a cleanup takes the weight of the client's ballot off each counter, modulo 2^32 |
| Tally.AdjustedRight | core/Server/VotingManager.cs:231-240 | one client of the snapshot moves each counter by the change of multiplier if its ballot is counted there |
| Int32.WrapEqual | core/Server/VotingManager.cs:245-279 | two sums leave the same 32-bit word exactly when they are congruent modulo 2^32 |
| Int32.WrapIsTheWord | core/Server/VotingManager.cs:245-279 | what a sum leaves differs from it by a multiple of 2^32 and lies from -2^31 to 2^31 - 1 |
| VotingManagers.VotingManager.HandleOperationReceived | core/Server/VotingManager.cs:139-179 | the handler is the vote transition of the state machine: the previous vote on the operation out, the new one in, one event; or, if a subscriber throws, the transition without the record |
| VotingManagers.VotingManager.HandleClientDisconnected | core/Server/VotingManager.cs:181-216 | the cleanup thread is the cleanup transition, and reports each affected operation once |
| VotingManagers.VotingManager.SetVoteMultiplier | core/Server/VotingManager.cs:217-243 | setting a multiplier with the handler subscribed is the multiplier transition, for the snapshot of ConnectedClients it takes |
| VotingManagers.VotingManager.AdjustEach | core/Server/VotingManager.cs:232-239 | whatever the order of a client's votes, each counter with a vote gets the delta once and one event |
| VotingManagers.VotingManager.ApplyVoteTally | core/Server/VotingManager.cs:245-279 | a weight is added, wrapping, to the counters that count the vote and to no others |
| VotingManagers.VotingManager.GetMetrics | core/Server/VotingManager.cs:96-108 | the counters of the operation, or zeros if nobody has voted on it |
| ManagerLocks.InvAlongRuns | core/Server/VotingManager.cs:139-243 | in every interleaving of votes, cleanups, changes of multiplier, reads and deletions the locks account for where every thread stands |
| ManagerLocks.ReadsWhatIsApplied | core/Server/User.cs:15-43 | whenever a vote or a cleanup reads a multiplier, it is the one that its user's votes are counted with, never one that is written and not yet applied |
| ManagerLocks.ReadsTheLastAdjusted | core/Server/VotingManager.cs:139-243 | read off the steps: what a vote or a cleanup reads is what was written last, and what the votes were last adjusted to |
| ManagerLocks.StuckMeansDeadlock | core/Server/VotingManager.cs:139-243 | without a deletion, threads of which none can step have all finished, or a vote inside the manager waits for a change that waits for the manager |
| ManagerLocks.DeadlockExact | core/Server/VotingManager.cs:139-243 | some schedule of a set of calls ends in a deadlock if and only if one of them changes the multiplier of a user that another one reads inside the manager |
| ManagerLocks.DeadlockLasts | core/Server/VotingManager.cs:96-243 | a deadlock lasts for ever, and whoever waits for the manager then keeps waiting, also to read a metric |
| ManagerLocks.SchedulesEnd | core/Server/VotingManager.cs:139-243 | every step takes one off the work that is left, so every schedule ends |
| ManagerLocks.DeletionStops | core/Server/VotingManager.cs:64-68 | once the handler of a deletion has entered the lock, no vote, cleanup or change of multiplier that waits for it ever gets in |
| ResultProcessing.EdgeTriggered | server/ResultProcessor.cs:60-113 | for every sequence of updates the actions of a cache entry are what its rules asked for with repetitions left out, and the entry holds what was asked last |
| ResultProcessing.CompressIsTheAlternation | server/ResultProcessor.cs:72-84 | leaving repetitions out gives the one strictly alternating sequence that the input stutters |
| ResultProcessing.VerdictStands | server/ResultProcessor.cs:41-85 | after an update the cache entry of a rule holds its verdict if and only if the last rule of the profile on that entry has the same verdict |
| ResultProcessing.ResultProcessor.ProcessMetricUpdate | server/ResultProcessor.cs:41-58 | the rules of a profile are evaluated in order, each against its own cache entry |
| ResultProcessing.ResultProcessor.EvaluatePressKeyRule | server/ResultProcessor.cs:60-85 | the key is held when voters, supporters and rate all meet their requirements; the injector is called only on a change |
| ResultProcessing.ResultProcessor.EvaluateOutputRule | server/ResultProcessor.cs:93-113 | the output line is written only on a change of whether the rate has reached the threshold |
| ResultProcessing.OutputThreshold | server/ResultProcessor.cs:86-99 | for votes in range an output rule treats its threshold as a requirement exactly when it has one and it is not negative |
| ResultProcessing.MoreSupportKeeps | server/ResultProcessor.cs:60-99 | more supporters never take back what a rule wants: always for an output rule, and for a key whose requirements on supporters and rate are lower bounds, whatever it requires of voters |
| ResultProcessing.RateIsAProportion | server/ResultProcessor.cs:45 | with 0 <= supporters <= voters the rate lies between 0 and 1 |
| Requirements.VerdictIsArithmetic | server/ResultProcessor.cs:60-99 | a key is wanted exactly if voters meet the first bound, supporters the second (at least n for n >= 0, at most n for n < 0) and supporters >= r * voters (<= for r < 0), a share of no voters being zero; an output line exactly if its threshold is reached, whatever its sign |
| Requirements.ActionsAreSaid | server/ResultProcessor.cs:115-160 | every action of every sequence of updates is one of a configured rule: its key is injected, down or up, or its id is written to its file after "+" or "-" and before a newline |
| Actuation.ActionsMatchVotes | server/Program.cs:214-224 | at every point of every run of safe steps at whose events no subscriber has thrown, the last action on a cache entry that no other profile uses is what the last rule on it says of the true weighted sums, if an event has been published and the sums fit |
| Actuation.ActionsFollowVerdicts | server/Program.cs:214-224 | the actions of a rule alone on its cache entry are its verdicts on its operation's events with repetitions left out, whatever the other operations do |
| Actuation.HandledAsPublished | server/Program.cs:214-224 | handling each event as it is published is handling the whole sequence of events |
| Actuation.LastActionIsLastAsked | server/ResultProcessor.cs:60-113 | after any updates the last action on a cache entry is what was asked of it last, whoever asked |
| Actuation.HandleCountChanged | server/Program.cs:214-224 | an event reaches the profile its operation was configured for, and no other |
| Actuation.SharedKeysFight | server/ResultProcessor.cs:60-85 | two rules of a profile on one key press and release it in the same update, although the first wants it held |
| Requirements.ActionsMeetDemands | server/Program.cs:214-224 | along safe runs the last action on a cache entry that no other profile uses is what that arithmetic says of the sums of the multipliers over the standing votes 1 and 2, if an event has been published and the sums fit |
| KeyActuation.KeyAfterUpdate | server/ResultProcessor.cs:41-85 | an update leaves a key as the last rule of its profile on the key wants it, if any of these rules asks for something that their cache entry does not hold, and otherwise as it was, whoever set it |
| KeyActuation.KeyExact | server/ResultProcessor.cs:41-85 | after an update of its profile a rule's key is as the rule wants it if and only if the profile's last rule on the key agrees with it or, where nothing new is asked, the key was so already |
| KeyActuation.KeyIsVerdict | server/Program.cs:214-224 | a rule that owns its key has it as it wants after every sequence of events with one of its operation |
| KeyActuation.KeysMatchVotes | server/Program.cs:214-224 | at every point of every such run, a key that a rule owns is held exactly if the rule wants it for the true weighted sums, if an event has been published and the sums fit |
| Requirements.KeysMeetDemands | server/Program.cs:214-224 | along safe runs a key that a rule owns is held exactly if that arithmetic says so of the same sums |
| KeyActuation.PlainKeyOwned | server/ResultProcessor.cs:60-85 | where keys have no colon, a rule owns its key if and only if no other profile has a rule on the key and no later rule of its own profile is on it |
| KeyActuation.ProfilesFight | server/ResultProcessor.cs:60-85 | two profiles of different names with a rule each on one key: each rule is alone on its cache entry, and still the second releases what the first wants held |
| KeyActuation.NamesCollide | server/ResultProcessor.cs:60-85 | two profiles whose keys differ share a cache entry if a colon moves from the name to the key; then a key stays held although the only rule on it wants it released |
| RwLock.InvAlongRuns | core/Shared/CrossThreadReaderWriterLock.cs:12-59 | in every reachable state of every interleaving the two semaphores and the counter account for where every call stands |
| RwLock.MutualExclusion | core/Shared/CrossThreadReaderWriterLock.cs:12-59 | with a writer inside no other call is inside, reading or writing |
| RwLock.ReaderCountExact | core/Shared/CrossThreadReaderWriterLock.cs:25-59 | the reader count is the number of readers inside and on their way in or out |
| RwLock.SemaphoreBounds | core/Shared/CrossThreadReaderWriterLock.cs:18-59 | no semaphore exceeds 1, because it is 0 whenever it is about to be released |
| RwLock.DeadlockFree | core/Shared/CrossThreadReaderWriterLock.cs:25-59 | while a call is under way some thread can step, also when the first reader waits for a writer while it keeps the other readers out |
| RwLock.SchedulesEnd | core/Shared/CrossThreadReaderWriterLock.cs:12-59 | without new calls every schedule ends, within a bound that depends on where the calls stand |
| RwLock.StuckMeansDone | core/Shared/CrossThreadReaderWriterLock.cs:12-59 | when nothing can step, every call has completed and the lock is as it was made |
| RwLock.WriterExact | core/Shared/CrossThreadReaderWriterLock.cs:12-59 | a waiting writer can go on if and only if no writer is inside, no reader is inside or on its way in or out past the counter, and none is about to give the write lock back |
| RwLock.WriterGetsIn | core/Shared/CrossThreadReaderWriterLock.cs:12-59 | whatever the schedule, once no new calls begin every waiting writer gets in before the lock comes to rest |
| RwLock.WritersCanWait | core/Shared/CrossThreadReaderWriterLock.cs:25-59 | the handover: eight steps in which a second reader enters and the first one leaves, at none of which a waiting writer can step |
| RwLock.Starves | core/Shared/CrossThreadReaderWriterLock.cs:12-59 | from a new lock there are runs of every length in which a writer waits from the seventh state on and can never step, because readers overlap |
| RwLockObjects.CrossThreadReaderWriterLock.EnterReadLock | core/Shared/CrossThreadReaderWriterLock.cs:25-41 | the call runs until it returns or waits: it gets in exactly if the read lock is free and there is another reader or the write lock is free; otherwise it waits with nothing changed, or as the counted first reader with the read lock in its hands; the invariant is kept |
| RwLockObjects.CrossThreadReaderWriterLock.AwaitWriters | core/Shared/CrossThreadReaderWriterLock.cs:31-40 | the first reader waits with nothing changed until the write lock is free, then takes it and gives the read lock back |
| RwLockObjects.CrossThreadReaderWriterLock.ExitReadLock | core/Shared/CrossThreadReaderWriterLock.cs:43-59 | the call waits with nothing changed until the read lock is free; then it uncounts a reader, releases the write lock for the last one only, and keeps the invariant |
| RwLockObjects.CrossThreadReaderWriterLock.EnterWriteLock | core/Shared/CrossThreadReaderWriterLock.cs:12-16 | the call waits with nothing changed until the write lock is free; then it takes it and nothing else, and keeps the invariant |
| RwLockObjects.CrossThreadReaderWriterLock.ExitWriteLock | core/Shared/CrossThreadReaderWriterLock.cs:18-22 | the call gives the write lock back and nothing else, and keeps the invariant |
| RwLockObjects.CrossThreadLockToken.Dispose | core/Shared/CrossThreadReaderWriterLock.cs:86-104 | the token gives its lock back the first time, or waits for the read lock to do so, and does nothing after that |
| Framing.HandleClientLoop | core/Server/Network/TcpServerChannel.cs:47-98 | however the stream is cut into chunks, whether it ends or fails and however often the connection is found open, the loop hands on what the format says up to and including the first message on which the handler throws, and ends for that reason or for the one the format says, on a host of either byte order |
| Framing.StartListening | core/Client/Request/SocketRequestHandlerTCP.cs:69-115 | the same for the client's loop, whose end counts as normal exactly unless the stream failed or the handler threw |
| Framing.HandedOnUnique | core/Client/Request/SocketRequestHandlerTCP.cs:103-114 | what a loop hands on is determined by the messages and the handler |
| Framing.AllHandedOn | core/Client/Request/SocketRequestHandlerTCP.cs:103-114 | everything is handed on if and only if the handler throws on no message before the last |
| Framing.ReceivedIsDecoded | core/Server/Network/TcpServerChannel.cs:47-98 | a loop that is not cut off delivers all that the format says, and one that is cut off or whose stream fails delivers a beginning of it |
| Framing.TryReadExactly | core/Server/Network/TcpServerChannel.cs:147-157 | it succeeds exactly if that many bytes are still to come, and then the buffer holds them and the rest is untouched |
| Framing.Send | core/Client/Request/SocketRequestHandlerTCP.cs:45-61 | what is written is the big-endian length and the message, on a host of either byte order |
| Framing.ServerDelivers | core/Server/Network/TcpServerChannel.cs:55-83 | from the frames of any list of messages the server delivers those before the first one that is empty or longer than 10 MiB; it delivers the whole list and ends cleanly exactly if there is none |
| Framing.ClientDelivers | core/Client/Request/SocketRequestHandlerTCP.cs:81-103 | from the frames of any list of messages the client delivers all that are not empty, in order |
| Framing.PrefixDelivers | core/Server/Network/TcpServerChannel.cs:55-83 | from any prefix of the frames of any list of messages either end delivers exactly the messages whose frames are complete, as far as it delivers them at all |
| Framing.AllDelivered | core/Server/Network/TcpServerChannel.cs:55-83 | if every message is acceptable, that is all of them |
| Framing.CompleteIsMaximal | core/Server/Network/TcpServerChannel.cs:55-83 | the number of complete frames in a prefix is the largest number of leading frames that fit into it |
| FrameLayout.FrameBytes | core/Client/Request/SocketRequestHandlerTCP.cs:45-61 | a frame is four bytes, n / 2^24, n / 2^16, n / 2^8 and n modulo 256, and the message of n bytes |
| FrameLayout.LengthValue | core/Server/Network/TcpServerChannel.cs:57-70 | four bytes are read as a length, highest first, in two's complement |
| FrameLayout.ServerTakes | core/Server/Network/TcpServerChannel.cs:55-83 | the server takes every message of 1 to 10485760 bytes and ends with a size violation at the first one of another size |
| FrameLayout.ClientTakes | core/Client/Request/SocketRequestHandlerTCP.cs:81-103 | the client takes messages of every size from 1 |
| FrameLayout.ClientSkips | core/Client/Request/SocketRequestHandlerTCP.cs:81-103 | a length of zero or a negative one anywhere between messages changes nothing for the client |
| FrameLayout.EndsWithin | core/Server/Network/TcpServerChannel.cs:55-83 | a stream that ends inside a message or inside a length ends the reception there, told apart from each other |
| FrameLayout.OneInEachRound | core/Server/Network/TcpServerChannel.cs:47-98 | in each round in which it finds the connection open a loop takes one message, and it ends with the connection, the stream or its failure |
| FrameLayout.ThrowsFirst | core/Client/Request/SocketRequestHandlerTCP.cs:103-114 | the first message on which the handler throws is the last one handed on |
| FrameLayout.NeverThrows | core/Client/Request/SocketRequestHandlerTCP.cs:103-114 | if it throws on none, all messages are handed on |
| FrameSender.WholeFrames | core/Server/Network/TcpServerChannel.cs:100-130 | in every interleaving of concurrent sends, as long as no write has thrown inside a frame, the stream is whole frames in the order of the write lock, then part of one frame that belongs to the holder |
| FrameSender.FailExact | core/Server/Network/TcpServerChannel.cs:112-129 | a write that throws leaves the stream in that form if and only if it throws before the first byte of its frame or after the last one |
| FrameSender.DecodedInLockOrder | core/Server/Network/TcpServerChannel.cs:100-130 | until a frame is torn the client decodes, at every point, the messages whose frames are complete, in the order in which their calls obtained the lock |
| FrameSender.TornStream | core/Server/Network/TcpServerChannel.cs:100-130 | if a write throws between header and payload and another call still finds the connection open, the client decodes a message that nobody has sent |
| FrameSender.TornIsLast | core/Server/Network/TcpServerChannel.cs:107-109 | as long as nothing is written after a torn frame the client decodes exactly the messages whose frames were complete |
| BinaryFormat.SevenBitRoundTrip | shared/InstructionsProtocol.cs:54 | an integer in groups of seven bits is read back whatever follows it |
| BinaryFormat.SevenBitBound | shared/InstructionsProtocol.cs:27 | no sequence of groups decodes to more than the integer type holds |
| BinaryFormat.Int32RoundTrip | core/Server/VotingServer.cs:114-117 | a 32-bit integer in little-endian two's complement is read back whatever follows it |
| BinaryFormat.Int64RoundTrip | core/Server/VotingServer.cs:119 | a 64-bit integer is read back whatever follows it |
| BinaryFormat.FromLittleEndianRoundTrip | core/Client/VotingClient.cs:379-385 | every word is the encoding of exactly one number |
| BinaryFormat.StringRoundTrip | shared/InstructionsProtocol.cs:52-58 | a length-prefixed string is read back whatever follows it |
| ByteLayout.Int32Bytes | core/Server/VotingServer.cs:114-117 | an integer is written as the four bytes of its word, lowest first |
| ByteLayout.Int64Bytes | core/Server/VotingServer.cs:119 | a long integer is written as the eight bytes of its word, lowest first |
| ByteLayout.Int32Value | core/Client/VotingClient.cs:379-385 | four bytes are read as the number that they make in two's complement, and fewer are an exception |
| ByteLayout.Int64Value | core/Client/VotingClient.cs:379-385 | so are eight bytes |
| ByteLayout.SevenBitBytes | shared/InstructionsProtocol.cs:54 | an integer in groups of seven bits is written lowest group first, in as few groups as can be, with the high bit on all but the last |
| ByteLayout.SevenBitInts | core/Client/VotingClient.cs:412-428 | up to five groups are read as the number of 32 bits that they make, shortest or not, and more are an exception |
| ByteLayout.SevenBitInt64s | shared/InstructionsProtocol.cs:27 | up to ten groups are read as a number of 64 bits |
| ByteLayout.StringBytes | shared/InstructionsProtocol.cs:52-58 | a string is its length in groups and its bytes: one byte of length below 128 |
| ByteLayout.StringValue | core/Server/VotingServer.cs:104 | a string that is announced is read if so many bytes are there, and is an exception otherwise |
| ByteLayout.BooleansAndBytes | core/Server/VotingServer.cs:100 | true is written as 1, any byte but 0 is read as true, and bytes that are missing from a block are left out of it |
| InstructionsProtocol.SerializeInstructions | shared/InstructionsProtocol.cs:47-66 | the bytes are the header, the section of the keys and, if there is a limit, its section |
| InstructionsProtocol.DeserializeInstructions | shared/InstructionsProtocol.cs:9-45 | the loop computes the section-by-section reading, and fails whenever any part of it fails |
| InstructionsProtocol.SectionsRoundTrip | shared/InstructionsProtocol.cs:21-38 | for every sequence of well-formed sections the parse is a fold: keys concatenate, the last limit wins, unknown tags add nothing |
| InstructionsProtocol.InstructionsRoundTrip | shared/InstructionsProtocol.cs:9-66 | deserializing what was serialized gives the same keys and the same eight bytes of the limit |
| Packets.BlockBytes | shared/InstructionsProtocol.cs:47-66 | an instruction block byte by byte: "V1.2", "keys:", the number of keys, each key after its length, and "afk:" with the eight bytes of a limit |
| Packets.BlocksRefused | shared/InstructionsProtocol.cs:9-45 | a block with another header, without one, with a limit that is cut short or with too few keys cannot be read |
| Packets.SectionsInTurn | shared/InstructionsProtocol.cs:21-38 | sections mean what each of them means after those before it |
| Packets.SectionMeans | shared/InstructionsProtocol.cs:21-38 | keys are added to those before, a limit replaces the one before, and an unknown tag is nothing |
| Handshake.ConfigureProfiles | server/Program.cs:176-204 | the profiles get ids 1 to n in order, each with its own instruction block, and the map leads from each id back to its profile |
| Handshake.SendTable | core/Server/VotingServer.cs:107-122 | the answer to INIT is the command, the version, the number of templates and each template in turn |
| Packets.TableBytes | core/Server/VotingServer.cs:107-122 | the answer to INIT byte by byte: "INIT", "VOTE-2.3", the number of entries in four bytes, the entries |
| Packets.EntryBytes | core/Server/VotingServer.cs:115-120 | an entry is the length of its instructions in four bytes, the instructions, and the id in eight bytes |
| Commands.VotingClient.HandleIncomingData | core/Client/VotingClient.cs:361-436 | the handler follows every command as the reading of its frame says: the table, the multiplier and the user, the answers that are awaited, the end of the session; and it throws where that reading fails, keeping what it has written by then |
| Commands.NoticeArrives | core/Client/VotingClient.cs:361-436 | the client understands every frame that the server sends as it is meant, except that it throws at the one for the deletion of its user |
| Commands.OtherCommandsThrow | core/Client/VotingClient.cs:433-434 | the handler throws on every frame with another command, such as [1, 88] |
| Commands.HandleUserDeleted | core/Server/VotingServer.cs:267-273 | the frame for a deleted user is the one without a multiplier |
| Commands.ExchangeUser | core/Server/VotingServer.cs:284-300 | the frame for a change of user has the name, if any, and the multiplier |
| Notices.DeletionExact | core/Client/Request/SocketRequestHandlerTCP.cs:81-114 | a client that receives any list of the server's frames goes by their meaning; its handler throws if and only if one of them deletes the user of a client that has not been disposed of, and that is the last frame it handles |
| Packets.StatusBytes | core/Server/VotingServer.cs:239-300 | the frames of a change of multiplier and of account, and of a deletion, byte by byte |
| Packets.AnswerBytes | core/Server/VotingServer.cs:144-221 | the frames of a challenge, a verdict and the end of a session, byte by byte |
| Packets.StatusRead | core/Client/VotingClient.cs:408-432 | a status that is not known is ignored, and one without its multiplier throws |
| Packets.CutFrames | core/Client/VotingClient.cs:402-425 | a frame that ends before its data, or an account before its name, makes the handler throw with nothing changed |
| Sessions.ShowsWhatItIsTold | core/Client/VotingClient.cs:361-436 | after any frames before the end of the session the client shows the user named last, nobody after a deletion, the multiplier carried last and the table sent last; its events are one for each change, with the value announced, and the old multiplier before the new one |
| Sessions.FirstAnswersStand | core/Client/VotingClient.cs:391-407 | of several answers to INIT, challenges or verdicts the first one of each stands |
| Sessions.EndIsFinal | core/Client/VotingClient.cs:398-401 | the end of the session empties the table and is announced once, and no later frame changes anything |
| Sessions.NothingAfterTheEnd | core/Client/VotingClient.cs:363 | a client that has been disposed of ignores every frame |
| Notices.AnswerInitialize | core/Server/VotingServer.cs:107-136 | the answer to INIT is the table, and the multiplier of the anonymous user if it is not the default |
| Notices.OneGoesWithoutSaying | core/Shared/ProtocolInfo.cs:6 | a new client shows the multiplier 1 and nothing else, and 1 is the one multiplier that the server does not mention |
| Notices.HandshakeInforms | core/Server/VotingServer.cs:107-136 | after these answers a new client has the table and the multiplier |
| Notices.LoginInformsExact | core/Server/VotingServer.cs:141-188 | after a login the client shows its user's multiplier if and only if that is not the default or the default is what it showed before |
| Handshake.HandshakeAgrees | core/Client/VotingClient.cs:369-391 | whatever the client's table held, the answer to INIT replaces it by the server's list and completes the handshake |
| Handshake.DenseTable | server/Program.cs:181-201 | with ids 1 to n the client's table maps each id to the template at its place and contains no other id |
| Packets.TableEntries | core/Client/VotingClient.cs:379-388 | the client has an entry for an id exactly if the list has, and it is the last one with that id |
| Packets.OtherVersion | core/Client/VotingClient.cs:372-396 | an answer of another version, or without a number of entries, leaves the table as it was |
| Packets.CutTable | core/Client/VotingClient.cs:378-396 | an answer with fewer entries than it announces leaves those that it has, and none of the table before |
| Handshake.BodyRoundTrip | core/Server/Operation.cs:36-52 | an operation on an id of the list is read back with its template, vote and state whatever follows it; on any other id nothing is read after the id |
| Handshake.OperationRoundTrip | core/Server/VotingServer.cs:195-201 | every operation a client sends on an id of the list arrives with the template of that id, the same vote byte and the same state; any other is dropped |
| Packets.OperationBytes | core/Client/Operation.cs:116-132 | an operation byte by byte: 0, the id in eight bytes, the vote, the length of the state in four, the state |
| Packets.OperationRead | core/Server/Operation.cs:36-52 | any packet of that shape: an id outside the list is dropped, a negative length is malformed, and a state that is cut short is taken as it is |
| Packets.OperationCut | core/Server/VotingServer.cs:195-201 | a shorter packet is malformed, unless its id has been read and is outside the list |
| Handshake.ProcessIncomingFrame | core/Server/VotingServer.cs:96-202 | a packet is one of the commands with what it carries, an operation of the list, an operation on an unknown id, or malformed, as its bytes say |
| Handshake.RequestRoundTrip | core/Server/VotingServer.cs:104-193 | every command that a client sends arrives as that command, with its answer if it has one |
| Packets.RequestBytes | core/Server/VotingServer.cs:104-193 | the client's commands byte by byte: "INIT", "REG", "AUTH" and "AUTH_RES" with its answer |
| Packets.RequestRead | core/Server/VotingServer.cs:104-193 | every other command is ignored, and an answer without a length is malformed |
| Packets.AnswerRead | core/Server/VotingServer.cs:189-193 | an answer that is cut short is taken as it is |
| Operations.ClientOperation.Serialize | core/Client/Operation.cs:116-132 | nothing is written for a disposed type, and otherwise the id, the vote and the current state; a disposed operation throws |
| Operations.ClientOperation.Packet | core/Client/VotingClient.cs:196-204 | a packet is made exactly if the client is connected and neither the operation nor its type is disposed |
| Operations.ClientOperation.SendOperationAsync | core/Client/VotingClient.cs:196-222 | the packet goes to the network exactly if the loop is entered, the lock is obtained and type and token are still live; success without that is reported exactly if the loop is not entered |
| Operations.ClientOperation.SetStateBytes | core/Client/Operation.cs:65-77 | the state is replaced unless the operation has been disposed of, and then the setter fails and changes nothing |
| Operations.ClientOperation.Dispose | core/Client/Operation.cs:150-167 | the first disposal empties the state and later ones change nothing |
| Operations.Deserialize | core/Client/Operation.cs:85-104 | the client reads what the server would, on a type of its own list that has not been disposed of |
| Operations.SerializeOnServer | core/Server/Operation.cs:63-74 | the server writes an operation in the form the client writes it |
| Operations.BothWays | core/Server/Operation.cs:36-74 | in either direction an operation keeps its type, its vote and its state |
| EndToEnd.VotesArrive | core/Server/VotingServer.cs:96-202 | a client that learned its table from INIT sends any list of votes on it: the server's loop delivers one packet per vote in order, and each names a template with the id and the instructions that the client has |
| EndToEnd.KeysReachTheirProfiles | shared/ClientManager.cs:282-304 | if no key is in two profiles, the client maps every key to its profile's operation and nothing else, and has exactly the configured limits, whatever the order in which it goes through its table |
| EndToEnd.KeyManager.ParseInstructions | shared/ClientManager.cs:282-304 | the mapping leads from each non-empty key of the table to an operation that has it; parsing fails exactly if some block is malformed |
| WireToKeys.TableArrives | core/Server/VotingServer.cs:107-122 | the answer to INIT, framed and received, leaves the client with the server's list whatever it held |
| WireToKeys.StreamIsVotes | core/Server/VotingServer.cs:96-202 | what the server makes of the client's stream is the client's votes as steps of the tally, in order and no others |
| WireToKeys.BallotHasLast | core/Server/VotingManager.cs:139-179 | whatever happens between its votes, as long as the client stays its ballot has the last vote of its list on each operation |
| WireToKeys.KeyMovesKeys | server/Program.cs:176-224 | a key that the client has learned for a profile leads to the operation configured for that profile, so that a vote made with it is the client's ballot there and moves the keys of that profile's rules |
| BitPacker.Pack | core/Shared/BitPacker.cs:8-34 | the output is the data moved along by one bit, and there is one exactly up to 2^28 - 2 bytes; beyond that the 32-bit size wraps and one of two exceptions is thrown |
| BitPacker.Unpack | core/Shared/BitPacker.cs:39-58 | the payload is one byte shorter up to 2^28 bytes; longer arrays fail or lose their end, in periods of 2^29 bytes |
| BitPacker.PackedBits | core/Shared/BitPacker.cs:8-34 | the output's bits are the starting bit, the data's bits in order, and seven zeros |
| BitPacker.UnpackedBits | core/Shared/BitPacker.cs:39-58 | the prefix is the first bit and the payload's bits are those that follow it |
| BitPacker.PackedBytes | core/Shared/BitPacker.cs:8-34 | each byte of the output is half a byte of the data, plus 128 for an odd byte before it or, at first, for the starting bit 1 |
| BitPacker.UnpackedBytes | core/Shared/BitPacker.cs:39-58 | each byte of the payload is twice the low seven bits of a byte plus the top bit of the next; the prefix is the first top bit |
| BitPacker.PackThenUnpack | core/Shared/BitPacker.cs:8-58 | unpacking what was packed gives the bit and the data back |
| BitPacker.UnpackThenPack | core/Shared/BitPacker.cs:8-58 | packing what was unpacked clears the low seven bits of the last byte and changes nothing else |
| Membership.PartitionAlongRuns | core/Server/VotingServer.cs:60-74 | in every run in which no detached client changes user, an attached client is in the set of its own user and in no other, and a detached one is in none |
| Membership.PartitionExact | core/Server/ClientInfo.cs:29-56 | an action keeps the partition if and only if it does not put a detached client onto a user |
| Membership.SessionLimitAlongRuns | core/Server/User.cs:106-120 | in every run whose only way onto a user is TryAddClient and in which no limit is lowered below the sessions it has, the sessions never exceed the limit, and a negative limit admits nobody |
| Membership.LoginOutcome | core/Server/User.cs:106-120 | in every state in which members belong to their user, a login, of an attached client or a detached one, is refused exactly if the user is full and the client does not belong to it; a refusal changes nothing, a success of a client that belonged to another user adds one session, and repeating it adds none |
| Membership.LoginExact | core/Server/User.cs:106-120 | a login of a client that is not on the user succeeds exactly if the user has no limit or fewer sessions than that |
| Membership.FirstComeFirstServed | core/Server/User.cs:106-120 | of n different clients that log in one after the other to a user without sessions the first min(n, limit) get in, and the others stay where they were |
| Membership.SessionsMove | core/Server/ClientInfo.cs:29-56 | a connection, a disconnection and a move change the sessions of the users concerned by that client, and of nobody else |
| Membership.KnownNext | core/Server/VotingServer.cs:60-74 | every action keeps users and clients known, and a client in a user's set belongs to that user |
| MembershipObjects.User.TryAddClient | core/Server/User.cs:106-120 | the method on objects is the value-level login, with the same answer |
| MembershipObjects.User.Set | core/Server/User.cs:74-99 | all three settings are overwritten, and the events raised are exactly those of the settings that changed, with old and new values |
| MembershipObjects.ClientInfo.SetUser | core/Server/ClientInfo.cs:29-46 | the setter moves the client between two users' sets and touches no other user |
| MembershipObjects.ClientInfo.ExchangeUser | core/Server/ClientInfo.cs:49-56 | the move happens unless the client is already there, and the previous user is returned |
| MembershipObjects.VotingServer.HandleClientConnected | core/Server/VotingServer.cs:60-66 | a new client is attached to the anonymous user |
| MembershipObjects.VotingServer.HandleClientDisconnected | core/Server/VotingServer.cs:68-74 | a client that goes is detached from its user but keeps its reference to it |
| ChannelWrapper.InvAlongRuns | core/Server/Network/ConcurrentChannelWrapper.cs:110-168 | at every point of every interleaving of the handlers and of any number of sends each client's dictionary entries, lookups and events are its own |
| ChannelEvents.EntriesHaveCounterparts | core/Server/Network/ConcurrentChannelWrapper.cs:110-168 | an entry from an inner client to an outer one has its counterpart, and the outer client is the one created for it |
| ChannelEvents.InverseExact | core/Server/Network/ConcurrentChannelWrapper.cs:110-168 | the dictionaries are each other's inverse exactly when no handler is between its two updates |
| ChannelEvents.EventsReachTheirClient | core/Server/Network/ConcurrentChannelWrapper.cs:110-168 | apart from the events of sends, all that is raised about an outer client is its connection, its inner client's data in order, and its disconnection last, and nothing is raised about an inner client |
| ChannelEvents.SentExact | core/Server/Network/ConcurrentChannelWrapper.cs:136-147 | a completed send finds the outer client that it was addressed to if and only if that one is still mapped from its inner client, and no other client ever |
| ChannelEvents.SendsAreReported | core/Server/Network/ConcurrentChannelWrapper.cs:136-147 | each report of a send is about that outer client if it was still mapped when the send completed, and otherwise about the inner one |
| ChannelEvents.LateSend | core/Server/Network/ConcurrentChannelWrapper.cs:136-168 | a run in which a client goes while a send to it completes: the send is reported about the inner client, after the disconnection |
| ChannelEvents.PayloadsAreReported | core/Server/Network/ConcurrentChannelWrapper.cs:123-134 | no payload is lost, repeated or reordered between the underlying channel and the events |
| ChannelEvents.SendsReachTheirClient | core/Server/Network/ConcurrentChannelWrapper.cs:37-56 | while an outer client is mapped, what is sent to it goes to the inner client it was created for, and otherwise nowhere |
| ChannelHistory.MapsAreSteps | core/Server/Network/ConcurrentChannelWrapper.cs:110-168 | read off the steps: an inner client leads to the outer one created for it from its entry until its disconnection, and that one back to it from its creation until the second update of the disconnection |
| ChannelHistory.EventsAreSteps | core/Server/Network/ConcurrentChannelWrapper.cs:110-168 | read off the steps: the announcement, each delivery and the leave of a client each raise one event, about the outer client created for it, with the payload received last or the reason given; nothing else but a report raises one |
| ChannelHistory.ReportsAreSteps | core/Server/Network/ConcurrentChannelWrapper.cs:136-147 | read off the steps: the report of a send carries what was sent and is about the outer client that was linked when it completed, or else about the inner one |
| ChannelObjects.ConcurrentChannelWrapper.HandleClientConnected | core/Server/Network/ConcurrentChannelWrapper.cs:110-121 | the whole handler adds one entry to each dictionary for a new outer client and announces it |
| ChannelObjects.ConcurrentChannelWrapper.HandleDataReceived | core/Server/Network/ConcurrentChannelWrapper.cs:123-134 | data of a connected inner client is raised for its own outer client |
| ChannelObjects.ConcurrentChannelWrapper.HandleDataSent | core/Server/Network/ConcurrentChannelWrapper.cs:136-147 | a completed send is raised for its outer client, or for the inner one if the client has gone |
| ChannelObjects.ConcurrentChannelWrapper.SendToClientAsync | core/Server/Network/ConcurrentChannelWrapper.cs:37-56 | a message is passed on to the mapped inner client, and only then does the outer client get a send semaphore |
| ChannelObjects.ConcurrentChannelWrapper.HandleClientDisconnected | core/Server/Network/ConcurrentChannelWrapper.cs:149-168 | the whole handler removes the client's two entries and its send semaphore and no others, and reports its outer client |
| Reconnect.OneBodyAtATime | core/Client/VotingClient.cs:223-359 | in every interleaving at most one loop is between setting and clearing the flag, and the flag is set while it is there |
| Reconnect.OnlyLiveClientsTry | core/Client/VotingClient.cs:225-239 | an attempt begins only while the client is not cancelled, and after a test, since which the loop has done nothing else, that found it not disposed of; a loop's body begins only while no other is under way or stranded |
| Reconnect.DisposedMeanwhile | core/Client/VotingClient.cs:239 | a run in which a disposal between the reads of the two flags does not stop the attempt |
| Reconnect.CountsAlongRuns | core/Client/VotingClient.cs:223-359 | in every interleaving the flag, the connection lock, the disposal and the events account for where every task stands |
| Reconnect.TornDownOnce | core/Client/VotingClient.cs:446-480 | the body of Dispose_ completes at most once, only after the flag is set, and it is what disposes of the lock |
| Reconnect.OutcomesJustified | core/Client/VotingClient.cs:223-359 | a loop never fails more than three times in a row; it ends connected with no attempts counted, out of attempts and disposed, stopped by disposal or cancellation, or broken off by a handler |
| Reconnect.LoopsEnd | core/Client/VotingClient.cs:239-348 | whatever the other tasks do, a loop makes at most 21 moves, and eleven more for each exception of the handler of AfterOperationsReload |
| Reconnect.LoopCanMove | core/Client/VotingClient.cs:223-359 | a loop can move until it has ended, except exactly while it waits for a lock that it cannot get |
| Reconnect.WaitersAreServed | core/Client/VotingClient.cs:236 | while the lock has not been disposed of, some task can move whenever a loop waits for it |
| Reconnect.WaitsForever | core/Client/VotingClient.cs:458-480 | a loop that waits for the lock when it is disposed of waits at every later point of every run without a cancellation, with the flag set |
| Reconnect.WaitingIsReached | core/Client/VotingClient.cs:223-480 | a run of seven steps reaches that state: a disposal while ConnectAsync holds the lock |
| Reconnect.RetriesForever | core/Client/VotingClient.cs:330-346 | for every number there is a run of the loop in which it has connected that often and its handler has thrown each time, and it goes on with one attempt counted |
| Reconnect.EventsConserved | core/Client/VotingClient.cs:231-341 | with no loop under way, every BeforeOperationsReload has had its AfterOperationsReload or belongs to a loop that was stopped or broken off |
| Reconnect.ThirdAttemptConnects | core/Client/VotingClient.cs:20 | a new client's loop whose first two attempts fail and whose third one connects ends connected, with nothing counted, and lock and flag free |
| Reconnect.ThirdAttemptFails | core/Client/VotingClient.cs:239-348 | if the third one fails too the loop gives up, with the client disposed of and torn down once |
| Reconnect.AttemptsLeft | core/Client/VotingClient.cs:20 | a loop has three attempts, less those counted already, and always one |
| Reconnect.AtMostThree | core/Client/VotingClient.cs:239-348 | in every interleaving no loop fails more than three times in a row |
| ReconnectObjects.VotingClient.ReconnectLoopAsync | core/Client/VotingClient.cs:223-359 | run alone, the loop's moves are allowed ones; it waits exactly if it may begin and another task holds the lock, and otherwise which of its ends it comes to depends on the flags it finds and on whether one of the attempts it has left succeeds |
| ReconnectObjects.VotingClient.Attempts | core/Client/VotingClient.cs:239-348 | the while loop connects exactly if one of the attempts left does, and otherwise ends disposed |
| ReconnectObjects.VotingClient.Dispose | core/Client/VotingClient.cs:452-480 | the first disposal tears down and later ones change nothing |
| Reconnect.CountsAreSteps | core/Client/VotingClient.cs:107-346 | read off the steps, in every interleaving: the counter of attempts has the failures since the last connection, by whoever made it, and each of the two events has been raised as often as its step was made |
| Reconnect.FlagsAreSteps | core/Client/VotingClient.cs:225-480 | the client is cancelled, disposed of and without its lock exactly if a step has done so |
| AfkPass.ClientManager.AFKProcessing | shared/ClientManager.cs:118-187 | one pass marks exactly the timeouts before the first that is interrupted, queues the abstentions of those newly marked in order, and leaves the client away exactly if it was not interrupted |
| AfkPass.ClientManager.LockClient | shared/ClientManager.cs:224-233 | a vote of the user is saved and its operation is no longer away |
| AfkPass.MarksExact | shared/ClientManager.cs:119-170 | the marked timeouts are a prefix: those before the first one that a signal, a cancellation or the lock interrupts |
| AfkPass.MarkedInTime | shared/ClientManager.cs:121-141 | a timeout is marked only when at least its time has passed since the last click |
| AfkPass.DueIsMarked | shared/ClientManager.cs:119-141 | with a monotone clock, every timeout that is due when the pass begins is marked unless the lock is cancelled |
| AfkPass.MarkedExactly | shared/ClientManager.cs:118-170 | a timeout is marked exactly if it and every one before it was due when looked at or was waited for until the wait timed out, and the lock that the first one asks for, unless the user is away, was obtained |
| AfkPass.IdleMarksAll | shared/ClientManager.cs:118-170 | a pass that nobody interrupts, with a lock that is not cancelled, marks all and queues an abstention for exactly the operations of its timeouts that were not away |
| AfkPass.MarkedVotes | shared/ClientManager.cs:142-147 | a marked operation without a saved vote is saved with the byte 2; a saved vote stays, and other operations are left alone |
| AfkPass.VotesAreKept | shared/ClientManager.cs:142-147 | a pass never changes a saved vote, saves Against for an operation without one, and marks the operations of its timeouts and no others |
| AfkPass.NewlyExact | shared/ClientManager.cs:142-161 | an abstention is queued exactly for the operations that were not away yet |
| AfkPass.NewlyDistinct | shared/ClientManager.cs:142-161 | no operation gets two abstentions in one pass |
| AfkPass.NewlyInOrder | shared/ClientManager.cs:119-161 | with one timeout for each operation the abstentions are queued in the order of the timeouts |
| AfkPass.SecondPassIsQuiet | shared/ClientManager.cs:96-187 | a second pass without input is not interrupted, sends nothing, changes nothing, and has nothing to wait for |
| AfkPass.OneReturns | shared/ClientManager.cs:224-233 | after one vote of the user, the next complete pass queues an abstention for that operation alone and remembers the new vote |
| AfkPass.ComparisonIsTotal | shared/ClientManager.cs:358-365 | the records are totally ordered by time and then id, and only equal ones compare equal |
| AfkPass.EarlierFirst | shared/ClientManager.cs:358-365 | records are compared by their time spans, and those with the same one by their ids |
| AfkPass.AddedSorted | shared/ClientManager.cs:299-302 | adding a record keeps the set in that order and adds nothing else |

## Left out

- VotingManagers.VotingManager.HandleOperationReceived: each handler is one atomic step; the order in which locks are taken is in ManagerLocks. An exception of a subscriber in the cleanup thread ends the process, and one in the middle of a change of multiplier is not modelled.
- VotingManagers.VotingManager.SetVoteMultiplier: the snapshot of ConnectedClients is taken together with the adjustment. That no vote or cleanup reads the new multiplier before it is applied is ManagerLocks.ReadsWhatIsApplied; a client of the user that disconnects or is moved between the two is not modelled.
- ManagerLocks.DeadlockExact: a ReaderWriterLockSlim also lets readers wait for waiting writers, and lets the thread that holds it upgradeable in again; neither is modelled, nor are the locks of clients and of ConnectedClients.
- VotingManagers.VotingManager.ApplyVoteTally: the counters of an operation are a value in a dictionary instead of an object of their own, so reads of a counter during an update are not modelled.
- TallyRefinement.RefinedExact: a change of user leaves the counters alone, because the handler of OnClientUserChange takes a non-recursive write lock twice and throws before it changes one; the obsolete SignalUnhandledUserChange, which subtracts the change, is not modelled.
- Actuation.ActionsMatchVotes: an update at which the injector throws is not followed: the cache entry is written before the injection, so the key is not tried again until the verdict changes.
- ResultProcessing.ResultProcessor.ProcessMetricUpdate: rates are exact quotients without the rounding of floating point, and key injection and output lines are recorded, not performed.
- Framing.HandleClientLoop: sockets are lists of chunks that end or fail after the last one, and the tests of the connection flag and the token are a number of rounds; closing a socket while a read is under way is such an end.
- Framing.StartListening: the exception for a client that is not connected when the loop begins is not modelled; a cancellation during a read counts as the end of the stream at that point, and an OperationCanceledException of the handler, which counts as a normal end, is not told from other exceptions.
- FrameSender.WholeFrames: the flush and the event after a write have no effect, and the client's SendAsync, which takes no lock, is modelled for one call at a time (Framing.Send).
- RwLockObjects.CrossThreadLockToken.Dispose: two threads that dispose of one token at the same moment are not modelled; its flag is not atomic.
- RwLockObjects.CrossThreadReaderWriterLock.EnterReadLock: a method runs until it returns or waits, and a call that waits is resumed by calling it again (or AwaitWriters for the first reader); what other threads do in between is in RwLock.
- InstructionsProtocol.InstructionsRoundTrip: the limit is the eight bytes of its number of milliseconds; rounding and the overflow of TimeSpan.FromMilliseconds are not modelled, and strings are bytes, without UTF-8 validation.
- Commands.VotingClient.HandleIncomingData: subscribers of the client's own events return, texts are bytes without UTF-8 validation, and a table that could not be read completely counts as a finished handshake, as in the code.
- Handshake.ProcessIncomingFrame: what the server does on a command is followed for INIT and for the frames of a login (Notices.AnswerInitialize, Notices.LoginInformsExact); the authentication itself is a foreign call.
- Handshake.ConfigureProfiles: the parsing of the configured limit is not modelled, and every block fits into an array.
- Operations.ClientOperation.Serialize: the locks around the state bytes are not modelled.
- Operations.ClientOperation.SendOperationAsync: a disposal of the operation while it is written is not modelled.
- ChannelWrapper.InvAlongRuns: Stop, which clears the dictionaries, is not modelled; the underlying channel raises a client's connection, data and disconnection one after the other, and the events of sends at any time.
- ChannelObjects.ConcurrentChannelWrapper.SendToClientAsync: waiting for the per-client semaphore, a send that makes a new one after the client has gone, and one that waits for a disposed one are not modelled.
- Reconnect.LoopsEnd: network calls return or throw; time, the content of the handshake and the attempts counter's wrap-around are not modelled.
- Reconnect.WaitsForever: that nothing resumes a waiter of a disposed semaphore, and that a cancellation still reaches it, are assumptions about the library, whose documentation only allows disposal without waiters.
- ReconnectObjects.VotingClient.ReconnectLoopAsync: the loop on objects runs without other tasks, so a disposal, a cancellation or a release of the lock by others while it runs, and exceptions of handlers, are in Reconnect only.
- ReconnectObjects.VotingClient.Attempts: a disposal or a cancellation by others between two attempts and exceptions of handlers are in Reconnect only.
- ReconnectObjects.VotingClient.Dispose: this is the disposal that the loop itself makes; those of other tasks, which overlap with it, are in Reconnect.
- AfkPass.ClientManager.AFKProcessing: the semaphores and the cancellation source are results of the environment, sending is a list of operations, a call of LockClient while the pass runs is seen only as the signal that interrupts it and not as the vote that it saves, and TryRestore is left out because the state it tests is already set when it is called.
- AfkPass.AddedSorted: SortedSet is library code; it is modelled as insertion into a sorted list.
- Membership.SessionLimitAlongRuns: logins do not overlap; the two locks of TryAddClient are not modelled.
- Authentication, the user database, the console, logging, WebSocket and the user interfaces: foreign calls, input and output, or members without a hard property.
