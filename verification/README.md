# Verified model of the iSCP client

This project models the stream layer of the iSCP Go client and the transports under it, and proves
what they guarantee over whole runs. `dafny verify dfyconfig.toml` checks it.

## How the model is cut

The client is concurrent code structured by locks. Each concurrent component is a state machine
whose steps are the regions the code runs under one lock, one atomic operation, or one operation on
a channel; goroutines interleave their steps freely. The peer and the network are unrestricted:
results and responses may be late, repeated, out of order or for numbers never issued; writes and
dials may fail; any waiter may time out at any moment. A Go channel is a bounded queue with a closed
flag. Histories (points accepted, chunks issued, results processed, sessions dialed) are part of the
state so that conservation and order can be stated. Beside each machine stands a class with the
source's fields. Its methods are the source's critical sections, each proved to take exactly one step
of the machine, so what is proved of every run holds of any interleaving of them. Where a method runs
several critical sections in a row, what other goroutines do in between is a script or, if "Left out"
says so, nothing. Where Go walks a map in no fixed order, the
order is a parameter and every result holds for all orders. Integer widths are written out:
`U32` and its siblings are unbounded integers, and every wrap-around is explicit.

| files | component |
|---|---|
| `Prelude`, `ByteStrings`, `DataPoints` | machine integers and byte strings; data point groups, alias compression and the alias tables |
| `UpstreamDelivery`, `ResultChannels`, `UpstreamProtocol`, `UpstreamTheorems`, `UpstreamResend`, `FastDrain`, `DrainCounterexamples`, `Upstream` | the upstream: buffering, numbering, unacknowledged chunks, result channels, resend, draining and closing |
| `AliasLedger`, `DownstreamProtocol`, `DownstreamAliases`, `DownstreamTheorems`, `Downstream` | the downstream: alias assignment and batched acks |
| `ConnStatus`, `ConnLifecycle`, `ConnObject` | reconnecting, closing and sending on a connection |
| `ReconnectTransport`, `ReconnectObject` | the reconnecting transport |
| `RequestReply`, `UpstreamTables` | request and response matching, and the upstream tables of a wire connection |
| `SegmentSender`, `SegmentReassembly`, `SegmentDuplicates`, `SegmentReceiver` | datagram segmentation |
| `EcfDecision`, `EcfSelection`, `Ecf`, `ByteBalanced`, `TransportSelection` | the multipath selectors |
| `ContextTakeover`, `QuicNegotiation` | the sliding compression dictionary and the QUIC key-value codec |

## Where the code does not do what it promises

- Draining (`iscp/upstream.go:303-322`) reads the unacknowledged chunks and the length of the send
  buffer at two moments. A flush in between issues a chunk that neither reading sees, so the wait can
  end with that chunk unacknowledged. With the buffer flushed and no writer left it never does
  (`UpstreamTheorems.SlowDrainCompleteWithoutWriters`); with a writer left, one write that fits the
  counters is enough, from every state about to end the wait (`LateWriteIsMissed`);
  `SlowDrainCompleteIffNoWriters` puts the two together. `DrainCounterexamples` has a run.
- The shortcut of draining (`iscp/upstream.go:278`) compares the highest number acknowledged with the
  last one issued. In every run that processes each result after its chunk was issued and after the
  results of all earlier chunks, it leaves nothing unacknowledged (`FastDrain.FastDrainCompleteInTurn`).
  But from every state in which the last chunk's result is awaited before draining begins, that result can
  come next and lead to the shortcut with every other unacknowledged chunk left so (`LastOvertakes`);
  `FastDrainCompleteIffInTurn` puts the two together, and `DrainCounterexamples` has a run.
- A segmented message whose last index is 65535 is sent (`internal/segment/sender.go:21`) but never
  delivered, because the receiver adds one to the index in uint16
  (`internal/segment/read_buffer.go:28`). `SegmentReassembly.NothingLeftBehindIff` has the exact
  condition, and `LongestLeftBehind` the lengths concerned: 65535 * 1188 bytes and more.
- The receiver counts arrivals, not segments (`internal/segment/read_buffer.go:64-67`). With segments
  arriving more than once, a message is returned after every round of as many arrivals as it has
  segments, and is the one sent exactly when each segment with bytes in it is among the round:
  `SegmentDuplicates.ReturnedAfterEachRound`.
- `ECFSelector.Get` is documented to return the empty ID when no transport is available
  (`transport/multi/ecf_selector.go:115-116`). Only its first look does so
  (`EcfSelection.EmptyIffFirstLookFindsNothing`): once a look has decided to wait, later looks that find
  nothing available leave the waiting flag as it is, and Get polls on for as long as that lasts
  (`PollsOnAfterAWait`; `PollsOnInstance` has two transports on which this happens).
- The ECF inequalities are documented over the integers and computed in uint64. Each is decided as
  documented exactly when the margin between its sides is larger than what wrapping takes off it
  (`EcfDecision.FirstExactIff`, `SecondExactIff`). The decision is the documented one when the sides of
  each wrap equally often (`ExactWithoutExtraWraps`); when one margin is lost, exactly when the other
  inequality does not hold anyway (`LostMarginHarmlessIff`). Metrics that a provider can report and that
  turn the decision are in `EcfObject.WrapAroundWaits`.
- When the server gives an alias that stands for one data ID to another, the upstream keeps both and
  its two tables are no longer inverse: `DataPoints.BindAllKeepsInverseIff`,
  `DataPoints.AllReadBackIffInverse`; `DataPoints.RebindInstance` is the smallest case.
- A write that fails after compression has already moved the writer's dictionary window
  (`transport/websocket/transport.go:264-271`). That is harmless exactly when the lost message was empty
  or only repeated a full window: `ContextTakeover.FailedWriteKeepsWindowsIff`, `NextMessageSafeIff`. On a
  new link every message but the empty one does harm (`FirstMessageLost`).

## Model

| member | source | states |
|---|---|---|
| `DataPoints.ToUpstreamDataPointGroups` | iscp/data.go:40-68 | the loop with its set of seen IDs computes the compressed groups and the list of un-aliased IDs |
| `DataPoints.CompressResolves` | iscp/data.go:40-68 | resolving compressed groups through the inverse table gives back the groups |
| `DataPoints.AllReadBackIffInverse` | iscp/data.go:45-64 | every chunk is read back exactly when the tables are inverse |
| `DataPoints.UnaliasedIDsAreFirstOccurrences` | iscp/data.go:53-62 | the ID list is the set of un-aliased IDs, without repeats, by first occurrence |
| `DataPoints.ListedIDsAreThoseInFull` | iscp/data.go:45-64 | the ID list has exactly the IDs the groups give in full; every other group goes by the alias of its ID |
| `DataPoints.ReversedIsInverse` | iscp/conn.go:330-333 | the table built at open is inverse to the server's, whatever the map order, and knows all its IDs |
| `DataPoints.BindKeepsInverseIff` | iscp/upstream.go:774-780 | learning one alias keeps the tables inverse exactly when the alias is not already some other ID's |
| `DataPoints.BindAllKeepsInverseIff` | iscp/upstream.go:770-781 | a whole batch keeps the tables inverse exactly when none of its entries reuses an alias |
| `DataPoints.RebindInstance` | iscp/upstream.go:774-780 | an alias that stands for one ID given to another, right after opening |
| `DataPoints.BindAllGrows` | iscp/upstream.go:774-777 | a learnt binding is never changed |
| `DataPoints.BindAllLearns` | iscp/upstream.go:770-781 | after a batch an ID has an alias exactly when it had one or is given one: the one it had, or else the first given |
| `DataPoints.RebindsForever` | iscp/upstream.go:774-780 | tables that stopped being inverse never become inverse again |
| `UpstreamDelivery.AcceptInv` | iscp/upstream.go:470-488 | accepting points keeps conservation, the counters, the payload size and the partition into unacknowledged and acknowledged chunks |
| `UpstreamDelivery.FlushInv` | iscp/upstream.go:556-593 | issuing a chunk keeps all of these |
| `UpstreamDelivery.StateValidIffNoWrap` | iscp/upstream.go:515-526 | validateState accepts exactly when neither the total nor the sequence number would wrap |
| `UpstreamDelivery.FlushIssuesIff` | iscp/upstream.go:556-593 | a flush issues one chunk exactly when something is buffered and no counter would wrap, holds it under the next number and empties the buffer; otherwise it changes nothing |
| `UpstreamDelivery.StoredMeans` | iscp/upstream.go:909-917 | what is held of a chunk is all of it on a Reliable stream, and otherwise its IDs and times without payload |
| `UpstreamDelivery.RemoveSentInv` | iscp/upstream.go:919-923 | a result, expected or not, keeps all of these |
| `UpstreamDelivery.ClearSentInv` | iscp/upstream.go:429-431 | clearing the unacknowledged chunks of a stream that is not Reliable keeps all of these |
| `UpstreamDelivery.AcceptedPointHasOnePlace` | iscp/upstream.go:470-488 | each accepted point is in exactly one place: the send buffer, an unacknowledged chunk with its payload, or an acknowledged chunk |
| `ResultChannels.RegisterInv` | iscp/upstream.go:586-589 | a new result channel keeps every registered channel open and empty |
| `ResultChannels.UnregisterInv` | iscp/upstream.go:419-424 | so does dropping the entry of a chunk that could not be resent |
| `ResultChannels.DeliverInv` | iscp/upstream.go:801-825 | so does delivering a result; the send neither blocks nor meets a closed channel |
| `ResultChannels.NextStillOpen` | iscp/upstream.go:723-725 | in whatever order teardown closes the channels, the next one is still open |
| `ResultChannels.TeardownInv` | iscp/upstream.go:719-727 | teardown closes every registered channel, and closes none twice |
| `ResultChannels.WaiterInv` | iscp/upstream.go:595-623 | so do the steps of the waiting goroutines |
| `ResultChannels.RegisterLinks` | iscp/upstream.go:586-589 | a new chunk can be looked up, and its goroutine waits on the channel that is registered |
| `ResultChannels.UnregisterForgets` | iscp/upstream.go:419-424 | dropping an entry drops that one only |
| `ResultChannels.DeliverOnce` | iscp/upstream.go:801-825 | a delivered result takes its entry with it, is in its channel unless dropped, and touches no other channel |
| `ResultChannels.ResultReachesWaiter` | iscp/upstream.go:601-620 | a delivered result reaches the goroutine waiting for it, which raises the maximum to at least its number and ends |
| `ResultChannels.WaiterEnds` | iscp/upstream.go:595-623 | a goroutine that gives up or finds its channel closed is over; a chunk that was sent is waited for |
| `UpstreamProtocol.StoreStepInv` | iscp/upstream.go:470-826 | every step on the stored state keeps the invariant, and issued chunks, results and bindings only grow |
| `UpstreamProtocol.ResendStepGood` | iscp/upstream.go:399-428 | every step of the resend goroutine keeps done and pending a split of its snapshot |
| `UpstreamProtocol.CloseStepGood` | iscp/upstream.go:185-221 | every step of the closing paths keeps at most one request, with the exact total |
| `UpstreamProtocol.StepInv` | iscp/upstream.go:174-826 | every step of the whole upstream keeps its invariant |
| `UpstreamTheorems.NothingLostOrReordered` | iscp/upstream.go:470-488 | over any run of a Reliable upstream the issued chunks followed by the send buffer are the accepted history per data ID, and each issued chunk is held with its payload or acknowledged, not both |
| `UpstreamTheorems.HeldUntilAnswered` | iscp/upstream.go:909-923 | over any run an unacknowledged chunk is held unchanged until a result with its number is processed or the stream drops everything |
| `UpstreamTheorems.ForgottenForGood` | iscp/upstream.go:429-431 | once a stream that is not Reliable has resumed, no chunk issued before is held then or ever again |
| `UpstreamTheorems.HeldChunks` | iscp/upstream.go:909-917 | over any run every held chunk is the issued one on a Reliable stream, and the issued one without payload on any other |
| `UpstreamTheorems.ChannelsNeverFault` | iscp/upstream.go:801-825 | over any run no send on a result channel blocks or hits a closed one, none is closed twice, none carries two results |
| `UpstreamTheorems.WireIsFaithful` | iscp/upstream.go:402-413 | every chunk sent or resent decodes, through the current table, to the groups issued under its number, unless the server reused an alias |
| `UpstreamResend.ResendIsExact` | iscp/upstream.go:399-428 | of the chunks issued before a resume began to resend, exactly those unacknowledged at that moment have been handed to the wire by its end, each once, with their stored groups, whatever happened meanwhile |
| `UpstreamResend.BuiltWithCurrentAliases` | iscp/upstream.go:403-413 | a chunk is built for resending with the aliases known at that moment |
| `UpstreamResend.ResentIsAwaited` | iscp/upstream.go:414-425 | its result is registered for and awaited; when it could not be sent nothing is registered for its number |
| `UpstreamResend.CanResumeAgain` | iscp/upstream.go:399-428 | a resume that is over leaves room for the next one |
| `UpstreamTheorems.AckedIsNeverRevived` | iscp/upstream.go:399-428 | once acknowledged, a chunk never becomes unacknowledged again in any later run, resumes included, and its number keeps its groups |
| `UpstreamTheorems.OneExactCloseRequest` | iscp/upstream.go:174-242 | numbers are 1 to Current, counters are exact, and at most one CloseRequest goes out |
| `UpstreamTheorems.CloseRequestNamesAllIssued` | iscp/upstream.go:209-221 | over any run the request names the number and all the points of exactly the chunks issued when the counters were read |
| `UpstreamTheorems.OnlyFirstCallerWins` | iscp/upstream.go:185-187 | the first caller wins and every later one changes nothing |
| `UpstreamTheorems.ClosingGoesThrough` | iscp/upstream.go:185-233 | a caller that wins gets its request out and ends the stream |
| `UpstreamTheorems.MaxIsMonotone` | iscp/upstream.go:615-620 | the highest acknowledged number never decreases and is 0 or a processed number |
| `FastDrain.FastDrainSawTheLast` | iscp/upstream.go:278-281 | over any run, when the comparison ends draining, the highest issued chunk has had its result |
| `FastDrain.SkipsIff` | iscp/upstream.go:278-281 | the comparison ends draining exactly when the maximum read is the last number issued, and otherwise goes on to wait |
| `FastDrain.NoGapsAfterIff` | iscp/upstream.go:919-923 | a result leaves no gap among the acknowledged numbers exactly when it is for an issued chunk and all earlier ones had theirs |
| `FastDrain.FastDrainCompleteInTurn` | iscp/upstream.go:278-281 | over any run whose results are all processed in turn, the shortcut leaves nothing unacknowledged |
| `FastDrain.LastHeldSkips` | iscp/upstream.go:615-620 | whenever the last chunk's waiter holds its result before draining begins, the shortcut can come next, with nothing else acknowledged |
| `FastDrain.LastOvertakes` | iscp/upstream.go:783-825 | whenever the last chunk's result is awaited and no other is half processed, it can come first and lead to the shortcut with every other unacknowledged chunk left so |
| `FastDrain.FastDrainCompleteIffInTurn` | iscp/upstream.go:278-281 | so, with the last result and an earlier one still to come, the shortcut is sure to leave nothing unacknowledged exactly when results go on coming in turn |
| `UpstreamTheorems.SlowDrain` | iscp/upstream.go:303-322 | the waiting path returns with everything issued up to its first reading acknowledged and every accepted point issued |
| `UpstreamTheorems.SlowDrainCompleteWithoutWriters` | iscp/upstream.go:303-322 | with the buffer flushed and no further write, every way the waiting path ends leaves all chunks acknowledged and all points shipped |
| `UpstreamTheorems.LateWriteIsMissed` | iscp/upstream.go:313-320 | whenever the waiting path is about to end, one further write that fits the counters can make it end with its chunk unacknowledged |
| `UpstreamTheorems.SlowDrainCompleteIffNoWriters` | iscp/upstream.go:303-322 | so draining is sure to be complete exactly when no writer is left |
| `DrainCounterexamples.SlowDrainMissesALateChunk` | iscp/upstream.go:313-320 | a run from opening on in which draining ends with a chunk unacknowledged |
| `DrainCounterexamples.FastDrainMissesAnEarlierChunk` | iscp/upstream.go:278-281 | a run from opening on in which the second result comes first and the shortcut is taken with chunk 1 unacknowledged |
| `UpstreamObject.Upstream.constructor` | iscp/conn.go:330-362 | opening starts the machine with the two alias tables of the server's map |
| `UpstreamObject.Upstream.Append` | iscp/upstream.go:470-480 | appending a group is the accept step |
| `UpstreamObject.Upstream.ValidateState` | iscp/upstream.go:515-526 | the check before a chunk is issued |
| `UpstreamObject.Upstream.ToUpstreamChunk` | iscp/upstream.go:530-554 | the chunk built from the send buffer in map order, under the next number |
| `UpstreamObject.Upstream.FlushOnce` | iscp/upstream.go:556-593 | flush is the issuing step, or nothing when the buffer is empty or the state invalid |
| `UpstreamObject.Upstream.RemoveFromSent` | iscp/upstream.go:783-790 | the first half of processing a result |
| `UpstreamObject.Upstream.DeliverResult` | iscp/upstream.go:801-825 | the second half: deliver once, then forget the channel |
| `UpstreamObject.Upstream.CloseResultChs` | iscp/upstream.go:719-727 | the teardown loop is the teardown step |
| `UpstreamObject.Upstream.LearnDataIDAliases` | iscp/upstream.go:770-781 | the loop over an alias map is the learning step |
| `UpstreamObject.Upstream.MoveWaiter` | iscp/upstream.go:595-623 | one step of a waiting goroutine |
| `UpstreamObject.Upstream.StartResend` | iscp/upstream.go:399-402 | a resume starts from a copy of the unacknowledged chunks |
| `UpstreamObject.Upstream.BuildResent` | iscp/upstream.go:403-413 | a resent chunk keeps its number and is compressed with the current table |
| `UpstreamObject.Upstream.RegisterResent` | iscp/upstream.go:415-418 | it gets a new channel and goes out |
| `UpstreamObject.Upstream.EndResent` | iscp/upstream.go:419-424 | the entry of a chunk that could not be sent is dropped |
| `UpstreamObject.Upstream.EnterClose` | iscp/upstream.go:185-187 | only one closing path wins |
| `UpstreamObject.Upstream.SnapClose` | iscp/upstream.go:209-221 | the request names the number and points of everything issued |
| `UpstreamObject.Upstream.LoadMax` | iscp/upstream.go:278 | the first of the two loads of the shortcut |
| `UpstreamObject.Upstream.CompareWithSequence` | iscp/upstream.go:278-281 | the second, and the comparison: done exactly when they are equal |
| `UpstreamObject.Upstream.LookAtSent` | iscp/upstream.go:313 | the first reading of the waiting path |
| `UpstreamObject.Upstream.LookAtBuffer` | iscp/upstream.go:315-320 | the second one |
| `UpstreamObject.Upstream.ClearSentBuf` | iscp/upstream.go:936-940 | dropping the unacknowledged chunks |
| `UpstreamObject.Upstream.Perform` | iscp/upstream.go:470-826 | every step on the stored state is what some method does |
| `AliasLedger.AssignInv` | iscp/downstream.go:505-519 | assigning fresh aliases to a read leaves every alias in one place with one meaning |
| `AliasLedger.PushInv` | iscp/downstream.go:314-328 | so does moving them to the ack buffer |
| `AliasLedger.FlushInv` | iscp/downstream.go:344-354 | so does moving the ack buffer into an ack |
| `AliasLedger.PushInTime` | iscp/downstream.go:314-328 | and none of these moves an alias behind a result that depends on it |
| `DownstreamAliases.AssignAllSpec` | iscp/downstream.go:505-519 | every given ID ends with an alias, new ones are the next numbers in order, nothing bound changes |
| `DownstreamAliases.NewAliasesInOrder` | iscp/downstream.go:505-519 | of two IDs without an alias the one given first gets the smaller one |
| `DownstreamAliases.GoodStep` | iscp/downstream.go:174-359 | every step keeps the alias, order and read invariants while the generators have not wrapped |
| `DownstreamTheorems.ResultsConserved` | iscp/downstream.go:336-359 | the results of all acks followed by the buffered ones are those of the successful reads, each once, in push order |
| `DownstreamTheorems.FlushTakesAll` | iscp/downstream.go:336-359 | a flush builds an ack exactly when something is buffered, with exactly what is, and leaves nothing buffered |
| `DownstreamTheorems.FlushSendsAllResults` | iscp/downstream.go:336-359 | after any run one more flush has sent the result of every successful read so far |
| `DownstreamTheorems.FlushAnnouncesAll` | iscp/downstream.go:336-359 | and has announced every alias that is in no read's hand |
| `DownstreamTheorems.AckIDsCountUp` | iscp/downstream.go:344-350 | ack IDs are 1, 2, 3, ... modulo 2^32 |
| `DownstreamTheorems.AliasesAnnouncedOnce` | iscp/downstream.go:314-354 | each alias assigned after the open is in exactly one place: a read's hand, the ack buffer, or one ack |
| `DownstreamTheorems.ResultsNeverOvertakeAliases` | iscp/downstream.go:180-195 | the result of a read never leaves while an alias the read introduced is still in a hand or buffered, nor in an earlier ack than the one announcing it |
| `DownstreamTheorems.AnnouncedAliasesResolve` | iscp/downstream.go:452-486 | what an ack announced stays what the tables say |
| `DownstreamTheorems.BindingsNeverChange` | iscp/downstream.go:505-519 | once bound, an alias keeps its meaning and an ID its alias for the rest of every run |
| `DownstreamTheorems.ReadsAreFaithful` | iscp/downstream.go:452-499 | a successful read is its chunk with every alias resolved, although each lookup takes the lock anew |
| `DownstreamTheorems.KnownAliasesNeverFail` | iscp/downstream.go:452-490 | a read whose aliases were all in the tables when its chunk was received never fails, whatever other reads and flushes come before each of its lookups |
| `DownstreamTheorems.OneAliasPerPointer` | iscp/downstream.go:536-547 | no upstream info pointer has two aliases |
| `DownstreamTheorems.GivenInfosHaveOneAlias` | iscp/downstream.go:532-548 | an upstream info that a successful read was given in full has exactly one alias |
| `DownstreamTheorems.FilterKeepsFullIDs` | iscp/downstream.go:439-450 | the filter keeps every ID given in full and nothing else |
| `DownstreamTheorems.OpenedOntoIff` | iscp/conn.go:449-452 | the two tables are a bijection at open exactly when the configured data IDs are distinct |
| `DownstreamTheorems.TablesAreInverseIffDistinct` | iscp/downstream.go:505-519 | over any run the reverse table never lies, and the tables are a bijection exactly when the configured data IDs are distinct |
| `DownstreamObject.AliasGenerator.Next` | wire/stream_id_generator.go:9-16 | never 0, and the next number after a wrap is 1 |
| `DownstreamObject.FilterIDs` | iscp/downstream.go:439-450 | the IDs a chunk gives in full |
| `DownstreamObject.Downstream.constructor` | iscp/conn.go:444-452 | opening assigns 1, 2, ... to the configured IDs |
| `DownstreamObject.Downstream.AssignDataIDAlias` | iscp/downstream.go:505-519 | the assigning loop is the machine's step |
| `DownstreamObject.Downstream.KnowsPointer` | iscp/downstream.go:536-541 | the search compares pointers |
| `DownstreamObject.Downstream.AssignUpstreamInfoAlias` | iscp/downstream.go:532-548 | an alias per new pointer |
| `DownstreamObject.Downstream.PushUpstreamInfoAckBuffer` | iscp/downstream.go:314-320 | infos join the ack buffer |
| `DownstreamObject.Downstream.PushDataIDAckBuffer` | iscp/downstream.go:322-328 | data IDs join the ack buffer |
| `DownstreamObject.Downstream.PushResultAckBuffer` | iscp/downstream.go:330-334 | a result joins the ack buffer |
| `DownstreamObject.Downstream.FindUpstreamInfo` | iscp/downstream.go:453-467 | the lookup of the upstream info is one step of the machine |
| `DownstreamObject.Downstream.FindDataID` | iscp/downstream.go:472-486 | the lookup for one group is one step of the machine |
| `DownstreamObject.Downstream.WireToDownstreamChunk` | iscp/downstream.go:452-499 | conversion is resolution through the tables, an unknown alias is an error |
| `DownstreamObject.Downstream.ReadDataPoints` | iscp/downstream.go:180-195 | a read announces first and records a result only for a successful conversion |
| `DownstreamObject.Downstream.FlushAck` | iscp/downstream.go:336-359 | the three buffers leave together in one ack and are empty; nothing leaves exactly when all are empty |
| `ConnStatus.StatusBox.Swap` | iscp/state.go:42-46 | the unconditional change |
| `ConnStatus.StatusBox.CompareAndSwap` | iscp/state.go:48-56 | changes only from the given status, and says whether it did |
| `ConnStatus.StatusBox.CompareAndSwapNot` | iscp/state.go:58-66 | changes only away from another status, and says whether it did |
| `ConnLifecycle.StepInv` | iscp/conn.go:640-735 | every step keeps the lock, session, closer and status invariants |
| `ConnLifecycle.ClosedIsAbsorbing` | iscp/conn.go:640-656 | once closed the status stays closed, over all writers |
| `ConnLifecycle.NoSessionLeaks` | iscp/conn.go:716-735 | once a Close has returned and no reconnect is in flight, every session ever dialed was closed |
| `ConnLifecycle.CloseEndsConnection` | iscp/conn.go:765-809 | calling Close closes the connection at once, and its session as soon as the lock is free |
| `ConnLifecycle.CloseGoesThrough` | iscp/conn.go:783-809 | a Close that has swapped the status closes the current session and gives the lock back |
| `ConnLifecycle.NoDialAfterClose` | iscp/conn.go:675-679 | a closed connection that is not already reconnecting never dials again |
| `ConnLifecycle.ReconnectFailsOnlyWhenClosed` | iscp/conn.go:727-733 | the final compare-and-swap fails exactly when Close won |
| `ConnLifecycle.SnapshotsAreCurrentOrClosed` | iscp/conn.go:680-682 | a session handed out is current or has been closed |
| `ConnLifecycle.SnapshotHandsOutCurrent` | iscp/conn.go:269-273 | a snapshot hands out the current session and changes nothing else |
| `ConnLifecycle.SenderAsksForReconnect` | iscp/conn.go:649-653 | a sender that met a closed session asks for a reconnect, unless the connection is closed |
| `ConnObject.Conn.constructor` | iscp/conn.go:640-656 | a connection starts connected with one session |
| `ConnObject.Conn.MarkReconnecting` | iscp/conn.go:676-679 | the first check of reconnect |
| `ConnObject.Conn.FetchSession` | iscp/conn.go:680-681 | the session to replace is read under the lock |
| `ConnObject.Conn.CloseFetched` | iscp/conn.go:682 | and closed outside it |
| `ConnObject.Conn.Dial` | iscp/conn.go:700-705 | a successful dial makes a new session |
| `ConnObject.Conn.CheckNotClosed` | iscp/conn.go:722-725 | the second check closes the new session when closed |
| `ConnObject.Conn.InstallSession` | iscp/conn.go:726 | the pointer swap |
| `ConnObject.Conn.PublishConnected` | iscp/conn.go:727-734 | the final compare-and-swap |
| `ConnObject.Conn.BeginClose` | iscp/conn.go:767 | closing starts with the swap to closed |
| `ConnObject.Conn.CloseCurrent` | iscp/conn.go:781-808 | closing closes the current session under the lock |
| `ConnObject.Conn.DialLoop` | iscp/conn.go:697-715 | the retry loop ends with one new session, or with none and the connection closed; failed dials followed by a successful one end it with that session |
| `ConnObject.Conn.FinishReconnect` | iscp/conn.go:716-735 | the new session becomes current, unless the connection is closed; then it is closed or left to the Close in progress |
| `ConnObject.Conn.Reconnect` | iscp/conn.go:669-735 | reconnect succeeds only with a session of its own, and whenever failed dials are followed by a successful one before a Close; fails only when closed, does not dial a connection closed before, and takes exactly the machine's steps |
| `ConnObject.Conn.WaitUntilConnected` | iscp/state.go:107-140 | a sender waits while reconnecting, through any number of wake-ups, and ends by the first other status it sees: connected, unless its context is done, or closed; without one it gives up with its context |
| `ConnObject.Conn.Send` | iscp/conn.go:640-656 | send calls its function exactly in the rounds whose wait ends connected with the context not done, again exactly after a closed session on a connection that is not closed, asking for a reconnect each time, and hands on every other error |
| `ReconnectTransport.OwnStepInv` | transport/reconnect/transport.go:715-801 | every step keeps who owns each inner transport, and a transport is only replaced by a later one |
| `ReconnectTransport.StepInv` | transport/reconnect/transport.go:433-504 | every step of the write loop and of the owners keeps the whole invariant |
| `ReconnectTransport.WritesAreFifoAndOnce` | transport/reconnect/transport.go:433-504 | successful writes happen in queue order and once per request across all inner transports; a reply is nil exactly when the write succeeded; a failed write is repeated only on a later transport |
| `ReconnectTransport.EveryRequestAnswered` | transport/reconnect/transport.go:436-516 | over any run in which the writers wait, all requests taken are answered in queue order, but the one in hand or the one a Close found in hand |
| `ReconnectTransport.QueuedIsTaken` | transport/reconnect/transport.go:440-477 | a queued request is taken and, with a transport in use, about to be written |
| `ReconnectTransport.SuccessIsAnswered` | transport/reconnect/transport.go:474-515 | a write that succeeds is answered nil and the loop goes on |
| `ReconnectTransport.FailureCallsReconnect` | transport/reconnect/transport.go:474-501 | a write that fails while nothing is closed leads to a reconnect for the same request |
| `ReconnectTransport.ReconnectGoesOn` | transport/reconnect/transport.go:489-501 | a reconnect that dials gives the same request its next attempt, on the new transport |
| `ReconnectTransport.ReconnectEnds` | transport/reconnect/transport.go:715-801 | so does one that finds the transport replaced; one that finds everything closed or runs out of attempts ends the loop with an error for the request |
| `ReconnectTransport.NoTransportLeaks` | transport/reconnect/transport.go:622-645 | once Close, the initial connection and every reconnect are over, every inner transport ever acquired was closed |
| `ReconnectTransport.CloseGoesThrough` | transport/reconnect/transport.go:622-638 | a Close closes the transport in use as soon as no reconnect holds the lock |
| `ReconnectTransport.ClosedStaysClosed` | transport/reconnect/transport.go:622-638 | after a Close the transport in use is a closed one, whatever is in flight |
| `ReconnectObject.Transport.AssignInitial` | transport/reconnect/transport.go:287-316 | the initial connection installs its transport, or closes it when closed meanwhile |
| `ReconnectObject.Transport.InitialConnect` | transport/reconnect/transport.go:262-320 | ends with a transport of its own installed, or with everything cancelled and what it dialed closed, within the allowed number of dials; failed dials followed by a successful one end with a transport; a dialed transport that lacks Closer is refused, left open, and cancels everything too |
| `ReconnectObject.Transport.CloseTransport` | transport/reconnect/transport.go:622-638 | Close closes the current transport |
| `ReconnectObject.Transport.CheckCall` | transport/reconnect/transport.go:717-743 | the head of reconnect |
| `ReconnectObject.Transport.Reconnect` | transport/reconnect/transport.go:715-801 | reconnect returns without error only with a transport other than the failed one, always when it finds it replaced or when failed dials are followed by a successful one; with an error only when closed or after the allowed number of dials, with the transport unchanged; its steps are the machine's |
| `ReconnectObject.Transport.WriteRequest` | transport/reconnect/transport.go:474-501 | with the read loop reconnecting in between, one request is attempted on ever later transports until an attempt succeeds, a reconnect fails or a Close is seen; it is answered nil exactly when the last attempt succeeded |
| `RequestReply.IDGenerator.Next` | wire/req_id_generator.go:24-26 | returns the old value and advances by two modulo 2^32 |
| `RequestReply.IDsAreDistinct` | wire/req_id_generator.go:24-26 | any 2^31 consecutive IDs are distinct, the next repeats the first, all keep their parity |
| `RequestReply.StepInv` | wire/client_conn.go:775-806 | every step keeps the reply table and the reply channels in order |
| `RequestReply.RepliesNeverBlock` | wire/client_conn.go:793-806 | a reply channel is empty when the reading loop sends to it, and every reply a call gets carries its ID |
| `RequestReply.ResponsesFindTheirCall` | wire/client_conn.go:775-806 | within 2^31 requests a response reaches the registered call with its ID |
| `RequestReply.ResponseIsReturned` | wire/client_conn.go:775-806 | and the call returns exactly that response once the reading loop and the call get to run |
| `RequestReply.FailedIsOver` | wire/client_conn.go:780-790 | a call that failed stays failed, whatever arrives for it |
| `RequestReply.ClientConn.TakeRequestID` | wire/client_conn.go:462-464 | the k-th request gets the k-th ID |
| `RequestReply.ClientConn.RegisterReply` | wire/client_conn.go:776-779 | the head of sendRequest |
| `RequestReply.ClientConn.LookupReply` | wire/client_conn.go:795-803 | the reading loop takes an entry at most once |
| `RequestReply.ClientConn.DeliverReply` | wire/client_conn.go:804 | the send finds the slot empty |
| `UpstreamTables.AcksAndWritersAgree` | wire/client_conn.go:495-588 | an alias has an ack channel exactly when it has a writer, and no channel serves two aliases |
| `UpstreamTables.OpenKeepsInStepIff` | wire/client_conn.go:495-517 | an open keeps streams and writers in step exactly when it takes no other stream's alias and gives a known stream no second one |
| `UpstreamTables.CloseKeepsInStep` | wire/client_conn.go:570-585 | a close always keeps them in step |
| `UpstreamTables.StreamsStayInStep` | wire/client_conn.go:495-588 | over any run of such opens and closes a stream can send exactly while it is open |
| `UpstreamTables.OpenedCanSend` | wire/client_conn.go:495-517 | an opened stream can send under its alias with an ack channel of its own, and nobody else is touched |
| `UpstreamTables.ClosedCannotSend` | wire/client_conn.go:570-585 | a closed stream has neither alias nor channel nor writer, and nobody else is touched |
| `UpstreamTables.WriterFollowsQoS` | wire/client_conn.go:504-515 | over any run an alias is written to the unreliable transport exactly when it was last opened as Unreliable and there is such a transport |
| `UpstreamTables.ClientUpstreams.OpenUpstream` | wire/client_conn.go:495-517 | the three tables after an open |
| `UpstreamTables.ClientUpstreams.CloseUpstream` | wire/client_conn.go:570-585 | the three tables after a close |
| `UpstreamTables.ClientUpstreams.FindWriter` | wire/client_conn.go:551-558 | a chunk can be sent exactly for an alias that has an ack channel |
| `SegmentSender.DatagramRoundTrip` | internal/segment/sender.go:43-48 | the receiver reads back all header fields and the payload |
| `SegmentSender.BE32IsBigEndian` | internal/segment/sender.go:45 | the sequence number is four bytes, the most significant first |
| `SegmentSender.SegmentsJoin` | internal/segment/sender.go:20-33 | the segments joined are the message, an empty last one included, and each fits |
| `SegmentSender.DatagramSize` | internal/segment/package.go:7-8 | no datagram exceeds 1196 bytes |
| `SegmentSender.MessageSize` | internal/segment/sender.go:38-40 | a message costs 8 bytes per segment beyond its length |
| `SegmentSender.Send` | internal/segment/sender.go:43-54 | one datagram, its header filled in place |
| `SegmentSender.SendTo` | internal/segment/sender.go:15-41 | all datagrams in order and the total size, or an error with exactly the datagrams before the failure sent, or a refusal with nothing sent |
| `SegmentReassembly.ReturnedAtLastSegment` | internal/segment/read_buffer.go:15-39 | for every interleaving a message is returned exactly at its last missing segment, as sent, if its last index is not 65535 |
| `SegmentReassembly.ReturnedOnce` | internal/segment/read_buffer.go:33-38 | nothing of a message arrives after it was returned |
| `SegmentReassembly.NothingLeftBehindIff` | internal/segment/read_buffer.go:22-38 | once everything has arrived, the buffers left are exactly those of messages with last index 65535 |
| `SegmentReassembly.LongestLeftBehind` | internal/segment/sender.go:20-24 | of the messages that are sent, those left behind are those of 65535 full segments and more |
| `SegmentDuplicates.ReturnedAfterEachRound` | internal/segment/read_buffer.go:59-71 | with segments arriving any number of times, something is returned exactly at the end of each round of as many arrivals as the message has segments, and it is the message exactly when every segment with bytes in it is among that round |
| `SegmentDuplicates.FirstSegmentTwice` | internal/segment/read_buffer.go:64-67 | the first segment of a two-segment message, twice, is returned as the message |
| `SegmentReassembly.SentDatagramIsArrival` | internal/segment/read_buffer.go:19-24 | what the sender emits is what the reassembly results are about |
| `SegmentReassembly.SizeIsBytesHeld` | internal/segment/read_buffer.go:64-66 | as long as no slot is filled twice the size kept is that of the bytes held |
| `SegmentReceiver.ReadBuffer.Add` | internal/segment/read_buffer.go:59-71 | one segment into one buffer |
| `SegmentReceiver.ReadBuffer.Build` | internal/segment/read_buffer.go:73-79 | the loop joins the segments |
| `SegmentReceiver.ReadBuffers.Receive` | internal/segment/read_buffer.go:15-39 | the map of buffer objects changes as the reassembly function says |
| `EcfDecision.FirstExactIff` | transport/multi/ecf_selector.go:239-251 | for all metrics the first inequality is decided as documented exactly when its margin is larger than what wrapping takes off it |
| `EcfDecision.SecondExactIff` | transport/multi/ecf_selector.go:272-278 | and so is the second |
| `EcfDecision.ExactWithoutExtraWraps` | transport/multi/ecf_selector.go:226-304 | for all metrics, the decision is the documented one when the two sides of each inequality wrap equally often |
| `EcfDecision.LostMarginHarmlessIff` | transport/multi/ecf_selector.go:226-304 | when wrapping costs one inequality its margin, the decision is the documented one exactly when the other does not hold |
| `EcfDecision.ExactWhenItFits` | transport/multi/ecf_selector.go:226-278 | in particular whenever none of the four sides exceeds uint64 |
| `EcfDecision.BoundedFits` | transport/multi/ecf_selector.go:239-276 | RTTs and variances below 2^32 microseconds with windows and queue below 2^28 bytes never exceed it |
| `EcfDecision.BoundedIsExact` | transport/multi/doc.go:33-47 | within these bounds the decision is the documented pair of inequalities |
| `EcfDecision.WaitingIsSticky` | transport/multi/ecf_selector.go:246-251 | what is worth waiting for is still worth it while waiting |
| `EcfDecision.IdleWaitsIff` | transport/multi/ecf_selector.go:239-290 | with an empty queue and positive windows it waits iff the available transport is at least two fast round trips plus the variation away; ties without variation go by the waiting flag |
| `EcfSelection.SelectMeans` | transport/multi/ecf_selector.go:147-305 | it sends on a sending-allowed transport with least smoothed RTT, or waits for one with least base RTT when the inequalities say so, or selects nothing when none may send |
| `EcfSelection.SelectsFromFew` | transport/multi/ecf_selector.go:154-174 | without a transport nothing is selected; a single one is, even when it may not send |
| `EcfSelection.WaitRepeats` | transport/multi/ecf_selector.go:284-291 | a wait repeats as long as nothing changes |
| `EcfSelection.OrderDoesNotMatter` | transport/multi/ecf_selector.go:186-207 | without ties the map order does not matter |
| `EcfSelection.GetReturnsEmptyIff` | transport/multi/ecf_selector.go:117-135 | the polling loop of Get returns the empty ID exactly when it was not waiting and its first look finds nothing available, and never returns waiting |
| `EcfSelection.EmptyIffFirstLookFindsNothing` | transport/multi/ecf_selector.go:117-135 | so after any calls one after another, the next one returns the empty ID exactly when its first look finds nothing available |
| `EcfSelection.PollsOnAfterAWait` | transport/multi/ecf_selector.go:128-134 | after a first look that waits, it polls on for as long as nothing is available |
| `EcfSelection.PollsOnInstance` | transport/multi/ecf_selector.go:128-134 | two transports, one ten times as fast, on which this happens |
| `EcfObject.MicrosecondsRange` | transport/multi/ecf_constants.go:36-40 | the microseconds an int64 duration can give |
| `EcfObject.MeasuredReads` | transport/multi/transport_info.go:66-117 | a transport is measured by what its provider reports, in microseconds, and its least round trip; defaults stand in for a missing provider |
| `EcfObject.WrapAroundWaits` | transport/multi/ecf_selector.go:239-290 | metrics measured from two transports on which the selector waits although neither inequality holds |
| `EcfObject.TrackedIsLeastPositive` | transport/multi/transport_info.go:55-59 | the base RTT is the least positive reading |
| `EcfObject.TransportInfo.Update` | transport/multi/transport_info.go:44-60 | sending is allowed while less than the window is in flight, and the base RTT takes in the reading |
| `EcfObject.ECFSelector.UpdateTransport` | transport/multi/ecf_selector.go:90-99 | a new info takes over the base RTT of the one it replaces |
| `EcfObject.ECFSelector.Measure` | transport/multi/ecf_selector.go:180-207 | the scan finds both minima and refills the buffer |
| `EcfObject.ECFSelector.GetMetricsFromBuffer` | transport/multi/ecf_selector.go:392-399 | the search finds the first entry of the transport |
| `EcfObject.ECFSelector.SelectTransportECF` | transport/multi/ecf_selector.go:149-305 | the method selects and remembers what the selection function says |
| `TransportSelection.SelectAvailableTransport` | transport/multi/transport_selector.go:44-69 | the selected transport if connected, else any connected one, else one about to be, else none |
| `ByteBalanced.CountersAreBytesGiven` | transport/multi/byte_balanced_selector.go:77-100 | in every run each counter is the positive sizes of the Gets that returned its ID, modulo 2^64 |
| `ByteBalanced.CountersAddUp` | transport/multi/byte_balanced_selector.go:77-100 | the counters sum to the positive sizes of all Gets that returned an ID, fallback included |
| `ByteBalanced.CountersStayClose` | transport/multi/byte_balanced_selector.go:104-149 | while all listed transports stay connected no two counters differ by more than the largest message |
| `ByteBalanced.ScanFindsFirst` | transport/multi/byte_balanced_selector.go:132-143 | of several with the least counter the scan finds the first listed |
| `ByteBalanced.WithoutMultiTransportAllOnFirst` | transport/multi/byte_balanced_selector.go:113-118 | until a multi transport is set the first counter carries every byte and the others none |
| `ByteBalanced.SpreadUnboundedBeforeSet` | transport/multi/byte_balanced_selector.go:84-89 | so two counters get any distance apart even with messages of one byte |
| `ByteBalanced.ByteBalancedSelector.SelectMin` | transport/multi/byte_balanced_selector.go:104-149 | the scan finds the first least counter |
| `ByteBalanced.ByteBalancedSelector.Get` | transport/multi/byte_balanced_selector.go:77-100 | the answer, and the counter charged is the one of the ID returned |
| `ContextTakeover.TrimAsYouGo` | transport/websocket/transport.go:264-266 | trimming after every message is trimming the whole history |
| `ContextTakeover.WindowSizeIsPower` | transport/compress/compress.go:42-45 | the window size is 2 to the number of bits |
| `ContextTakeover.LastIsEnd` | transport/websocket/transport.go:264-266 | what is kept is the end of the history, all of it when short, and never more than the size |
| `ContextTakeover.MessagesArriveIntact` | transport/websocket/transport.go:240-332 | however writes and reads interleave, messages are read as sent, and both windows are the last bytes of their history |
| `ContextTakeover.WindowUnchangedIff` | transport/websocket/transport.go:264-266 | losing a message leaves a window as it was exactly when the message is empty or continues a full window periodically |
| `ContextTakeover.FailedWriteKeepsWindowsIff` | transport/websocket/transport.go:264-271 | a failed write leaves the two windows equal exactly in that case |
| `ContextTakeover.FirstMessageLost` | transport/websocket/transport.go:264-271 | for instance losing the first message, unless it is empty, leaves the windows different |
| `ContextTakeover.HarmlessFailureIsForgotten` | transport/websocket/transport.go:264-271 | and then every other message still arrives intact |
| `ContextTakeover.NextMessageSafeIff` | transport/websocket/transport.go:302-332 | the next message gets across with every lossless codec exactly in that case |
| `ContextTakeover.Peer.Encode` | transport/websocket/transport.go:240-274 | the writer's window and output |
| `ContextTakeover.Peer.Decode` | transport/websocket/transport.go:302-332 | the reader's window and output, failures included |
| `QuicNegotiation.Marshal` | transport/quic/negotiation.go:25-38 | the loop builds the encoding, lengths cut to 16 bits |
| `QuicNegotiation.EncodingFormat` | transport/quic/negotiation.go:28-36 | each pair is key before value, each behind two bytes of length, the most significant first |
| `QuicNegotiation.Reader.ReadField` | transport/quic/negotiation.go:56-70 | one length and its content, or an error when the input ends inside |
| `QuicNegotiation.Reader.ReadKeyValues` | transport/quic/negotiation.go:51-97 | the loop parses as the parsing function says |
| `QuicNegotiation.EncodingsParse` | transport/quic/negotiation.go:51-97 | every encoding is read back |
| `QuicNegotiation.ParsedIsEncoding` | transport/quic/negotiation.go:51-97 | nothing else is accepted |
| `QuicNegotiation.AcceptsExactlyEncodings` | transport/quic/negotiation.go:51-97 | a byte string is accepted as a map exactly when it encodes that map in some order and the map is encodable |
| `QuicNegotiation.RoundTripIff` | transport/quic/negotiation.go:25-38 | marshalling and reading back gives the map exactly when its keys are non-empty and its strings valid UTF-8 of at most 65535 bytes |

## Left out

- Sockets, dialing, TLS, the WebSocket, QUIC and WebTransport libraries: only success and failure remain, as free choices.
- DEFLATE is an abstract lossless codec, UTF-8 validity an abstract predicate, UUIDs are opaque numbers; protobuf and JSON are not modelled.
- Wall-clock time, tickers, flush policies and timeout durations: a timeout may strike at any moment. Nothing is claimed about liveness.
- Segment expiry: the reassembly results are about segments that arrive before they expire.
- Statistics, logging, event handlers, hooks, option builders and the repositories that save stream states.
- RoundRobin, MinRTT, the polling and event schedulers and the status of a multi transport: one-loop argmin or rotation code.
- The Status value of the reconnecting transport, which may lag behind its state, its pings, and its read loop beyond its calls of reconnect.
- Reads of the downstream close path, metadata and AckComplete messages, and the chunks dropped when dataPointsCh is full: a dropped chunk is never read, so no result is recorded for it. An ack whose send fails is not repeated; the downstream results are about the acks built.
- DownstreamObject.Downstream.WireToDownstreamChunk: nothing happens between its critical sections, which are FindUpstreamInfo and FindDataID; their interleavings with other reads and flushes are those of DownstreamProtocol, and DownstreamTheorems.ReadsAreFaithful covers them.
- DownstreamObject.Downstream.ReadDataPoints: likewise one read without others in between.
- ConnObject.Conn.Send: what others store in the status while it waits, before it calls its function and while that runs is a script; that the connection is still connected when the function is called is not claimed. The steps of a sender that change the status are SendSawClosedSession in ConnLifecycle.
- ReconnectObject.Transport.WriteRequest: only whole reconnects of the read loop and the beginning of a Close come between its attempts, as a script says; all interleavings are those of ReconnectTransport.
- ReconnectObject.Transport.InitialConnect: a transport refused for lack of Closer (`transport/reconnect/transport.go:281-286`) is left open and not counted among those acquired.
- ReconnectTransport.NoTransportLeaks: every inner transport counted is taken to implement Closer; a reconnect does not look, and CloseWithStatus leaves one that does not as it is.
- ReconnectObject.Transport.Reconnect: an error does not mean that the failed transport is still in use; a cancelled call returns one even when it was already replaced.
- UpstreamObject.Upstream.LookAtSent: the number it notes is a history, the source does not keep it; the timeouts of draining are left out.
- UpstreamDelivery.AcceptInv: the number of buffered points stays below 2^63, as a Go slice cannot be longer.
- DownstreamTheorems.AliasesAnnouncedOnce: it and the other alias results hold until a generator has been asked 2^32 times; after that aliases are rebound.
- ResultChannels.DeliverInv: a channel is known by its number in order of creation instead of by its address.
- EcfSelection.SelectMeans: the metrics of one evaluation are read at one moment; Get's polling loop is modelled by the sequence of evaluations it makes, its sleep is not.
- EcfSelection.EmptyIffFirstLookFindsNothing: for Get calls one after another; concurrent calls, which share the waiting flag, are not modelled.
- TransportSelection.SelectAvailableTransport: the status of each transport is read once per call.
- ByteBalanced.CountersStayClose: for Get calls one after another and sizes that add up to less than 2^64 - 1.
- RequestReply.ClientConn.DeliverReply: that a response has the type its request expects is not modelled; a wrong type panics in the caller.
- UpstreamTables.AcksAndWritersAgree: the ack messages delivered through the ack channels are those of ResultChannels; dropping them when a channel is full is not modelled.
