/**
 The Upstream object itself (iscp/upstream.go): its fields, and its methods cut at the regions
 they run under u.mu. Each method is proved to take exactly the step of UpstreamProtocol it
 implements, so what is proved there of every run holds of these methods. A map iteration order
 is a parameter, as Go leaves it open.
 */
module UpstreamObject {
  import opened Prelude
  import opened DataPoints
  import opened UpstreamProtocol
  import D = UpstreamDelivery
  import C = ResultChannels

  class Upstream {
    const keepPayload: bool
    var sendBuffer: map<DataID, seq<DataPoint>>
    var sendBufferPayloadSize: nat
    var sendBufferDataPointsCount: nat
    var totalDataPoints: U64
    var sequence: U32
    var sentBuf: map<U32, seq<Group>>
    var dataIDAliases: FwdTable
    var revDataIDAliases: RevTable
    var upstreamChunkResultChs: map<U32, int>
    var maxSequenceNumber: U32
    var chans: seq<C.Chan>
    var closeRequested: bool

    // locals of the goroutines: the result being processed, and each sendChunkAndWaitAck
    var handling: Option<C.ChunkResult>
    var waiters: seq<C.Waiter>

    ghost var accepted: seq<Group>
    ghost var issued: seq<seq<Group>>
    ghost var acked: set<U32>
    ghost var premature: set<U32>
    ghost var processed: set<U32>
    ghost var rebound: bool
    ghost var wire: seq<WireChunk>

    ghost function Delivery(): D.Delivery
      reads this
    {
      D.Delivery(keepPayload, sendBuffer, sendBufferPayloadSize, sendBufferDataPointsCount,
                 sequence, totalDataPoints, sentBuf, accepted, issued, acked, premature)
    }

    ghost function Channels(): C.Channels
      reads this
    {
      C.Channels(chans, upstreamChunkResultChs, waiters, maxSequenceNumber, processed, C.NoFault)
    }

    ghost function AliasTables(): Tables
      reads this
    {
      Tables(revDataIDAliases, dataIDAliases)
    }

    ghost function View(): Store
      reads this
    {
      Store(Delivery(), Channels(), AliasTables(), rebound, handling, wire)
    }

    ghost predicate Valid()
      reads this
    {
      StoreInv(View())
    }

    /** OpenUpstream: the server's alias table and its reversal, everything else empty. */
    constructor (keepPayload: bool, aliases: FwdTable, order: seq<U32>)
      requires Enumerates(order, aliases.Keys)
      ensures View() == Initial(keepPayload, Tables(Reversed(aliases, order), aliases)).store
      ensures Valid()
    {
      this.keepPayload := keepPayload;
      sendBuffer, sendBufferPayloadSize, sendBufferDataPointsCount := map[], 0, 0;
      totalDataPoints, sequence, sentBuf := 0, 0, map[];
      dataIDAliases := aliases;
      upstreamChunkResultChs, maxSequenceNumber, chans := map[], 0, [];
      accepted, issued, acked, premature := [], [], {}, {};
      closeRequested := false;
      waiters, processed, rebound, handling, wire := [], {}, false, None, [];
      var rev: RevTable := map[];
      for i := 0 to |order|
        invariant forall a :: a in order[..i] ==> a in aliases
        invariant rev == Reversed(aliases, order[..i])
      {
        assert order[..i + 1][..i] == order[..i];
        assert order[i] in order;
        rev := rev[aliases[order[i]] := order[i]];
      }
      assert order[..|order|] == order;
      revDataIDAliases := rev;
      new;
      ReversedIsInverse(aliases, order);
      InitialInv(keepPayload, Tables(rev, aliases));
    }

    /** flushLoop, the dpgCh case. */
    method Append(dpg: Group)
      modifies this`sendBuffer, this`sendBufferPayloadSize, this`sendBufferDataPointsCount, this`accepted
      ensures Delivery() == D.Accept(old(Delivery()), dpg)
    {
      var had := if dpg.id in sendBuffer then sendBuffer[dpg.id] else [];
      sendBuffer := sendBuffer[dpg.id := had + dpg.points];
      sendBufferPayloadSize := sendBufferPayloadSize + PayloadSize(dpg.points);
      sendBufferDataPointsCount := sendBufferDataPointsCount + |dpg.points|;
      accepted := accepted + [dpg];
    }

    method ValidateState() returns (ok: bool)
      ensures ok <==> D.StateValid(Delivery())
    {
      var newVal := Add64(totalDataPoints, sendBufferDataPointsCount);
      if totalDataPoints > newVal { return false; }
      if sequence == MAX_UINT32 { return false; }
      return true;
    }

    method ToUpstreamChunk(order: seq<DataID>) returns (dpgs: seq<Group>, chunk: WireChunk)
      requires Enumerates(order, sendBuffer.Keys)
      modifies this`sequence
      ensures sequence == Inc32(old(sequence))
      ensures dpgs == D.GroupsOf(sendBuffer, order)
      ensures chunk == ChunkFor(sequence, dpgs, revDataIDAliases)
    {
      dpgs := [];
      for i := 0 to |order|
        invariant dpgs == D.GroupsOf(sendBuffer, order[..i])
      {
        assert order[i] in order;
        dpgs := dpgs + [Group(order[i], sendBuffer[order[i]])];
      }
      assert order[..|order|] == order;
      var groups, ids := ToUpstreamDataPointGroups(dpgs, revDataIDAliases);
      sequence := Inc32(sequence);
      chunk := WireChunk(sequence, groups, ids, revDataIDAliases);
    }

    method StoreSent(seqNum: U32, dpgs: seq<Group>)
      modifies this`sentBuf
      ensures sentBuf == old(sentBuf)[seqNum := D.Stored(keepPayload, dpgs)]
    {
      if keepPayload {
        sentBuf := sentBuf[seqNum := dpgs];
      } else {
        sentBuf := sentBuf[seqNum := WithoutPayload(dpgs)];
      }
    }

    /** Make a channel of capacity 1 and a goroutine that will send the chunk and wait on it. */
    method MakeResultCh(seqNum: U32)
      modifies this`chans, this`upstreamChunkResultChs, this`waiters
      ensures Channels() == C.Register(old(Channels()), seqNum)
    {
      waiters := waiters + [C.Waiter(seqNum, |chans|, C.Sending)];
      upstreamChunkResultChs := upstreamChunkResultChs[seqNum := |chans|];
      chans := chans + [C.Chan(seqNum, [], false, 0)];
    }

    /** flush, once there is something to send and the counters allow it. */
    method IssueChunk(order: seq<DataID>) returns (chunk: WireChunk)
      requires Enumerates(order, sendBuffer.Keys)
      modifies this`sendBuffer, this`sendBufferPayloadSize, this`sendBufferDataPointsCount,
               this`totalDataPoints, this`sequence, this`sentBuf, this`issued
      ensures Delivery() == D.Issue(old(Delivery()), order)
      ensures chunk == ChunkFor(sequence, D.GroupsOf(old(sendBuffer), order), revDataIDAliases)
    {
      totalDataPoints := Add64(totalDataPoints, sendBufferDataPointsCount);
      var dpgs;
      dpgs, chunk := ToUpstreamChunk(order);
      sendBuffer, sendBufferPayloadSize, sendBufferDataPointsCount := map[], 0, 0;
      StoreSent(chunk.seqNum, dpgs);
      issued := issued + [dpgs];
      assert sequence == Inc32(old(sequence)) && dpgs == D.GroupsOf(old(sendBuffer), order);
      assert sentBuf == old(sentBuf)[Inc32(old(sequence)) := D.Stored(keepPayload, dpgs)];
    }

    /** flush: nothing to do, refused (the caller then closes the stream), or one chunk issued. */
    method FlushOnce(order: seq<DataID>) returns (refused: bool)
      requires Enumerates(order, sendBuffer.Keys)
      modifies this`sendBuffer, this`sendBufferPayloadSize, this`sendBufferDataPointsCount,
               this`totalDataPoints, this`sequence, this`sentBuf, this`issued,
               this`chans, this`upstreamChunkResultChs, this`waiters, this`wire
      ensures Delivery() == D.Flush(old(Delivery()), order)
      ensures Channels() == if D.Issues(old(Delivery())) then C.Register(old(Channels()), Inc32(old(sequence)))
                            else old(Channels())
      ensures wire == old(wire) + if D.Issues(old(Delivery()))
                then [ChunkFor(Inc32(old(sequence)), D.GroupsOf(old(sendBuffer), order), revDataIDAliases)] else []
      ensures refused <==> |old(sendBuffer)| != 0 && !D.StateValid(old(Delivery()))
    {
      var valid := ValidateState();
      assert D.Issues(Delivery()) <==> |sendBuffer| != 0 && valid;
      if |sendBuffer| == 0 { return false; }
      if !valid { return true; }
      var chunk := IssueChunk(order);
      MakeResultCh(chunk.seqNum);
      wire := wire + [chunk];
      return false;
    }

    /** processResult, before it takes u.mu. */
    method RemoveFromSent(r: C.ChunkResult)
      modifies this`sentBuf, this`acked, this`premature, this`handling
      ensures Delivery() == D.RemoveSent(old(Delivery()), r.seqNum) && handling == Some(r)
    {
      sentBuf := sentBuf - {r.seqNum};
      if 1 <= r.seqNum <= sequence { acked := acked + {r.seqNum}; } else { premature := premature + {r.seqNum}; }
      handling := Some(r);
    }

    /** `ch <- result`: in Go this panics on a closed channel and blocks on a full one. */
    method SendOn(c: int, r: C.ChunkResult)
      requires 0 <= c < |chans| && !chans[c].closed && |chans[c].buf| < 1
      modifies this`chans
      ensures Channels() == C.Send(old(Channels()), c, r)
    {
      chans := chans[c := chans[c].(buf := chans[c].buf + [r], sends := chans[c].sends + 1)];
    }

    /** `close(v)`: in Go this panics on a closed channel. */
    method CloseCh(c: int)
      requires 0 <= c < |chans| && !chans[c].closed
      modifies this`chans
      ensures Channels() == C.Close(old(Channels()), c)
    {
      chans := chans[c := chans[c].(closed := true)];
    }

    /** processResult, under u.mu. The send is safe because what the table holds is fresh. */
    method DeliverResult(r: C.ChunkResult, cancelled: bool)
      requires C.WellFormed(Channels()) && C.TableFresh(Channels()) && handling == Some(r)
      modifies this`chans, this`upstreamChunkResultChs, this`processed, this`handling
      ensures Channels() == C.Deliver(old(Channels()), r, cancelled) && handling == None
    {
      processed := processed + {r.seqNum};
      handling := None;
      if r.seqNum !in upstreamChunkResultChs { return; }
      if !cancelled {
        SendOn(upstreamChunkResultChs[r.seqNum], r);
      }
      upstreamChunkResultChs := upstreamChunkResultChs - {r.seqNum};
    }

    /** The deferred teardown of readResultLoop. Distinct entries hold distinct open channels. */
    method CloseResultChs(order: seq<U32>)
      requires C.TableFresh(Channels()) && Enumerates(order, upstreamChunkResultChs.Keys)
      modifies this`chans, this`upstreamChunkResultChs
      ensures forall n :: n in order ==>
        n in old(Channels()).table && 0 <= old(Channels()).table[n] < |old(Channels()).chans|
      ensures Channels() == C.Teardown(old(Channels()), order)
    {
      ghost var was := Channels();
      for i := 0 to |order|
        invariant forall n :: n in order[..i] ==> n in was.table && 0 <= was.table[n] < |was.chans|
        invariant Channels() == C.CloseAll(was, order[..i])
      {
        C.NextStillOpen(was, order, i);
        CloseCh(upstreamChunkResultChs[order[i]]);
      }
      assert order[..|order|] == order;
      upstreamChunkResultChs := map[];
    }

    /** processDataIDAliases; `batch` is the acknowledgement's map in one iteration order. */
    method LearnDataIDAliases(batch: seq<(U32, DataID)>)
      modifies this`revDataIDAliases, this`dataIDAliases, this`rebound
      ensures AliasTables() == BindAll(old(AliasTables()), batch)
      ensures rebound == (old(rebound) || RebindsSome(old(AliasTables()), batch))
    {
      ghost var was := AliasTables();
      for i := 0 to |batch|
        invariant rebound == old(rebound)
        invariant AliasTables() == BindAll(was, batch[..i])
      {
        assert batch[..i + 1][..i] == batch[..i];
        var (a, id) := batch[i];
        if id in revDataIDAliases { continue; }
        revDataIDAliases := revDataIDAliases[id := a];
        dataIDAliases := dataIDAliases[a := id];
      }
      assert batch[..|batch|] == batch;
      rebound := rebound || RebindsSome(was, batch);
    }

    /** The waiter's receive and, under receivedAck.L, its load-compare-store of the maximum. */
    method MoveWaiter(w: nat, step: C.WaiterStep)
      requires C.WaiterEnabled(Channels(), w, step)
      modifies this`chans, this`waiters, this`maxSequenceNumber
      ensures Channels() == C.WaiterMoves(old(Channels()), w, step)
    {
      var c, seqNum := waiters[w].ch, waiters[w].seqNum;
      match step
      case Sent =>
        waiters := waiters[w := waiters[w].(phase := C.Waiting)];
      case Leave =>
        waiters := waiters[w := waiters[w].(phase := C.Gone)];
      case Take =>
        if chans[c].buf == [] {
          waiters := waiters[w := waiters[w].(phase := C.Gone)];
        } else {
          var r := chans[c].buf[0];
          chans := chans[c := chans[c].(buf := chans[c].buf[1..])];
          waiters := waiters[w := waiters[w].(phase := C.Holding(r))];
        }
      case Store =>
        if maxSequenceNumber < seqNum { maxSequenceNumber := seqNum; }
        waiters := waiters[w := waiters[w].(phase := C.Gone)];
    }

    // ---- the resend goroutine; x is where it stands ----

    method ListSent() returns (m: map<U32, seq<Group>>)
      ensures m == View().d.sentBuf
    {
      m := sentBuf;
    }

    method StartResend() returns (x: Resend)
      requires keepPayload
      ensures x == ResendStep(View(), NoResend, Start)
    {
      var m := ListSent();
      x := Choosing(m, m.Keys, []);
    }

    /** The next chunk of the snapshot, built with the reverse table as it is now. */
    method BuildResent(x: Resend, n: U32) returns (x': Resend)
      requires ResendEnabled(View(), x, Build(n))
      ensures x' == ResendStep(View(), x, Build(n)) && x'.Built?
      ensures x'.chunk == ChunkFor(n, x.snapshot[n], revDataIDAliases)
    {
      var groups, ids := ToUpstreamDataPointGroups(x.snapshot[n], revDataIDAliases);
      x' := Built(x.snapshot, x.pending, x.done, WireChunk(n, groups, ids, revDataIDAliases));
    }

    method RegisterResent(x: Resend) returns (x': Resend)
      requires x.Built?
      modifies this`chans, this`upstreamChunkResultChs, this`waiters, this`wire
      ensures View() == ResendStore(old(View()), x, Register) && x' == ResendStep(old(View()), x, Register)
      ensures x.chunk.seqNum in upstreamChunkResultChs && wire == old(wire) + [x.chunk]
    {
      MakeResultCh(x.chunk.seqNum);
      wire := wire + [x.chunk];
      x' := InFlight(x.snapshot, x.pending, x.done, x.chunk);
    }

    /** The sending is over; the entry of a chunk that could not be sent is dropped. */
    method EndResent(x: Resend, failed: bool) returns (x': Resend)
      requires x.InFlight?
      modifies this`upstreamChunkResultChs
      ensures View() == ResendStore(old(View()), x, End(failed)) && x' == ResendStep(old(View()), x, End(failed))
      ensures upstreamChunkResultChs == old(upstreamChunkResultChs) - if failed then {x.chunk.seqNum} else {}
    {
      if failed { upstreamChunkResultChs := upstreamChunkResultChs - {x.chunk.seqNum}; }
      x' := Choosing(x.snapshot, x.pending - {x.chunk.seqNum}, x.done + [x.chunk]);
    }

    // ---- closeWithError; x is where its callers stand ----

    /** The compare-and-swap every caller runs. */
    method EnterClose(ghost x: Closing) returns (won: bool, ghost x': Closing)
      requires x.closeRequested == closeRequested
      modifies this`closeRequested
      ensures x' == CloseStep(Delivery(), x, Enter) && closeRequested == x'.closeRequested
      ensures closeRequested && (won <==> !old(closeRequested)) && (won ==> x'.winner == Won)
    {
      won := !closeRequested;
      closeRequested := true;
      x' := CloseStep(Delivery(), x, Enter);
    }

    /** The winner's snapshot. */
    method SnapClose(ghost x: Closing) returns (req: CloseRequest, ghost x': Closing)
      requires Valid() && x.winner == Won
      ensures x' == CloseStep(Delivery(), x, Snap) && x'.winner == Snapped(req)
      ensures req.final == |issued| && req.total == D.ShippedCount(issued)
    {
      req := CloseRequest(totalDataPoints, sequence);
      x' := CloseStep(Delivery(), x, Snap);
    }

    // ---- waitToSendAllDataPointsAndReceiveAllAck; x is where it stands ----

    method LoadMax() returns (x: Drain)
      ensures x == DrainStep(View(), NotDraining, ReadMax) && x == ComparedMax(maxSequenceNumber)
    {
      x := ComparedMax(maxSequenceNumber);
    }

    method CompareWithSequence(max: U32) returns (x: Drain)
      ensures x == DrainStep(View(), ComparedMax(max), CompareMax)
      ensures x == DrainedFast <==> max == sequence
      ensures x != DrainedFast ==> x == Looking
    {
      x := if max == sequence then DrainedFast else Looking;
    }

    /** The first look of a round of the waiting loop. */
    method LookAtSent() returns (x: Drain)
      ensures x == DrainStep(View(), Looking, DrainAction.ListSent)
      ensures x == SawNothingSent(sequence) <==> sentBuf == map[]
      ensures sentBuf != map[] ==> x == Looking
    {
      var m := ListSent();
      x := if m == map[] then SawNothingSent(sequence) else Looking;
    }

    /** The second one, at the send buffer. */
    method LookAtBuffer(x: Drain) returns (x': Drain)
      requires x.SawNothingSent?
      ensures x' == DrainStep(View(), x, CheckBuffer)
      ensures x' == DrainedSlow(x.upTo) <==> sendBuffer == map[]
      ensures sendBuffer != map[] ==> x' == Looking
    {
      assert sendBuffer == map[] <==> |sendBuffer| == 0;
      x' := if |sendBuffer| == 0 then DrainedSlow(x.upTo) else Looking;
    }

    method ClearSentBuf()
      modifies this`sentBuf
      ensures Delivery() == D.ClearSent(old(Delivery())) && sentBuf == map[]
    {
      sentBuf := map[];
    }

    method Flush(order: seq<DataID>)
      requires C.WellFormed(Channels()) && Enumerates(order, sendBuffer.Keys)
      modifies this
      ensures View() == StoreStep(old(View()), StoreAction.Flush(order))
    {
      var _ := FlushOnce(order);
    }

    method ActOnResult(r: C.ChunkResult)
      requires C.WellFormed(Channels()) && handling == None
      modifies this
      ensures View() == StoreStep(old(View()), RemoveSent(r))
    {
      RemoveFromSent(r);
    }

    method ActOnDelivery(dropped: bool)
      requires C.WellFormed(Channels()) && C.TableFresh(Channels()) && handling.Some?
      modifies this
      ensures View() == StoreStep(old(View()), Deliver(dropped))
    {
      DeliverResult(handling.value, dropped);
    }

    method ActOnTeardown(nums: seq<U32>)
      requires C.WellFormed(Channels()) && C.TableFresh(Channels()) && StoreEnabled(View(), Teardown(nums))
      modifies this
      ensures View() == StoreStep(old(View()), Teardown(nums))
    {
      CloseResultChs(nums);
    }

    method ActOnWaiter(w: nat, step: C.WaiterStep)
      requires C.WellFormed(Channels()) && C.WaiterEnabled(Channels(), w, step)
      modifies this
      ensures View() == StoreStep(old(View()), WaiterMoves(w, step))
    {
      MoveWaiter(w, step);
    }

    method ActOnAliases(batch: seq<(U32, DataID)>)
      requires C.WellFormed(Channels())
      modifies this
      ensures View() == StoreStep(old(View()), LearnAliases(batch))
    {
      LearnDataIDAliases(batch);
    }

    /** Every action on the stored state is what some method does, and keeps the object valid. */
    method Perform(a: StoreAction)
      requires Valid() && StoreEnabled(View(), a)
      modifies this
      ensures C.WellFormed(old(Channels())) && Valid() && View() == StoreStep(old(View()), a)
    {
      Prepare(View(), a);
      PerformStep(a);
    }

    method PerformStep(a: StoreAction)
      requires C.WellFormed(Channels()) && C.TableFresh(Channels()) && StoreEnabled(View(), a)
      modifies this
      ensures View() == StoreStep(old(View()), a)
    {
      match a {
      case Accept(g) => Append(g);
      case Flush(order) => Flush(order);
      case RemoveSent(r) => ActOnResult(r);
      case Deliver(dropped) => ActOnDelivery(dropped);
      case Teardown(nums) => ActOnTeardown(nums);
      case WaiterMoves(w, step) => ActOnWaiter(w, step);
      case LearnAliases(batch) => ActOnAliases(batch);
      case ClearSent => ClearSentBuf();
      }
    }
  }

  lemma Prepare(s: Store, a: StoreAction)
    requires StoreInv(s) && StoreEnabled(s, a)
    ensures C.WellFormed(s.c) && C.TableFresh(s.c) && StoreInv(StoreStep(s, a))
  {
    C.InvWellFormed(s.c);
    StoreStepInv(s, a);
  }
}
