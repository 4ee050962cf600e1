/** What every run of an upstream guarantees, and where its draining Close falls short. */
module UpstreamTheorems {
  import opened Prelude
  import opened DataPoints
  import opened UpstreamProtocol
  import D = UpstreamDelivery
  import C = ResultChannels

  /** `run` is a possible run from s. (The invariant implies the well-formedness Enabled asks for.) */
  ghost predicate Possible(s: State, run: seq<Action>)
    decreases |run|
  {
    run != [] ==> Enabled(s, run[0]) && Possible(Step(s, run[0]), run[1..])
  }

  ghost function After(s: State, run: seq<Action>): State
    requires Possible(s, run)
    decreases |run|
  {
    if run == [] then s else After(Step(s, run[0]), run[1..])
  }

  /** An upstream as OpenUpstream leaves it: its two alias tables come from one server map. */
  ghost predicate Opened(s: State) {
    Inverse(s.store.t.rev, s.store.t.fwd) && s == Initial(s.store.d.reliable, s.store.t)
  }

  lemma {:induction false} RunsKeepInv(s: State, run: seq<Action>)
    requires Inv(s) && Possible(s, run)
    ensures Inv(After(s, run)) && Extends(s.store, After(s, run).store)
    decreases |run|
  {
    if run != [] {
      StepInv(s, run[0]);
      RunsKeepInv(Step(s, run[0]), run[1..]);
    }
  }

  lemma ReachableInv(s: State, run: seq<Action>)
    requires Opened(s) && Possible(s, run)
    ensures Inv(After(s, run))
  {
    InitialInv(s.store.d.reliable, s.store.t);
    RunsKeepInv(s, run);
  }

  // ---- delivery ----

  /** In every reachable state of a Reliable upstream, per data ID, the issued chunks followed by
      the send buffer are the accepted history, and every issued chunk is either held for resending
      with its payload or acknowledged. */
  lemma NothingLostOrReordered(s: State, run: seq<Action>)
    requires Opened(s) && s.store.d.reliable && Possible(s, run)
    ensures var d := After(s, run).store.d;
      && (forall id :: D.Shipped(d.issued, id) + D.Buffered(d.sendBuffer, id) == PointsOf(d.accepted, id))
      && (forall n :: 1 <= n <= |d.issued| ==>
            && (n in d.sentBuf <==> n !in d.acked)
            && (n in d.sentBuf ==> d.sentBuf[n] == d.issued[n - 1]))
      && (forall n :: n in d.sentBuf || n in d.acked ==> 1 <= n <= |d.issued|)
  {
    ReachableInv(s, run);
    RunsKeepReliable(s, run);
  }

  lemma RunsKeepReliable(s: State, run: seq<Action>)
    requires Opened(s) && Possible(s, run)
    ensures After(s, run).store.d.reliable == s.store.d.reliable
  {
    InitialInv(s.store.d.reliable, s.store.t);
    RunsKeepInv(s, run);
  }

  // ---- held until answered ----

  predicate AnswersOrClears(a: Action, n: U32) {
    a.OnStore? && (a.sa.ClearSent? || (a.sa.RemoveSent? && a.sa.r.seqNum == n))
  }

  ghost predicate NoAnswer(run: seq<Action>, n: U32) {
    forall i :: 0 <= i < |run| ==> !AnswersOrClears(run[i], n)
  }

  lemma HeldStoreStep(s: Store, a: StoreAction, n: U32)
    requires n in s.d.sentBuf && n <= s.d.sequence && C.WellFormed(s.c) && StoreEnabled(s, a)
    requires !AnswersOrClears(OnStore(a), n)
    ensures var d' := StoreStep(s, a).d; n in d'.sentBuf && d'.sentBuf[n] == s.d.sentBuf[n]
  {}

  lemma HeldStep(s: State, a: Action, n: U32)
    requires n in s.store.d.sentBuf && n <= s.store.d.sequence && Enabled(s, a) && !AnswersOrClears(a, n)
    ensures var d' := Step(s, a).store.d; n in d'.sentBuf && d'.sentBuf[n] == s.store.d.sentBuf[n]
  {
    if a.OnStore? { HeldStoreStep(s.store, a.sa, n); } else { assert Step(s, a).store.d == s.store.d; }
  }

  lemma HeldIsIssued(s: State, n: U32)
    requires Inv(s) && n in s.store.d.sentBuf
    ensures n <= s.store.d.sequence
  {}

  /** An unacknowledged chunk is held, unchanged, until a result with its number is processed or the stream
      drops everything; no result of another chunk, flush or resume takes it away. */
  lemma {:induction false} HeldUntilAnswered(s: State, more: seq<Action>, n: U32)
    requires Inv(s) && n in s.store.d.sentBuf && Possible(s, more) && NoAnswer(more, n)
    ensures var d' := After(s, more).store.d; n in d'.sentBuf && d'.sentBuf[n] == s.store.d.sentBuf[n]
    decreases |more|
  {
    if more != [] {
      assert !AnswersOrClears(more[0], n);
      HeldIsIssued(s, n);
      HeldStep(s, more[0], n);
      StepInv(s, more[0]);
      HeldUntilAnswered(Step(s, more[0]), more[1..], n);
    }
  }

  /** What is held was issued after number k. */
  ghost predicate OnlyLater(d: D.Delivery, k: U32) {
    k <= d.sequence && forall n :: n in d.sentBuf ==> k < n
  }

  lemma OnlyLaterStep(s: State, a: Action, k: U32)
    requires OnlyLater(s.store.d, k) && Enabled(s, a)
    ensures OnlyLater(Step(s, a).store.d, k)
  {}

  lemma {:induction false} StaysOnlyLater(s: State, more: seq<Action>, k: U32)
    requires OnlyLater(s.store.d, k) && Possible(s, more)
    ensures OnlyLater(After(s, more).store.d, k)
    decreases |more|
  {
    if more != [] {
      OnlyLaterStep(s, more[0], k);
      StaysOnlyLater(Step(s, more[0]), more[1..], k);
    }
  }

  /** When a stream that is not Reliable resumes, no chunk issued before is held then or ever again. */
  lemma ForgottenForGood(s: State, more: seq<Action>)
    requires Enabled(s, OnStore(ClearSent)) && Possible(Step(s, OnStore(ClearSent)), more)
    ensures forall n :: n in After(Step(s, OnStore(ClearSent)), more).store.d.sentBuf ==> s.store.d.sequence < n
  {
    StaysOnlyLater(Step(s, OnStore(ClearSent)), more, s.store.d.sequence);
  }

  /** Over any run every held chunk is the issued one on a Reliable stream, and on any other the issued one
      without payload. */
  lemma HeldChunks(s: State, run: seq<Action>, n: U32)
    requires Opened(s) && Possible(s, run) && n in After(s, run).store.d.sentBuf
    ensures var d := After(s, run).store.d;
      1 <= n <= |d.issued| && D.HeldAs(s.store.d.reliable, d.issued[n - 1], d.sentBuf[n])
  {
    ReachableInv(s, run);
    RunsKeepReliable(s, run);
    var d := After(s, run).store.d;
    D.StoredMeans(d.reliable, d.issued[n - 1]);
  }

  // ---- result channels ----

  /** No run sends on a closed channel, blocks a send under u.mu, or closes a channel twice; what
      can be looked up is open and empty; no channel ever carries two results. */
  lemma ChannelsNeverFault(s: State, run: seq<Action>)
    requires Opened(s) && Possible(s, run)
    ensures var c := After(s, run).store.c;
      && c.fault == C.NoFault
      && (forall n :: n in c.table ==>
            && 0 <= c.table[n] < |c.chans|
            && c.chans[c.table[n]].buf == []
            && !c.chans[c.table[n]].closed
            && c.chans[c.table[n]].seqNum == n)
      && (forall i :: 0 <= i < |c.chans| ==> c.chans[i].sends <= 1)
  {
    ReachableInv(s, run);
    var c := After(s, run).store.c;
    forall i | 0 <= i < |c.chans| ensures c.chans[i].sends <= 1 { assert C.ChanGood(c, c.chans[i]); }
  }

  // ---- the wire ----

  ghost predicate Decodes(issued: seq<seq<Group>>, t: Tables, rebound: bool, w: WireChunk) {
    && 1 <= w.seqNum <= |issued|
    && (!rebound ==> Resolve(w.groups, t.fwd) == Some(issued[w.seqNum - 1]))
  }

  lemma ReachableWire(s: State, run: seq<Action>)
    requires Opened(s) && Possible(s, run)
    ensures var e := After(s, run).store; WireGood(e.d.issued, e.t, e.rebound, e.wire)
  {
    ReachableInv(s, run);
  }

  /** Every chunk ever sent, first time or resent, carries an issued number and, as long as the
      server never gave one alias to two IDs, still decodes through the current table to exactly
      the groups issued under that number. */
  lemma WireIsFaithful(s: State, run: seq<Action>, k: nat)
    requires Opened(s) && Possible(s, run) && k < |After(s, run).store.wire|
    ensures var e := After(s, run).store;
      Decodes(e.d.issued, e.t, e.rebound, e.wire[k])
  {
    ReachableWire(s, run);
    var e := After(s, run).store;
    FaithfulDecodes(e.d.issued, e.t, e.rebound, e.wire, k);
  }

  lemma FaithfulDecodes(issued: seq<seq<Group>>, t: Tables, rebound: bool, wire: seq<WireChunk>, k: nat)
    requires WireGood(issued, t, rebound, wire) && k < |wire|
    ensures Decodes(issued, t, rebound, wire[k])
  {
    var w := wire[k];
    assert Faithful(issued, t, w);
    if !rebound {
      CompressResolves(issued[w.seqNum - 1], w.rev, t.fwd);
    }
  }

  /** Nothing that happens after a chunk was acknowledged revives it: no resume, late result or flush
      brings it back among the unacknowledged ones, and its number keeps standing for its groups. */
  lemma AckedIsNeverRevived(s: State, run: seq<Action>, more: seq<Action>, n: U32)
    requires Opened(s) && Possible(s, run) && Possible(After(s, run), more)
    requires n in After(s, run).store.d.acked
    ensures var d, d' := After(s, run).store.d, After(After(s, run), more).store.d;
      && n in d'.acked && n !in d'.sentBuf
      && 1 <= n <= |d.issued| <= |d'.issued| && d'.issued[n - 1] == d.issued[n - 1]
  {
    ReachableInv(s, run);
    RunsKeepInv(After(s, run), more);
    var d, d' := After(s, run).store.d, After(After(s, run), more).store.d;
    assert d'.issued[..|d.issued|] == d.issued;
  }

  ghost predicate OnlyResends(run: seq<Action>) { forall i :: 0 <= i < |run| ==> run[i].OnResend? }

  /** However long the resend goroutine goes on by itself, no number is issued and no chunk changes
      sides. */
  lemma {:induction false} ResendingTouchesNoDelivery(s: State, more: seq<Action>)
    requires Possible(s, more) && OnlyResends(more)
    ensures After(s, more).store.d == s.store.d
    decreases |more|
  {
    if more != [] {
      assert more[0].OnResend?;
      ResendingTouchesNoDelivery(Step(s, more[0]), more[1..]);
    }
  }

  // ---- counters and closing ----

  /** Over any run at most one CloseRequest is sent, with the exact total over the chunks up to
      the final number it names; numbers and totals never wrapped. */
  lemma OneExactCloseRequest(s: State, run: seq<Action>)
    requires Opened(s) && Possible(s, run)
    ensures var e := After(s, run);
      && e.store.d.sequence == |e.store.d.issued|
      && e.store.d.total == D.ShippedCount(e.store.d.issued)
      && e.store.d.pointCount == D.PointsIn(e.store.d.sendBuffer)
      && |e.closing.requests| <= 1
      && forall k :: 0 <= k < |e.closing.requests| ==>
           var req := e.closing.requests[k];
           0 <= req.final <= |e.store.d.issued| && req.total == D.ShippedCount(e.store.d.issued[..req.final])
  {
    ReachableInv(s, run);
    var e := After(s, run);
    forall k | 0 <= k < |e.closing.requests| ensures ExactRequest(e.store.d.issued, e.closing.requests[k]) {}
  }

  /** The counters a CloseRequest made now would name. */
  ghost function Totals(d: D.Delivery): CloseRequest { CloseRequest(D.ShippedCount(d.issued), |d.issued|) }

  /** The winner has taken this snapshot and sends at most it. */
  ghost predicate Names(x: Closing, req: CloseRequest) {
    && x.closeRequested
    && (x.winner == Snapped(req) || x.winner == Finished)
    && (forall k :: 0 <= k < |x.requests| ==> x.requests[k] == req)
  }

  lemma {:induction false} StaysNamed(s: State, more: seq<Action>, req: CloseRequest)
    requires Names(s.closing, req) && Possible(s, more)
    ensures Names(After(s, more).closing, req)
    decreases |more|
  {
    if more != [] { StaysNamed(Step(s, more[0]), more[1..], req); }
  }

  lemma SnapNames(s: State)
    requires Inv(s) && Enabled(s, OnClose(Snap))
    ensures var x' := Step(s, OnClose(Snap)).closing;
      x'.winner == Snapped(Totals(s.store.d)) && x'.requests == [] && Names(x', Totals(s.store.d))
  {}

  /** The CloseRequest names everything issued up to the moment the counters were read: their number and
      all their points, whatever is issued afterwards. */
  lemma CloseRequestNamesAllIssued(s: State, run: seq<Action>, more: seq<Action>)
    requires Opened(s) && Possible(s, run) && Enabled(After(s, run), OnClose(Snap))
    requires Possible(Step(After(s, run), OnClose(Snap)), more)
    ensures var d := After(s, run).store.d; var x := After(Step(After(s, run), OnClose(Snap)), more).closing;
      forall k :: 0 <= k < |x.requests| ==> x.requests[k] == CloseRequest(D.ShippedCount(d.issued), |d.issued|)
  {
    ReachableInv(s, run);
    SnapNames(After(s, run));
    StaysNamed(Step(After(s, run), OnClose(Snap)), more, Totals(After(s, run).store.d));
  }

  /** The first caller wins; every later one finds the request made and changes nothing. */
  lemma OnlyFirstCallerWins(s: State)
    ensures var s' := Step(s, OnClose(Enter));
      && s'.closing.closeRequested
      && (s.closing.closeRequested ==> s' == s)
      && (!s.closing.closeRequested ==> s' == s.(closing := s'.closing) && s'.closing.winner == Won)
      && Step(s', OnClose(Enter)) == s'
  {}

  /** A caller that wins gets its request out and ends the stream. */
  lemma ClosingGoesThrough(e: State) returns (more: seq<Action>)
    requires Inv(e) && !e.closing.closeRequested
    ensures Possible(e, more)
    ensures After(e, more) == e.(closing := Closing(true, Finished, [Totals(e.store.d)], true))
  {
    more := FourSteps(e, OnClose(Enter), OnClose(Snap), OnClose(SendRequest), OnClose(CloseAction.Leave));
  }

  // ---- draining ----

  /** maxSequenceNumberInReceivedUpstreamChunkResults never decreases, and is 0 or the number of a
      result that was processed. */
  lemma MaxIsMonotone(s: State, run: seq<Action>, more: seq<Action>)
    requires Opened(s) && Possible(s, run) && Possible(After(s, run), more)
    ensures After(s, run).store.c.maxSeq <= After(After(s, run), more).store.c.maxSeq
    ensures var c := After(s, run).store.c; c.maxSeq == 0 || c.maxSeq in c.processed
  {
    ReachableInv(s, run);
    RunsKeepInv(After(s, run), more);
  }

  /** The waiting path reads sentBuf and the send buffer at two moments. When it returns, what is
      unacknowledged was all issued between the two. */
  lemma SlowDrain(s: State, run: seq<Action>)
    requires Opened(s) && s.store.d.reliable && Possible(s, run)
    requires Enabled(After(s, run), OnDrain(CheckBuffer))
    requires Step(After(s, run), OnDrain(CheckBuffer)).drain.DrainedSlow?
    ensures var e := After(s, run); var d := e.store.d;
      && e.drain.upTo <= d.sequence
      && (forall n :: 1 <= n <= e.drain.upTo ==> n in d.acked)
      && (forall n :: n in d.sentBuf ==> e.drain.upTo < n <= d.sequence)
      && (forall id :: D.Shipped(d.issued, id) == PointsOf(d.accepted, id))
  {
    ReachableInv(s, run);
    RunsKeepReliable(s, run);
    var d := After(s, run).store.d;
    forall id ensures D.Shipped(d.issued, id) == PointsOf(d.accepted, id) {
      assert D.Shipped(d.issued, id) + D.Buffered(d.sendBuffer, id) == PointsOf(d.accepted, id);
    }
  }

  // ---- draining with and without writers ----

  ghost predicate NoAccept(run: seq<Action>) {
    forall i :: 0 <= i < |run| ==> !(run[i].OnStore? && run[i].sa.Accept?)
  }

  /** The send buffer is empty, and once draining has seen sentBuf empty it stays so. */
  ghost predicate Quiet(s: State) {
    && s.store.d.sendBuffer == map[]
    && (s.drain.SawNothingSent? || s.drain.DrainedSlow? ==> s.store.d.sentBuf == map[])
  }

  lemma QuietStep(s: State, a: Action)
    requires Quiet(s) && Enabled(s, a) && !(a.OnStore? && a.sa.Accept?)
    ensures Quiet(Step(s, a))
  {}

  lemma {:induction false} StaysQuiet(s: State, run: seq<Action>)
    requires Quiet(s) && Possible(s, run) && NoAccept(run)
    ensures Quiet(After(s, run))
    decreases |run|
  {
    if run != [] {
      assert !(run[0].OnStore? && run[0].sa.Accept?);
      QuietStep(s, run[0]);
      StaysQuiet(Step(s, run[0]), run[1..]);
    }
  }

  /** Draining has not yet seen sentBuf empty. */
  predicate BeforeLooking(x: Drain) { x.NotDraining? || x.ComparedMax? || x.Looking? }

  /** When the buffer is flushed and no writer puts points in any more, the waiting path ends only with
      every issued chunk acknowledged, whatever else happens meanwhile. */
  lemma SlowDrainCompleteWithoutWriters(s: State, run: seq<Action>, more: seq<Action>)
    requires Opened(s) && s.store.d.reliable && Possible(s, run)
    requires After(s, run).store.d.sendBuffer == map[] && BeforeLooking(After(s, run).drain)
    requires Possible(After(s, run), more) && NoAccept(more)
    requires After(After(s, run), more).drain.DrainedSlow?
    ensures var d := After(After(s, run), more).store.d;
      && d.sentBuf == map[]
      && (forall n :: 1 <= n <= d.sequence ==> n in d.acked)
      && (forall id :: D.Shipped(d.issued, id) == PointsOf(d.accepted, id))
  {
    var e := After(s, run);
    ReachableInv(s, run);
    RunsKeepReliable(s, run);
    StaysQuiet(e, more);
    RunsKeepInv(e, more);
    var d := After(e, more).store.d;
    forall id ensures D.Shipped(d.issued, id) == PointsOf(d.accepted, id) {
      assert D.Shipped(d.issued, id) + D.Buffered(d.sendBuffer, id) == PointsOf(d.accepted, id);
    }
  }

  /** A write of g can still be accepted and issued. */
  ghost predicate RoomFor(d: D.Delivery, g: Group) {
    d.pointCount + |g.points| < 0x8000_0000_0000_0000 && D.StateValid(D.Accept(d, g))
  }

  /** A state from which draining would next find nothing unacknowledged. */
  ghost predicate AboutToEnd(e: State) { e.drain == Looking && e.store.d.sentBuf == map[] }

  /** But one write after draining has looked at sentBuf is enough: flushed before draining looks at the
      send buffer, its chunk is left unacknowledged. */
  lemma LateWriteIsMissed(e: State, g: Group) returns (more: seq<Action>)
    requires Inv(e) && AboutToEnd(e) && RoomFor(e.store.d, g)
    ensures Possible(e, more)
    ensures var e' := After(e, more); var n := e.store.d.sequence + 1;
      e'.drain.DrainedSlow? && n in e'.store.d.sentBuf && n !in e'.store.d.acked
  {
    var a0, a1 := OnDrain(ListSent), OnStore(StoreAction.Accept(g));
    var e2 := LateWritten(e, g);
    var order := D.SomeOrder(e2.store.d.sendBuffer.Keys);
    var a2, a3 := OnStore(StoreAction.Flush(order)), OnDrain(CheckBuffer);
    LateChunkIssued(e.store.d, g, order);
    LateFlushed(e2, order);
    more := FourSteps(e, a0, a1, a2, a3);
  }

  lemma LateWritten(e: State, g: Group) returns (e2: State)
    requires Inv(e) && AboutToEnd(e) && RoomFor(e.store.d, g)
    ensures var a0, a1 := OnDrain(ListSent), OnStore(StoreAction.Accept(g));
      Enabled(e, a0) && Enabled(Step(e, a0), a1) && e2 == Step(Step(e, a0), a1)
    ensures Inv(e2) && C.WellFormed(e2.store.c)
    ensures e2.store.d == D.Accept(e.store.d, g) && e2.drain == SawNothingSent(e.store.d.sequence)
  {
    StepOK(e, OnDrain(ListSent));
    var e1 := Step(e, OnDrain(ListSent));
    StepOK(e1, OnStore(StoreAction.Accept(g)));
    e2 := Step(e1, OnStore(StoreAction.Accept(g)));
  }

  lemma LateFlushed(e: State, order: seq<DataID>)
    requires Inv(e) && C.WellFormed(e.store.c) && e.drain.SawNothingSent?
    requires Enumerates(order, e.store.d.sendBuffer.Keys)
    requires var d' := D.Flush(e.store.d, order); d'.sendBuffer == map[] && d'.sequence in d'.sentBuf
    ensures var a2, a3 := OnStore(StoreAction.Flush(order)), OnDrain(CheckBuffer);
      Enabled(e, a2) && Enabled(Step(e, a2), a3)
    ensures var e' := Step(Step(e, OnStore(StoreAction.Flush(order))), OnDrain(CheckBuffer));
      e'.drain.DrainedSlow? && e'.store.d == D.Flush(e.store.d, order) && e'.store.d.sequence !in e'.store.d.acked
  {
    var a2 := OnStore(StoreAction.Flush(order));
    StepOK(e, a2);
    Unacked(Step(e, a2), Step(e, a2).store.d.sequence);
  }

  lemma StepOK(s: State, a: Action)
    requires Inv(s) && Enabled(s, a)
    ensures Inv(Step(s, a)) && C.WellFormed(Step(s, a).store.c)
  {
    StepInv(s, a);
    C.InvWellFormed(Step(s, a).store.c);
  }

  lemma Unacked(s: State, n: U32)
    requires Inv(s) && n in s.store.d.sentBuf
    ensures n !in s.store.d.acked
  {}

  lemma LateChunkIssued(d: D.Delivery, g: Group, order: seq<DataID>)
    requires RoomFor(d, g) && Enumerates(order, D.Accept(d, g).sendBuffer.Keys)
    requires 0 <= d.sequence
    ensures var d' := D.Flush(D.Accept(d, g), order);
      d'.sendBuffer == map[] && d'.sequence == d.sequence + 1 && d'.sequence in d'.sentBuf
  {
    assert g.id in D.Accept(d, g).sendBuffer;
    assert |D.Accept(d, g).sendBuffer| != 0;
  }

  lemma FourSteps(e: State, a0: Action, a1: Action, a2: Action, a3: Action) returns (more: seq<Action>)
    requires Enabled(e, a0) && Enabled(Step(e, a0), a1) && Enabled(Step(Step(e, a0), a1), a2)
    requires Enabled(Step(Step(Step(e, a0), a1), a2), a3)
    ensures Possible(e, more) && After(e, more) == Step(Step(Step(Step(e, a0), a1), a2), a3)
  {
    var e1, e2, e3, e4 := Step(e, a0), Step(Step(e, a0), a1), Step(Step(Step(e, a0), a1), a2),
      Step(Step(Step(Step(e, a0), a1), a2), a3);
    assert Possible(e4, []) && After(e4, []) == e4;
    OneMoreFirst(e3, a3, []);
    OneMoreFirst(e2, a2, [a3] + []);
    OneMoreFirst(e1, a1, [a2] + ([a3] + []));
    OneMoreFirst(e, a0, [a1] + ([a2] + ([a3] + [])));
    more := [a0] + ([a1] + ([a2] + ([a3] + [])));
  }

  lemma OneMoreFirst(e: State, a: Action, rest: seq<Action>)
    requires Enabled(e, a) && Possible(Step(e, a), rest)
    ensures Possible(e, [a] + rest) && After(e, [a] + rest) == After(Step(e, a), rest)
  {
    assert ([a] + rest)[1..] == rest;
  }

  /** Every way of going on that ends the waiting path ends it with nothing unacknowledged; `writers`
      says whether further points may be accepted. */
  ghost predicate AlwaysDrains(e: State, writers: bool) {
    forall more :: Possible(e, more) && (writers || NoAccept(more)) && After(e, more).drain.DrainedSlow? ==>
      After(e, more).store.d.sentBuf == map[]
  }

  /** So a flushed upstream that is about to end its draining is sure to have drained exactly when no
      writer is left, which its user can see to before calling Close. */
  lemma SlowDrainCompleteIffNoWriters(s: State, run: seq<Action>, writers: bool, g: Group)
    requires Opened(s) && s.store.d.reliable && Possible(s, run)
    requires AboutToEnd(After(s, run)) && After(s, run).store.d.sendBuffer == map[]
    requires RoomFor(After(s, run).store.d, g)
    ensures AlwaysDrains(After(s, run), writers) <==> !writers
  {
    var e := After(s, run);
    ReachableInv(s, run);
    if writers {
      var more := LateWriteIsMissed(e, g);
      assert After(e, more).store.d.sentBuf != map[];
    } else {
      forall more | Possible(e, more) && NoAccept(more) && After(e, more).drain.DrainedSlow?
        ensures After(e, more).store.d.sentBuf == map[]
      {
        SlowDrainCompleteWithoutWriters(s, run, more);
      }
    }
  }
}
