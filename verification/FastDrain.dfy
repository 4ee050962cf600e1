/** The shortcut a draining Close takes when its two counters agree: when it is sure to have drained. */
module FastDrain {
  import opened Prelude
  import opened DataPoints
  import opened UpstreamProtocol
  import opened UpstreamTheorems
  import D = UpstreamDelivery
  import C = ResultChannels

  // ---- results in turn ----

  /** Every number below n has had its result. */
  ghost predicate EarlierAcked(d: D.Delivery, n: U32) { forall m :: 1 <= m < n ==> m in d.acked }

  /** A result that is processed now is for an issued chunk and does not overtake that of an earlier one. */
  ghost predicate InTurn(d: D.Delivery, a: Action) {
    a.OnStore? && a.sa.RemoveSent? ==> a.sa.r.seqNum <= d.sequence && EarlierAcked(d, a.sa.r.seqNum)
  }

  /** Every result of the run is processed in turn. */
  ghost predicate AllInTurn(s: State, run: seq<Action>)
    requires Possible(s, run)
    decreases |run|
  {
    run != [] ==> InTurn(s.store.d, run[0]) && AllInTurn(Step(s, run[0]), run[1..])
  }

  /** No result is missing before one that was processed. */
  ghost predicate NoGaps(d: D.Delivery) {
    && (forall n :: n in d.acked ==> EarlierAcked(d, n))
    && (forall n :: n in d.premature ==> n < 1)
  }

  lemma NoGapsAfter(d: D.Delivery, r: C.ChunkResult)
    requires NoGaps(d) && InTurn(d, OnStore(RemoveSent(r)))
    ensures NoGaps(D.RemoveSent(d, r.seqNum))
  {
    var d' := D.RemoveSent(d, r.seqNum);
    forall k | k in d'.acked ensures EarlierAcked(d', k) {
      if k in d.acked { assert EarlierAcked(d, k); }
    }
  }

  /** One result leaves a gap exactly when it is not in turn. */
  lemma NoGapsAfterIff(d: D.Delivery, r: C.ChunkResult)
    requires NoGaps(d) && 0 <= d.sequence
    ensures NoGaps(D.RemoveSent(d, r.seqNum)) <==> InTurn(d, OnStore(RemoveSent(r)))
  {
    var n, d' := r.seqNum, D.RemoveSent(d, r.seqNum);
    if InTurn(d, OnStore(RemoveSent(r))) {
      NoGapsAfter(d, r);
    } else if n <= d.sequence {
      var m :| 1 <= m < n && m !in d.acked;
      assert n in d'.acked && m !in d'.acked;
    } else {
      assert n in d'.premature;
    }
  }

  lemma InTurnStep(s: State, a: Action)
    requires NoGaps(s.store.d) && Enabled(s, a) && InTurn(s.store.d, a)
    ensures NoGaps(Step(s, a).store.d)
  {
    if a.OnStore? && a.sa.RemoveSent? {
      NoGapsAfter(s.store.d, a.sa.r);
    } else {
      SameResults(s.store.d, Step(s, a).store.d);
    }
  }

  lemma SameResults(d: D.Delivery, d': D.Delivery)
    requires NoGaps(d) && d'.acked == d.acked && d'.premature == d.premature
    ensures NoGaps(d')
  {
    forall n | n in d'.acked ensures EarlierAcked(d', n) { assert EarlierAcked(d, n); }
  }

  lemma {:induction false} RunsInTurnLeaveNoGaps(s: State, run: seq<Action>)
    requires NoGaps(s.store.d) && Possible(s, run) && AllInTurn(s, run)
    ensures NoGaps(After(s, run).store.d)
    decreases |run|
  {
    if run != [] {
      InTurnStep(s, run[0]);
      RunsInTurnLeaveNoGaps(Step(s, run[0]), run[1..]);
    }
  }

  /** The comparison of the shortcut comes next and will end draining. */
  ghost predicate AboutToSkip(e: State) {
    Enabled(e, OnDrain(CompareMax)) && Step(e, OnDrain(CompareMax)).drain == DrainedFast
  }

  /** It does exactly when the maximum read before is the last number issued by now; otherwise draining
      goes on to wait. */
  lemma SkipsIff(e: State)
    requires Enabled(e, OnDrain(CompareMax))
    ensures AboutToSkip(e) <==> e.drain.max == e.store.d.sequence
    ensures !AboutToSkip(e) ==> Step(e, OnDrain(CompareMax)).drain == Looking
  {}

  ghost predicate AllAcked(d: D.Delivery) { forall n :: 1 <= n <= d.sequence ==> n in d.acked }

  lemma MaxIsLast(s: Store, x: Drain)
    requires C.Inv(s.c) && ChannelsMatch(s.d, s.c, s.handling) && DrainGood(s.d, s.c.maxSeq, x)
    requires DrainEnabled(x, CompareMax) && DrainStep(s, x, CompareMax) == DrainedFast
    ensures s.d.sequence == 0 || s.d.sequence in s.d.acked || s.d.sequence in s.d.premature
  {}

  lemma SkipSawTheLast(e: State)
    requires Inv(e) && AboutToSkip(e)
    ensures var d := e.store.d; d.sequence == 0 || d.sequence in d.acked || d.sequence in d.premature
  {
    MaxIsLast(e.store, e.drain);
  }

  /** The shortcut compares two separately read atomics; still, whenever it ends draining, the highest chunk
      issued so far has had its result (or the peer answered before it was issued). */
  lemma FastDrainSawTheLast(s: State, run: seq<Action>)
    requires Opened(s) && Possible(s, run) && AboutToSkip(After(s, run))
    ensures var d := After(s, run).store.d;
      d.sequence == 0 || d.sequence in d.acked || d.sequence in d.premature
  {
    ReachableInv(s, run);
    SkipSawTheLast(After(s, run));
  }

  lemma InTurnSkipsComplete(e: State, more: seq<Action>)
    requires Inv(e) && NoGaps(e.store.d) && Possible(e, more) && AllInTurn(e, more) && AboutToSkip(After(e, more))
    ensures AllAcked(After(e, more).store.d)
  {
    RunsKeepInv(e, more);
    SkipSawTheLast(After(e, more));
    RunsInTurnLeaveNoGaps(e, more);
    LastInTurn(After(e, more).store.d);
  }

  /** Whenever all results are processed in turn, the shortcut leaves nothing unacknowledged. */
  lemma FastDrainCompleteInTurn(s: State, run: seq<Action>)
    requires Opened(s) && Possible(s, run) && AllInTurn(s, run) && AboutToSkip(After(s, run))
    ensures AllAcked(After(s, run).store.d)
  {
    InitialInv(s.store.d.reliable, s.store.t);
    InTurnSkipsComplete(s, run);
  }

  lemma LastInTurn(d: D.Delivery)
    requires NoGaps(d) && (d.sequence == 0 || d.sequence in d.acked || d.sequence in d.premature)
    ensures AllAcked(d)
  {
    if d.sequence in d.acked { assert EarlierAcked(d, d.sequence); }
  }

  // ---- a result out of turn ----

  /** Waiter w of the last chunk holds its result and draining has not begun. */
  ghost predicate LastHeld(e: State, w: nat) {
    && e.drain == NotDraining
    && w < |e.store.c.waiters|
    && e.store.c.waiters[w].seqNum == e.store.d.sequence
    && e.store.c.waiters[w].phase.Holding?
  }

  function Moves(w: nat, step: C.WaiterStep): Action { OnStore(WaiterMoves(w, step)) }

  /** The last waiter records its number, which is then the highest. */
  lemma LastStored(e: State, w: nat)
    requires Inv(e) && LastHeld(e, w)
    ensures Enabled(e, Moves(w, C.Store))
    ensures var e' := Step(e, Moves(w, C.Store));
      && C.WellFormed(e'.store.c) && e'.drain == NotDraining
      && e'.store.d == e.store.d && e'.store.c.maxSeq == e.store.d.sequence
  {
    C.InvWellFormed(e.store.c);
    assert C.WaiterGood(e.store.c, e.store.c.waiters[w]);
    StepOK(e, Moves(w, C.Store));
    LastIsHighest(e, w);
  }

  lemma LastIsHighest(e: State, w: nat)
    requires Inv(e) && LastHeld(e, w) && C.WaiterEnabled(e.store.c, w, C.Store)
    ensures C.WaiterMoves(e.store.c, w, C.Store).maxSeq == e.store.d.sequence
  {}

  /** From any state where the last chunk's waiter holds its result, the shortcut can come next, with
      nothing else happening. */
  lemma LastHeldSkips(e: State, w: nat) returns (more: seq<Action>)
    requires Inv(e) && LastHeld(e, w)
    ensures Possible(e, more) && AboutToSkip(After(e, more)) && After(e, more).store.d == e.store.d
  {
    LastStored(e, w);
    var e1 := Step(e, Moves(w, C.Store));
    var e2 := Step(e1, OnDrain(ReadMax));
    assert Possible(e2, []) && After(e2, []) == e2;
    OneMoreFirst(e1, OnDrain(ReadMax), []);
    OneMoreFirst(e, Moves(w, C.Store), [OnDrain(ReadMax)] + []);
    more := [Moves(w, C.Store)] + ([OnDrain(ReadMax)] + []);
  }

  /** The last chunk is on its way, waiter w waits for its result, and draining has not begun. */
  ghost predicate LastAwaited(e: State, w: nat) {
    && e.drain == NotDraining && e.store.handling == None
    && e.store.d.sequence in e.store.c.table
    && w < |e.store.c.waiters|
    && e.store.c.waiters[w].phase == C.Waiting
    && e.store.c.waiters[w].ch == e.store.c.table[e.store.d.sequence]
  }

  function LastResult(e: State): C.ChunkResult { C.ChunkResult(e.store.d.sequence, 0) }

  lemma LastTaken(e: State, w: nat) returns (e': State)
    requires Inv(e) && LastAwaited(e, w)
    ensures var a0, a1, a2 := OnStore(RemoveSent(LastResult(e))), OnStore(Deliver(false)), Moves(w, C.Take);
      && Enabled(e, a0) && Enabled(Step(e, a0), a1) && Enabled(Step(Step(e, a0), a1), a2)
      && e' == Step(Step(Step(e, a0), a1), a2)
    ensures Inv(e') && LastHeld(e', w) && e'.store.d == D.RemoveSent(e.store.d, e.store.d.sequence)
  {
    var a0, a1, a2 := OnStore(RemoveSent(LastResult(e))), OnStore(Deliver(false)), Moves(w, C.Take);
    C.InvWellFormed(e.store.c);
    StepOK(e, a0);
    var e1 := Step(e, a0);
    StepOK(e1, a1);
    var e2 := Step(e1, a1);
    var _, _, _ := C.ResultReachesWaiter(e.store.c, w, LastResult(e));
    StepOK(e2, a2);
    e' := Step(e2, a2);
  }

  /** If in such a state the last result is the next to be processed and its waiter the next to run,
      draining takes the shortcut and every other unacknowledged chunk is left so. */
  lemma LastOvertakes(e: State, w: nat) returns (more: seq<Action>)
    requires Inv(e) && LastAwaited(e, w)
    ensures Possible(e, more) && AboutToSkip(After(e, more))
    ensures After(e, more).store.d == D.RemoveSent(e.store.d, e.store.d.sequence)
  {
    var a0, a1, a2 := OnStore(RemoveSent(LastResult(e))), OnStore(Deliver(false)), Moves(w, C.Take);
    var e3 := LastTaken(e, w);
    var rest := LastHeldSkips(e3, w);
    OneMoreFirst(Step(Step(e, a0), a1), a2, rest);
    OneMoreFirst(Step(e, a0), a1, [a2] + rest);
    OneMoreFirst(e, a0, [a1] + ([a2] + rest));
    more := [a0] + ([a1] + ([a2] + rest));
  }

  // ---- both together ----

  /** Every way of going on that comes to the shortcut has nothing unacknowledged there; `inTurn` says
      whether results are processed in turn only. */
  ghost predicate AlwaysSkipsComplete(e: State, inTurn: bool) {
    forall more :: Possible(e, more) && (inTurn ==> AllInTurn(e, more)) && AboutToSkip(After(e, more)) ==>
      AllAcked(After(e, more).store.d)
  }

  /** So, after results that came in turn, with the last chunk's result and an earlier one still to come,
      the shortcut is sure to leave nothing unacknowledged exactly when results go on coming in turn. */
  lemma FastDrainCompleteIffInTurn(s: State, run: seq<Action>, w: nat, m: U32, inTurn: bool)
    requires Opened(s) && Possible(s, run) && AllInTurn(s, run) && LastAwaited(After(s, run), w)
    requires 1 <= m < After(s, run).store.d.sequence && m !in After(s, run).store.d.acked
    ensures AlwaysSkipsComplete(After(s, run), inTurn) <==> inTurn
  {
    var e := After(s, run);
    ReachableInv(s, run);
    RunsInTurnLeaveNoGaps(s, run);
    if inTurn {
      forall more | Possible(e, more) && AllInTurn(e, more) && AboutToSkip(After(e, more))
        ensures AllAcked(After(e, more).store.d)
      {
        InTurnSkipsComplete(e, more);
      }
    } else {
      var more := LastOvertakes(e, w);
      assert !AllAcked(After(e, more).store.d);
    }
  }
}
