/** Concrete runs on which the draining Close of an upstream reports success too early. */
module DrainCounterexamples {
  import opened Prelude
  import opened DataPoints
  import opened UpstreamProtocol
  import opened UpstreamTheorems
  import opened FastDrain
  import D = UpstreamDelivery
  import C = ResultChannels

  const ID := DataID("id", "type")
  const POINT := DataPoint(0, [])

  const WRITE := OnStore(Accept(Group(ID, [POINT])))
  const FLUSH := OnStore(Flush([ID]))

  /** What the run below looks at. `written` says whether one unflushed write is in the buffer. */
  ghost predicate At(s: State, sequence: nat, written: bool, unacked: set<U32>, drain: Drain) {
    && s.store.d.reliable
    && 0 <= s.store.d.sequence == s.store.d.total == sequence < 10
    && s.store.d.sendBuffer == (if written then map[ID := [POINT]] else map[])
    && s.store.d.pointCount == (if written then 1 else 0)
    && s.store.d.sentBuf.Keys == unacked
    && s.store.c.maxSeq == 0
    && C.WellFormed(s.store.c)
    && s.store.handling == None
    && s.drain == drain
  }

  ghost predicate Goes(s: State, a: Action, s': State) { Enabled(s, a) && s' == Step(s, a) }

  /** `states` are the states a run passes through. */
  ghost predicate Passes(states: seq<State>, run: seq<Action>) {
    |states| == |run| + 1 && forall i :: 0 <= i < |run| ==> Goes(states[i], run[i], states[i + 1])
  }

  ghost predicate Reaches(s: State, e: State) {
    exists states, run :: Passes(states, run) && states[0] == s && states[|run|] == e
  }

  lemma Starts(s: State)
    ensures Reaches(s, s)
  {
    assert Passes([s], []);
  }

  lemma ThenStep(s: State, e: State, a: Action)
    requires Reaches(s, e) && Enabled(e, a)
    ensures Reaches(s, Step(e, a))
  {
    var states, run :| Passes(states, run) && states[0] == s && states[|run|] == e;
    PassesOn(states, run, a, Step(e, a));
  }

  lemma PassesOn(states: seq<State>, run: seq<Action>, a: Action, e: State)
    requires Passes(states, run) && Goes(states[|run|], a, e)
    ensures Passes(states + [e], run + [a])
    ensures (states + [e])[0] == states[0] && (states + [e])[|run + [a]|] == e
  {
    var more, acts := states + [e], run + [a];
    forall i | 0 <= i < |acts| ensures Goes(more[i], acts[i], more[i + 1]) {
      if i < |run| { assert Goes(states[i], run[i], states[i + 1]); }
    }
  }

  lemma {:induction false} RunFrom(states: seq<State>, run: seq<Action>, k: nat)
    requires Passes(states, run) && k <= |run|
    ensures Possible(states[k], run[k..]) && After(states[k], run[k..]) == states[|run|]
    decreases |run| - k
  {
    if k < |run| {
      RunFrom(states, run, k + 1);
      assert Goes(states[k], run[k], states[k + 1]);
      OneMoreFirst(states[k], run[k], run[k + 1..]);
      assert run[k..] == [run[k]] + run[k + 1..];
    }
  }

  /** What is reached is reached by a run. */
  lemma RunReaching(s: State, e: State) returns (run: seq<Action>)
    requires Reaches(s, e)
    ensures Possible(s, run) && After(s, run) == e
  {
    var states, acts :| Passes(states, acts) && states[0] == s && states[|acts|] == e;
    run := acts;
    RunFrom(states, run, 0);
    assert run[0..] == run;
  }

  lemma {:induction false} ThenRun(s: State, e: State, more: seq<Action>)
    requires Reaches(s, e) && Possible(e, more)
    ensures Reaches(s, After(e, more))
    decreases |more|
  {
    if more != [] {
      ThenStep(s, e, more[0]);
      ThenRun(s, Step(e, more[0]), more[1..]);
    }
  }

  lemma Writes(s: State, e: State, n: nat, unacked: set<U32>, drain: Drain)
    requires Reaches(s, e) && At(e, n, false, unacked, drain)
    ensures Enabled(e, WRITE) && Reaches(s, Step(e, WRITE)) && At(Step(e, WRITE), n, true, unacked, drain)
    ensures Step(e, WRITE).store.c == e.store.c
  {
    assert [] + [POINT] == [POINT];
    ThenStep(s, e, WRITE);
  }

  lemma RegisterWellFormed(c: C.Channels, n: U32)
    requires C.WellFormed(c)
    ensures C.WellFormed(C.Register(c, n))
  {
    var c' := C.Register(c, n);
    forall w | w in c'.waiters ensures 0 <= w.ch < |c'.chans| {
      if w !in c.waiters { assert w == c'.waiters[|c.waiters|]; }
    }
  }

  lemma OneWrite()
    ensures (map[ID := [POINT]]).Keys == {ID} && |map[ID := [POINT]]| == 1
    ensures Enumerates([ID], {ID})
  {
    assert (map[ID := [POINT]]).Keys == {ID};
  }

  lemma FlushesDelivery(d: D.Delivery)
    requires d.sendBuffer == map[ID := [POINT]] && d.pointCount == 1 && 0 <= d.sequence == d.total < 9
    ensures Enumerates([ID], d.sendBuffer.Keys) && D.Issues(d)
    ensures var d' := D.Flush(d, [ID]);
      && d'.sendBuffer == map[] && d'.pointCount == 0 && d'.reliable == d.reliable
      && d'.sequence == d'.total == d.sequence + 1
      && d'.sentBuf.Keys == d.sentBuf.Keys + {d.sequence + 1}
  {
    OneWrite();
  }

  lemma Flushes(s: State, e: State, n: nat, unacked: set<U32>, drain: Drain)
    requires Reaches(s, e) && At(e, n, true, unacked, drain) && n < 9
    ensures Enabled(e, FLUSH) && Reaches(s, Step(e, FLUSH))
    ensures At(Step(e, FLUSH), n + 1, false, unacked + {n + 1}, drain)
    ensures Step(e, FLUSH).store.c == C.Register(e.store.c, n + 1)
  {
    FlushesDelivery(e.store.d);
    RegisterWellFormed(e.store.c, n + 1);
    ThenStep(s, e, FLUSH);
  }

  /** The result of chunk n arrives; its waiter, which would raise maxSeq, does not get to run. */
  lemma Answers(s: State, e: State, n: nat, unacked: set<U32>, drain: Drain) returns (e': State)
    requires Reaches(s, e) && At(e, n, false, unacked, drain) && 1 <= n
    ensures Reaches(s, e') && At(e', n, false, unacked - {n}, drain)
  {
    var result := OnStore(RemoveSent(C.ChunkResult(n, 0)));
    ThenStep(s, e, result);
    var mid := Step(e, result);
    ThenStep(s, mid, OnStore(Deliver(false)));
    e' := Step(mid, OnStore(Deliver(false)));
  }

  lemma Drains(s: State, e: State, n: nat, written: bool, unacked: set<U32>, drain: Drain, a: DrainAction)
    requires Reaches(s, e) && At(e, n, written, unacked, drain) && DrainEnabled(drain, a)
    ensures Enabled(e, OnDrain(a)) && Reaches(s, Step(e, OnDrain(a)))
    ensures At(Step(e, OnDrain(a)), n, written, unacked, DrainStep(e.store, drain, a))
  {
    ThenStep(s, e, OnDrain(a));
  }

  /** Chunk 1 has been answered and draining has begun to wait; then a write accepted late is
      flushed between the two looks of the waiting path, and draining ends although chunk 2 is
      unacknowledged. */
  lemma SlowDrainMissesALateChunk() returns (s: State, run: seq<Action>, e: State)
    ensures Opened(s) && s.store.d.reliable && Possible(s, run) && e == After(s, run)
    ensures e.drain.DrainedSlow? && e.store.d.sequence == 2 && 2 in e.store.d.sentBuf
  {
    s := Initial(true, Tables(map[], map[]));
    Starts(s);
    var e3 := FirstChunkAnswered(s);
    Drains(s, e3, 1, false, {}, NotDraining, ReadMax);
    var e4 := Step(e3, OnDrain(ReadMax));
    Drains(s, e4, 1, false, {}, ComparedMax(0), CompareMax);
    var e5 := Step(e4, OnDrain(CompareMax));
    e := LateChunk(s, e5);
    run := RunReaching(s, e);
  }

  lemma FirstChunkAnswered(s: State) returns (e: State)
    requires Reaches(s, s) && s == Initial(true, Tables(map[], map[]))
    ensures Reaches(s, e) && At(e, 1, false, {}, NotDraining)
  {
    Writes(s, s, 0, {}, NotDraining);
    Flushes(s, Step(s, WRITE), 0, {}, NotDraining);
    e := Answers(s, Step(Step(s, WRITE), FLUSH), 1, {1}, NotDraining);
  }

  lemma LateChunk(s: State, e: State) returns (e': State)
    requires Reaches(s, e) && At(e, 1, false, {}, Looking)
    ensures Reaches(s, e') && At(e', 2, false, {2}, DrainedSlow(1))
  {
    Writes(s, e, 1, {}, Looking);
    var e1 := Step(e, WRITE);
    Drains(s, e1, 1, true, {}, Looking, ListSent);
    var e2 := Step(e1, OnDrain(ListSent));
    assert e1.store.d.sentBuf == map[];
    Flushes(s, e2, 1, {}, SawNothingSent(1));
    var e3 := Step(e2, FLUSH);
    Drains(s, e3, 2, false, {2}, SawNothingSent(1), CheckBuffer);
    e' := Step(e3, OnDrain(CheckBuffer));
  }

  // ---- the shortcut, with results out of turn ----

  lemma TwoChunks(s: State) returns (e: State)
    requires Reaches(s, s) && s == Initial(true, Tables(map[], map[]))
    ensures Reaches(s, e) && At(e, 2, false, {1, 2}, NotDraining)
    ensures e.store.c == C.Register(C.Register(C.Initial(), 1), 2)
  {
    Writes(s, s, 0, {}, NotDraining);
    Flushes(s, Step(s, WRITE), 0, {}, NotDraining);
    var e2 := Step(Step(s, WRITE), FLUSH);
    Writes(s, e2, 1, {1}, NotDraining);
    Flushes(s, Step(e2, WRITE), 1, {1}, NotDraining);
    e := Step(Step(e2, WRITE), FLUSH);
  }

  /** The second chunk is written to the wire; its goroutine waits for the result. */
  lemma SecondSent(s: State, e: State) returns (e': State)
    requires Opened(s) && Reaches(s, e) && At(e, 2, false, {1, 2}, NotDraining)
    requires e.store.c == C.Register(C.Register(C.Initial(), 1), 2)
    ensures Reaches(s, e') && LastAwaited(e', 1) && e'.store.d == e.store.d
  {
    var a := OnStore(WaiterMoves(1, C.Sent));
    ThenStep(s, e, a);
    e' := Step(e, a);
  }

  lemma SecondOvertakes(s: State, e: State) returns (e': State)
    requires Opened(s) && Reaches(s, e) && LastAwaited(e, 1)
    ensures Reaches(s, e') && AboutToSkip(e') && e'.store.d == D.RemoveSent(e.store.d, e.store.d.sequence)
  {
    var run := RunReaching(s, e);
    ReachableInv(s, run);
    var more := LastOvertakes(e, 1);
    ThenRun(s, e, more);
    e' := After(e, more);
  }

  /** Chunk 2 is answered before chunk 1: draining takes the shortcut although chunk 1 is unacknowledged. */
  lemma FastDrainMissesAnEarlierChunk() returns (s: State, run: seq<Action>, e: State)
    ensures Opened(s) && s.store.d.reliable && Possible(s, run) && e == After(s, run)
    ensures AboutToSkip(e)
    ensures e.store.d.sequence == 2 && 1 in e.store.d.sentBuf
  {
    s := Initial(true, Tables(map[], map[]));
    Starts(s);
    var e1 := TwoChunks(s);
    var e2 := SecondSent(s, e1);
    e := SecondOvertakes(s, e2);
    run := RunReaching(s, e);
  }
}
