/** What a resume of a Reliable upstream sends again: exactly what was unacknowledged when it began. */
module UpstreamResend {
  import opened Prelude
  import opened DataPoints
  import opened UpstreamProtocol
  import opened UpstreamTheorems
  import D = UpstreamDelivery
  import C = ResultChannels

  /** The chunks among these with a number up to `last`. */
  function UpTo(wire: seq<WireChunk>, last: U32): seq<WireChunk> {
    if wire == [] then []
    else
      var w := wire[|wire| - 1];
      UpTo(wire[..|wire| - 1], last) + (if w.seqNum <= last then [w] else [])
  }

  lemma UpToSnoc(wire: seq<WireChunk>, w: WireChunk, last: U32)
    ensures UpTo(wire + [w], last) == UpTo(wire, last) + (if w.seqNum <= last then [w] else [])
  {
    assert (wire + [w])[..|wire|] == wire;
  }

  /** The chunk that has gone out and is not listed in `done` yet. */
  function Going(x: Resend): seq<WireChunk> { if x.InFlight? then [x.chunk] else [] }

  /** The resend goroutine that began in `base` is at work in s: it still has the chunks unacknowledged
      then, and of the numbers issued by then exactly its chunks have gone out since, in its order. */
  ghost predicate Resending(base: Store, s: Store, x: Resend) {
    && !x.NoResend?
    && x.snapshot == base.d.sentBuf
    && base.d.sequence <= s.d.sequence
    && base.wire <= s.wire
    && UpTo(s.wire[|base.wire|..], base.d.sequence) == x.done + Going(x)
    && (x.Built? || x.InFlight? ==> x.chunk.seqNum <= base.d.sequence)
  }

  lemma OneMoreOnWire(base: Store, s: Store, w: WireChunk)
    requires base.wire <= s.wire
    ensures base.wire <= s.wire + [w]
    ensures UpTo((s.wire + [w])[|base.wire|..], base.d.sequence) ==
      UpTo(s.wire[|base.wire|..], base.d.sequence) + (if w.seqNum <= base.d.sequence then [w] else [])
  {
    assert (s.wire + [w])[|base.wire|..] == s.wire[|base.wire|..] + [w];
    UpToSnoc(s.wire[|base.wire|..], w, base.d.sequence);
  }

  lemma StoreKeepsResending(base: Store, s: Store, x: Resend, a: StoreAction)
    requires Resending(base, s, x) && C.WellFormed(s.c) && StoreEnabled(s, a)
    ensures Resending(base, StoreStep(s, a), x)
  {
    if a.Flush? && D.Issues(s.d) {
      OneMoreOnWire(base, s, StoreStep(s, a).wire[|s.wire|]);
    } else {
      assert StoreStep(s, a).wire == s.wire && StoreStep(s, a).d.sequence == s.d.sequence;
    }
  }

  lemma ResendKeepsResending(base: Store, s: Store, x: Resend, a: ResendAction)
    requires Resending(base, s, x) && ResendEnabled(s, x, a) && a != Finish
    requires forall n :: n in base.d.sentBuf ==> n <= base.d.sequence
    ensures Resending(base, ResendStore(s, x, a), ResendStep(s, x, a))
  {
    if a.Register? {
      OneMoreOnWire(base, s, x.chunk);
    } else {
      assert ResendStore(s, x, a).wire == s.wire;
    }
  }

  lemma ResendingStep(base: Store, s: State, a: Action)
    requires Resending(base, s.store, s.resend) && Enabled(s, a) && a != OnResend(Finish)
    requires forall n :: n in base.d.sentBuf ==> n <= base.d.sequence
    ensures Resending(base, Step(s, a).store, Step(s, a).resend)
  {
    match a
    case OnStore(sa) => StoreKeepsResending(base, s.store, s.resend, sa);
    case OnResend(ra) => ResendKeepsResending(base, s.store, s.resend, ra);
    case OnClose(ca) =>
    case OnDrain(da) =>
  }

  ghost predicate NoFinish(run: seq<Action>) { forall i :: 0 <= i < |run| ==> run[i] != OnResend(Finish) }

  lemma {:induction false} RunsKeepResending(base: Store, s: State, run: seq<Action>)
    requires Resending(base, s.store, s.resend) && Possible(s, run) && NoFinish(run)
    requires forall n :: n in base.d.sentBuf ==> n <= base.d.sequence
    ensures Resending(base, After(s, run).store, After(s, run).resend)
    decreases |run|
  {
    if run != [] {
      ResendingStep(base, s, run[0]);
      RunsKeepResending(base, Step(s, run[0]), run[1..]);
    }
  }

  /** Each of these chunks is one of `sent`, with the groups stored there, and each of `sent` is there
      once. */
  ghost predicate ExactlyOnce(chunks: seq<WireChunk>, sent: map<U32, seq<Group>>) {
    && (forall n :: n in sent <==> exists i :: 0 <= i < |chunks| && chunks[i].seqNum == n)
    && (forall i, j :: 0 <= i < j < |chunks| ==> chunks[i].seqNum != chunks[j].seqNum)
    && (forall i :: 0 <= i < |chunks| ==>
          chunks[i].seqNum in sent && chunks[i].groups == Compress(sent[chunks[i].seqNum], chunks[i].rev))
  }

  lemma FinishedResend(d: D.Delivery, t: Tables, x: Resend)
    requires ResendGood(d, t, x) && x.Choosing? && x.pending == {}
    ensures ExactlyOnce(x.done, x.snapshot)
  {
    forall n ensures n in x.snapshot <==> exists i :: 0 <= i < |x.done| && x.done[i].seqNum == n {
      assert n in x.snapshot <==> Resent(x.done, n);
    }
    forall i | 0 <= i < |x.done|
      ensures x.done[i].seqNum in x.snapshot
      ensures x.done[i].groups == Compress(x.snapshot[x.done[i].seqNum], x.done[i].rev)
    {
      assert Resent(x.done, x.done[i].seqNum) && Faithful(d.issued, t, x.done[i]);
    }
  }

  /** A chunk is built for resending with the aliases known at that moment: every group goes by the alias of
      its ID when there is one. */
  lemma BuiltWithCurrentAliases(s: State, n: U32)
    requires Enabled(s, OnResend(Build(n)))
    ensures var x := Step(s, OnResend(Build(n))).resend; var gs := s.resend.snapshot[n];
      && x.Built? && x.chunk.seqNum == n && x.chunk.ids == UnaliasedIDs(gs, s.store.t.rev)
      && |x.chunk.groups| == |gs|
      && (forall i :: 0 <= i < |gs| ==>
            && x.chunk.groups[i].points == gs[i].points
            && (x.chunk.groups[i].ref.ByAlias? <==> gs[i].id in s.store.t.rev))
      && Step(s, OnResend(Build(n))).store == s.store
  {}

  /** Before it goes out, a new channel is registered for its result, and the goroutine waits on that one; when
      it could not be sent, nothing is registered for its number any more. */
  lemma ResentIsAwaited(s: State, failed: bool)
    requires Enabled(s, OnResend(Register))
    ensures var s' := Step(s, OnResend(Register)); var n := s.resend.chunk.seqNum; var w := |s.store.c.waiters|;
      && n in s'.store.c.table && |s'.store.c.waiters| == w + 1
      && s'.store.c.waiters[w] == C.Waiter(n, s'.store.c.table[n], C.Sending)
      && s'.resend.InFlight? && s'.resend.chunk == s.resend.chunk
      && (failed ==> n !in Step(s', OnResend(End(failed))).store.c.table)
      && (!failed ==> Step(s', OnResend(End(failed))).store == s'.store)
  {
    C.RegisterLinks(s.store.c, s.resend.chunk.seqNum);
  }

  /** A resume that is over leaves room for the next one. */
  lemma CanResumeAgain(s: State)
    requires Enabled(s, OnResend(Finish)) && s.store.d.reliable
    ensures var s' := Step(s, OnResend(Finish)); s'.store == s.store && Enabled(s', OnResend(Start))
  {}

  /** Where a resume has begun to resend. */
  lemma Begun(s: State)
    requires Inv(s) && Enabled(s, OnResend(Start))
    ensures var s' := Step(s, OnResend(Start)); Inv(s') && Resending(s.store, s'.store, s'.resend)
    ensures forall n :: n in s.store.d.sentBuf ==> n <= s.store.d.sequence
  {
    StepInv(s, OnResend(Start));
    FirstResending(s.store, s.resend);
  }

  lemma FirstResending(s: Store, x: Resend)
    requires D.Partitioned(s.d) && ResendEnabled(s, x, Start)
    ensures Resending(s, s, ResendStep(s, x, Start))
    ensures forall n :: n in s.d.sentBuf ==> n <= s.d.sequence
  {}

  /** Where it has nothing left to resend. */
  lemma Ended(base: Store, e: State)
    requires Inv(e) && Resending(base, e.store, e.resend) && Enabled(e, OnResend(Finish))
    ensures base.wire <= e.store.wire
    ensures ExactlyOnce(UpTo(e.store.wire[|base.wire|..], base.d.sequence), base.d.sentBuf)
  {
    FinishedResend(e.store.d, e.store.t, e.resend);
    assert e.resend.done + Going(e.resend) == e.resend.done;
  }

  /** A resume begins after `run` and, whatever else happens meanwhile, has nothing left to resend after
      `more`. Then, of the chunks issued before it began, exactly those unacknowledged at that moment have
      been handed to the wire since, each once, with its stored groups. */
  lemma ResendIsExact(s: State, run: seq<Action>, more: seq<Action>)
    requires Opened(s) && Possible(s, run) && Enabled(After(s, run), OnResend(Start))
    requires Possible(Step(After(s, run), OnResend(Start)), more) && NoFinish(more)
    requires Enabled(After(Step(After(s, run), OnResend(Start)), more), OnResend(Finish))
    ensures var base := After(s, run).store; var e := After(Step(After(s, run), OnResend(Start)), more).store;
      && base.wire <= e.wire
      && ExactlyOnce(UpTo(e.wire[|base.wire|..], base.d.sequence), base.d.sentBuf)
  {
    var b := After(s, run);
    ReachableInv(s, run);
    Begun(b);
    RunsKeepInv(Step(b, OnResend(Start)), more);
    RunsKeepResending(b.store, Step(b, OnResend(Start)), more);
    Ended(b.store, After(Step(b, OnResend(Start)), more));
  }
}
