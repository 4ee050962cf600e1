/**
 The reconnecting transport (transport/reconnect/transport.go): one goroutine making the initial
 connection, a read loop and a write loop that both call reconnect, any number of Close calls and
 any number of writers. Inner transports are numbered in the order they are acquired; a write
 request is known by its place in writeReqCh. Dials and inner writes succeed or fail freely.
 */
module ReconnectTransport {
  import opened Prelude

  // ---- who owns an inner transport ----

  datatype Who = WriteLoop | ReadLoop

  /** A call of reconnect(old); from Entered until it returns it holds r.mu. */
  datatype Call = NoCall | Entered(tr: int) | Attempting(tr: int) | ReturnedOk | ReturnedErr

  datatype Initial = Trying | Acquired(tr: int) | InitialDone

  datatype Closer = Cancelled | Closed

  datatype Ownership = Ownership(
    transport: Option<int>,    // r.transport
    cancelled: bool,           // r.ctx is done
    holder: Option<Who>,       // the reconnect call holding r.mu; other regions are single steps
    w: Call, r: Call,
    initial: Initial,
    closers: seq<Closer>,
    acquired: int,             // inner transports 0 .. acquired - 1 were dialed
    closed: set<int>)          // inner transports closed at least once

  datatype OwnAction =
    | InitialDials | InitialAssigns | InitialGivesUp
    | Enter(who: Who, tr: int) | CheckClosed(who: Who) | Redials(who: Who) | FailsCall(who: Who) | Leaves(who: Who)
    | CancelToClose | CloseCurrent(i: nat)

  function CallOf(s: Ownership, who: Who): Call { if who == WriteLoop then s.w else s.r }

  function SetCall(s: Ownership, who: Who, c: Call): Ownership {
    if who == WriteLoop then s.(w := c) else s.(r := c)
  }

  predicate OwnEnabled(s: Ownership, a: OwnAction) {
    match a
    case InitialDials => s.initial == Trying
    case InitialAssigns => s.initial.Acquired? && s.holder == None
    case InitialGivesUp => s.initial == Trying
    case Enter(who, tr) =>
      CallOf(s, who) == NoCall && s.holder == None && s.transport.Some? && 0 <= tr <= s.transport.value
    case CheckClosed(who) => CallOf(s, who).Entered?
    case Redials(who) => CallOf(s, who).Attempting?
    case FailsCall(who) => CallOf(s, who).Attempting?
    case Leaves(who) => CallOf(s, who) == ReturnedOk || CallOf(s, who) == ReturnedErr
    case CancelToClose => true
    case CloseCurrent(i) => i < |s.closers| && s.closers[i] == Cancelled && s.holder == None
  }

  function OwnStep(s: Ownership, a: OwnAction): Ownership
    requires OwnEnabled(s, a)
  {
    match a
    case InitialDials => s.(initial := Acquired(s.acquired), acquired := s.acquired + 1)
    case InitialAssigns =>
      if s.cancelled then s.(closed := s.closed + {s.initial.tr}, initial := InitialDone)
      else s.(transport := Some(s.initial.tr), initial := InitialDone)
    case InitialGivesUp => s.(initial := InitialDone, cancelled := true)
    case Enter(who, tr) => SetCall(s, who, Entered(tr)).(holder := Some(who))
    case CheckClosed(who) =>
      var tr := CallOf(s, who).tr;
      if s.cancelled then SetCall(s, who, ReturnedErr).(holder := None)
      else if Some(tr) != s.transport then SetCall(s, who, ReturnedOk).(holder := None)
      else SetCall(s, who, Attempting(tr)).(closed := s.closed + {tr})
    case Redials(who) =>
      SetCall(s, who, ReturnedOk).(transport := Some(s.acquired), acquired := s.acquired + 1, holder := None)
    case FailsCall(who) => SetCall(s, who, ReturnedErr).(holder := None)
    case Leaves(who) => SetCall(s, who, NoCall)
    case CancelToClose => s.(cancelled := true, closers := s.closers + [Closer.Cancelled])
    case CloseCurrent(i) =>
      s.(closed := if s.transport.Some? then s.closed + {s.transport.value} else s.closed,
         closers := s.closers[i := Closer.Closed])
  }

  predicate InCall(c: Call) { c.Entered? || c.Attempting? }

  /** A reconnect call holds the lock until it returns; past its checks it has closed the current
      transport. */
  ghost predicate LockInv(s: Ownership) {
    && (InCall(s.w) <==> s.holder == Some(WriteLoop))
    && (InCall(s.r) <==> s.holder == Some(ReadLoop))
    && (s.w.Attempting? ==> s.transport == Some(s.w.tr) && s.w.tr in s.closed)
    && (s.r.Attempting? ==> s.transport == Some(s.r.tr) && s.r.tr in s.closed)
  }

  /** Every acquired transport is closed, current, or still in initialConnect's hands. */
  ghost predicate OwnedInv(s: Ownership) {
    && 0 <= s.acquired
    && (s.transport.Some? ==> 0 <= s.transport.value < s.acquired && s.initial == InitialDone)
    && (s.initial.Acquired? ==> 0 <= s.initial.tr < s.acquired)
    && (forall t :: 0 <= t < s.acquired ==>
          t in s.closed || s.transport == Some(t) || s.initial == Acquired(t))
  }

  /** A finished Close leaves a closed transport that no reconnect is about to replace. */
  ghost predicate ClosersInv(s: Ownership) {
    && (s.closers != [] ==> s.cancelled)
    && (forall i :: 0 <= i < |s.closers| && s.closers[i] == Closer.Closed ==>
          && (s.transport.Some? ==> s.transport.value in s.closed)
          && !s.w.Attempting? && !s.r.Attempting?)
  }

  ghost predicate OwnInv(s: Ownership) { LockInv(s) && OwnedInv(s) && ClosersInv(s) }

  /** A transport is only ever replaced by a later one. */
  ghost predicate Newer(s: Ownership, s': Ownership) {
    s.transport.Some? ==> s'.transport.Some? && s'.transport.value >= s.transport.value
  }

  lemma LockStep(s: Ownership, a: OwnAction)
    requires LockInv(s) && OwnedInv(s) && OwnEnabled(s, a)
    ensures LockInv(OwnStep(s, a))
  {}

  lemma OwnedStep(s: Ownership, a: OwnAction)
    requires LockInv(s) && OwnedInv(s) && OwnEnabled(s, a)
    ensures OwnedInv(OwnStep(s, a)) && Newer(s, OwnStep(s, a))
  {}

  lemma ClosersStep(s: Ownership, a: OwnAction)
    requires OwnInv(s) && OwnEnabled(s, a)
    ensures ClosersInv(OwnStep(s, a))
  {}

  lemma OwnStepInv(s: Ownership, a: OwnAction)
    requires OwnInv(s) && OwnEnabled(s, a)
    ensures OwnInv(OwnStep(s, a)) && Newer(s, OwnStep(s, a))
  {
    LockStep(s, a);
    OwnedStep(s, a);
    ClosersStep(s, a);
  }

  // ---- the write loop ----

  /** One inner Write of request k. */
  datatype Attempt = Attempt(k: int, tr: int, ok: bool)

  /** What the request's channel was sent: nil, or an error. */
  datatype Reply = Reply(k: int, ok: bool)

  datatype Pc =
    | Idle
    | Have(k: int)
    | Awaiting(k: int)               // waitForConnection
    | Ready(k: int)                  // about to read r.transport
    | Writing(k: int, tr: int)
    | Calling(k: int, tr: int)       // reconnect(tr) after a failed write on tr
    | Wrote(k: int)
    | Ended

  datatype Writes = Writes(pc: Pc, queued: int, taken: int, attempts: seq<Attempt>, replies: seq<Reply>)

  /** `delivered` is whether the writer is still registered in writeResCh when the loop looks. */
  datatype WriteAction =
    | Enqueue | Take | SeeTransport | Wait(connected: bool, delivered: bool) | Pick
    | Write(ok: bool) | CallReturned(delivered: bool) | Answer(delivered: bool) | Stop

  const QUEUE_CAP := 1024

  predicate WriteEnabled(s: Writes, o: Ownership, a: WriteAction) {
    match a
    case Enqueue => s.queued - s.taken < QUEUE_CAP
    case Take => s.pc == Idle && s.taken < s.queued
    case SeeTransport => s.pc.Have? && o.holder == None
    case Wait(connected, delivered) => s.pc.Awaiting? && o.holder == None
    case Pick => s.pc.Ready? && o.holder == None && o.transport.Some?
    case Write(ok) => s.pc.Writing?
    case CallReturned(delivered) => s.pc.Calling? && (o.w == ReturnedOk || o.w == ReturnedErr)
    case Answer(delivered) => s.pc.Wrote?
    case Stop => s.pc == Idle && o.cancelled
  }

  function Answered(s: Writes, k: int, ok: bool, delivered: bool): Writes {
    if delivered then s.(replies := s.replies + [Reply(k, ok)]) else s
  }

  function WriteStep(s: Writes, o: Ownership, a: WriteAction): Writes
    requires WriteEnabled(s, o, a)
  {
    match a
    case Enqueue => s.(queued := s.queued + 1)
    case Take => s.(pc := Have(s.taken), taken := s.taken + 1)
    case SeeTransport =>
      if o.transport.Some? then s.(pc := Ready(s.pc.k))
      else if o.cancelled then s.(pc := Ended)
      else s.(pc := Awaiting(s.pc.k))
    case Wait(connected, delivered) =>
      if connected && o.transport.Some? then s.(pc := Ready(s.pc.k))
      else Answered(s.(pc := Idle), s.pc.k, false, delivered)
    case Pick => s.(pc := Writing(s.pc.k, o.transport.value))
    case Write(ok) =>
      s.(attempts := s.attempts + [Attempt(s.pc.k, s.pc.tr, ok)],
         pc := if ok then Wrote(s.pc.k) else if o.cancelled then Ended else Calling(s.pc.k, s.pc.tr))
    case CallReturned(delivered) =>
      if o.w == ReturnedOk then s.(pc := Ready(s.pc.k))
      else Answered(s.(pc := Ended), s.pc.k, false, delivered)
    case Answer(delivered) => Answered(s.(pc := Idle), s.pc.k, true, delivered)
    case Stop => s.(pc := Ended)
  }

  predicate Busy(pc: Pc) { !pc.Idle? && !pc.Ended? }

  predicate Succeeded(attempts: seq<Attempt>, k: int) {
    exists i :: 0 <= i < |attempts| && attempts[i].k == k && attempts[i].ok
  }

  /** Queue order, and a repeated attempt only after a failure and on a later transport. */
  ghost predicate Ordered(attempts: seq<Attempt>) {
    forall i, j :: 0 <= i < j < |attempts| ==>
      || attempts[i].k < attempts[j].k
      || (attempts[i].k == attempts[j].k && !attempts[i].ok && attempts[i].tr < attempts[j].tr)
  }

  /** The attempts at k so far failed, on transports before `tr`. */
  ghost predicate FailedBefore(attempts: seq<Attempt>, k: int, tr: int) {
    forall i :: 0 <= i < |attempts| && attempts[i].k == k ==> !attempts[i].ok && attempts[i].tr < tr
  }

  ghost predicate AttemptsInv(s: Writes, o: Ownership) {
    && Ordered(s.attempts)
    && (forall i :: 0 <= i < |s.attempts| ==> s.attempts[i].k < s.taken)
    && (Busy(s.pc) ==> s.pc.k == s.taken - 1)
    && (s.pc.Have? || s.pc.Awaiting? ==> forall i :: 0 <= i < |s.attempts| ==> s.attempts[i].k < s.pc.k)
    && (s.pc.Ready? ==> o.transport.Some? && FailedBefore(s.attempts, s.pc.k, o.transport.value))
    && (s.pc.Writing? ==>
          && o.transport.Some? && 0 <= s.pc.tr <= o.transport.value
          && FailedBefore(s.attempts, s.pc.k, s.pc.tr))
    && (s.pc.Calling? ==>
          && o.transport.Some? && 0 <= s.pc.tr <= o.transport.value
          && FailedBefore(s.attempts, s.pc.k, s.pc.tr + 1)
          && (o.w.Entered? || o.w.Attempting? ==> o.w.tr == s.pc.tr)
          && (o.w == ReturnedOk ==> s.pc.tr < o.transport.value))
    && (!s.pc.Calling? ==> o.w == NoCall)
    && (s.pc.Wrote? ==> Succeeded(s.attempts, s.pc.k))
  }

  ghost predicate RepliesInv(s: Writes) {
    && (forall i :: 0 <= i < |s.replies| ==>
          && s.replies[i].k < s.taken
          && (Busy(s.pc) ==> s.replies[i].k < s.pc.k)
          && (s.replies[i].ok <==> Succeeded(s.attempts, s.replies[i].k)))
    && (forall i, j :: 0 <= i < j < |s.replies| ==> s.replies[i].k < s.replies[j].k)
  }

  lemma AttemptKeepsAttempts(s: Writes, o: Ownership, ok: bool)
    requires AttemptsInv(s, o) && WriteEnabled(s, o, Write(ok))
    ensures AttemptsInv(WriteStep(s, o, Write(ok)), o)
  {
    SucceededGrows(s.attempts, Attempt(s.pc.k, s.pc.tr, ok), s.pc.k);
  }

  lemma WriteKeepsAttempts(s: Writes, o: Ownership, a: WriteAction)
    requires AttemptsInv(s, o) && OwnedInv(o)
    requires WriteEnabled(s, o, a) && !a.CallReturned? && !a.Write?
    ensures AttemptsInv(WriteStep(s, o, a), o)
  {}

  lemma ReturnKeepsAttempts(s: Writes, o: Ownership, delivered: bool)
    requires AttemptsInv(s, o) && WriteEnabled(s, o, CallReturned(delivered))
    ensures AttemptsInv(WriteStep(s, o, CallReturned(delivered)), OwnStep(o, Leaves(WriteLoop)))
  {}

  lemma OwnKeepsAttempts(s: Writes, o: Ownership, a: OwnAction)
    requires AttemptsInv(s, o) && LockInv(o) && OwnedInv(o) && OwnEnabled(o, a)
    requires a != Leaves(WriteLoop)
    requires a.Enter? && a.who == WriteLoop ==> s.pc.Calling? && s.pc.tr == a.tr
    ensures AttemptsInv(s, OwnStep(o, a))
  {
    OwnedStep(o, a);
  }

  lemma SucceededGrows(attempts: seq<Attempt>, x: Attempt, k: int)
    ensures Succeeded(attempts + [x], k) <==> Succeeded(attempts, k) || (x.k == k && x.ok)
  {
    var more := attempts + [x];
    if Succeeded(attempts, k) {
      var i :| 0 <= i < |attempts| && attempts[i].k == k && attempts[i].ok;
      assert more[i].k == k && more[i].ok;
    }
    if x.k == k && x.ok { assert more[|attempts|].k == k; }
  }

  lemma WriteKeepsReplies(s: Writes, o: Ownership, a: WriteAction)
    requires AttemptsInv(s, o) && RepliesInv(s) && WriteEnabled(s, o, a)
    ensures RepliesInv(WriteStep(s, o, a))
  {
    var s' := WriteStep(s, o, a);
    if a.Write? {
      forall i | 0 <= i < |s.replies|
        ensures s'.replies[i].ok <==> Succeeded(s'.attempts, s'.replies[i].k)
      {
        SucceededGrows(s.attempts, Attempt(s.pc.k, s.pc.tr, a.ok), s.replies[i].k);
      }
    }
  }

  // ---- the whole transport ----

  datatype State = State(own: Ownership, writes: Writes)

  function Dialed(): State {
    State(Ownership(None, false, None, NoCall, NoCall, Trying, [], 0, {}), Writes(Idle, 0, 0, [], []))
  }

  datatype Action = OnOwn(oa: OwnAction) | OnWrite(wa: WriteAction)

  /** The write loop enters reconnect with the transport its write failed on. */
  predicate Enabled(s: State, a: Action) {
    match a
    case OnOwn(oa) =>
      && OwnEnabled(s.own, oa)
      && oa != Leaves(WriteLoop)
      && (oa.Enter? && oa.who == WriteLoop ==> s.writes.pc.Calling? && s.writes.pc.tr == oa.tr)
    case OnWrite(wa) => WriteEnabled(s.writes, s.own, wa)
  }

  function Step(s: State, a: Action): State
    requires Enabled(s, a)
  {
    match a
    case OnOwn(oa) => s.(own := OwnStep(s.own, oa))
    case OnWrite(wa) =>
      State(if wa.CallReturned? then OwnStep(s.own, Leaves(WriteLoop)) else s.own,
            WriteStep(s.writes, s.own, wa))
  }

  ghost predicate Inv(s: State) {
    OwnInv(s.own) && AttemptsInv(s.writes, s.own) && RepliesInv(s.writes)
  }

  lemma StepInv(s: State, a: Action)
    requires Inv(s) && Enabled(s, a)
    ensures Inv(Step(s, a))
  {
    match a
    case OnOwn(oa) =>
      OwnStepInv(s.own, oa);
      OwnKeepsAttempts(s.writes, s.own, oa);
    case OnWrite(wa) =>
      WriteKeepsReplies(s.writes, s.own, wa);
      if wa.CallReturned? {
        OwnStepInv(s.own, Leaves(WriteLoop));
        ReturnKeepsAttempts(s.writes, s.own, wa.delivered);
      } else if wa.Write? {
        AttemptKeepsAttempts(s.writes, s.own, wa.ok);
      } else {
        WriteKeepsAttempts(s.writes, s.own, wa);
      }
  }

  predicate Possible(s: State, run: seq<Action>)
    decreases |run|
  {
    run != [] ==> Enabled(s, run[0]) && Possible(Step(s, run[0]), run[1..])
  }

  function After(s: State, run: seq<Action>): State
    requires Possible(s, run)
    decreases |run|
  {
    if run == [] then s else After(Step(s, run[0]), run[1..])
  }

  lemma {:induction false} RunsKeepInv(s: State, run: seq<Action>)
    requires Inv(s) && Possible(s, run)
    ensures Inv(After(s, run))
    decreases |run|
  {
    if run != [] {
      StepInv(s, run[0]);
      RunsKeepInv(Step(s, run[0]), run[1..]);
    }
  }

  /** Over every run and across all inner transports, successful writes happen in queue order and
      at most once per request; a request is answered at most once; it is answered nil exactly when
      its one write succeeded; and a failed write is repeated only on a later transport. */
  lemma WritesAreFifoAndOnce(run: seq<Action>)
    requires Possible(Dialed(), run)
    ensures var s := After(Dialed(), run).writes;
      && (forall i, j :: 0 <= i < j < |s.attempts| && s.attempts[i].ok && s.attempts[j].ok ==>
            s.attempts[i].k < s.attempts[j].k)
      && (forall i, j :: 0 <= i < j < |s.attempts| && s.attempts[i].k == s.attempts[j].k ==>
            !s.attempts[i].ok && s.attempts[i].tr < s.attempts[j].tr)
      && (forall i, j :: 0 <= i < j < |s.replies| ==> s.replies[i].k < s.replies[j].k)
      && (forall i :: 0 <= i < |s.replies| ==>
            (s.replies[i].ok <==>
              exists m :: 0 <= m < |s.attempts| && s.attempts[m].k == s.replies[i].k && s.attempts[m].ok))
  {
    RunsKeepInv(Dialed(), run);
    var s := After(Dialed(), run).writes;
    forall i | 0 <= i < |s.replies|
      ensures s.replies[i].ok <==>
        exists m :: 0 <= m < |s.attempts| && s.attempts[m].k == s.replies[i].k && s.attempts[m].ok
    {
      assert s.replies[i].ok <==> Succeeded(s.attempts, s.replies[i].k);
    }
  }

  /** Once a Close has finished, and initialConnect and every reconnect are over, every inner
      transport ever acquired has been closed. */
  lemma NoTransportLeaks(run: seq<Action>, i: nat)
    requires Possible(Dialed(), run)
    requires var o := After(Dialed(), run).own;
      && i < |o.closers| && o.closers[i] == Closer.Closed
      && o.initial == InitialDone && !InCall(o.w) && !InCall(o.r)
    ensures var o := After(Dialed(), run).own;
      forall t :: 0 <= t < o.acquired ==> t in o.closed
  {
    RunsKeepInv(Dialed(), run);
  }

  /** The transport in use while some Close has finished is a closed one, whatever is in flight. */
  lemma ClosedStaysClosed(run: seq<Action>, i: nat)
    requires Possible(Dialed(), run)
    requires var o := After(Dialed(), run).own; i < |o.closers| && o.closers[i] == Closer.Closed
    ensures var o := After(Dialed(), run).own; o.transport.Some? ==> o.transport.value in o.closed
  {
    RunsKeepInv(Dialed(), run);
  }

  /** A Close goes through as soon as no reconnect holds the lock: nothing is dialed any more by a call that
      comes later, and the transport in use is closed. */
  lemma CloseGoesThrough(s: Ownership)
    requires s.holder == None
    ensures OwnEnabled(s, CancelToClose)
    ensures var s1 := OwnStep(s, CancelToClose); var i := |s.closers|;
      OwnEnabled(s1, CloseCurrent(i)) &&
      var s2 := OwnStep(s1, CloseCurrent(i));
      s2.cancelled && s2.closers == s.closers + [Closer.Closed] && s2.transport == s.transport
      && (s.transport.Some? ==> s.transport.value in s2.closed)
  {}

  // ---- every request is answered ----

  /** Whoever asked is still registered whenever the loop answers. */
  ghost predicate AllDelivered(run: seq<Action>) {
    forall i :: 0 <= i < |run| && run[i].OnWrite? ==> Delivers(run[i].wa)
  }

  predicate Delivers(a: WriteAction) {
    match a
    case Wait(_, delivered) => delivered
    case CallReturned(delivered) => delivered
    case Answer(delivered) => delivered
    case _ => true
  }

  /** Every request taken has been answered, in order, but the one in hand. */
  ghost predicate AnsweredInv(s: Writes, cancelled: bool) {
    && (forall i :: 0 <= i < |s.replies| ==> s.replies[i].k == i)
    && (s.pc.Idle? ==> |s.replies| == s.taken)
    && (Busy(s.pc) ==> |s.replies| == s.taken - 1)
    && (s.pc.Ended? ==> |s.replies| == s.taken || (cancelled && |s.replies| == s.taken - 1))
  }

  lemma AnsweredStep(s: Writes, o: Ownership, a: WriteAction)
    requires AnsweredInv(s, o.cancelled) && AttemptsInv(s, o) && WriteEnabled(s, o, a) && Delivers(a)
    ensures AnsweredInv(WriteStep(s, o, a), o.cancelled)
  {}

  lemma {:induction false} RunsAnswer(s: State, run: seq<Action>)
    requires Inv(s) && AnsweredInv(s.writes, s.own.cancelled) && Possible(s, run) && AllDelivered(run)
    ensures AnsweredInv(After(s, run).writes, After(s, run).own.cancelled)
    decreases |run|
  {
    if run != [] {
      StepInv(s, run[0]);
      if run[0].OnWrite? {
        assert Delivers(run[0].wa);
        AnsweredStep(s.writes, s.own, run[0].wa);
      }
      RunsAnswer(Step(s, run[0]), run[1..]);
    }
  }

  /** Over every run in which the writers wait for their answers, requests are answered in queue order and
      none is passed over: all that were taken, but the one in hand, or the one a Close found in hand. */
  lemma EveryRequestAnswered(run: seq<Action>)
    requires Possible(Dialed(), run) && AllDelivered(run)
    ensures var e := After(Dialed(), run); var s := e.writes;
      && (forall i :: 0 <= i < |s.replies| ==> s.replies[i].k == i)
      && (s.pc.Idle? ==> |s.replies| == s.taken)
      && (Busy(s.pc) ==> |s.replies| == s.taken - 1)
      && (s.pc.Ended? && !e.own.cancelled ==> |s.replies| == s.taken)
  {
    RunsAnswer(Dialed(), run);
  }

  // ---- how a request goes on ----

  lemma OneMoreFirst(s: State, a: Action, rest: seq<Action>)
    requires Enabled(s, a) && Possible(Step(s, a), rest)
    ensures Possible(s, [a] + rest) && After(s, [a] + rest) == After(Step(s, a), rest)
  {
    assert ([a] + rest)[1..] == rest;
  }

  lemma Two(s: State, a: Action, b: Action)
    requires Enabled(s, a) && Enabled(Step(s, a), b)
    ensures Possible(s, [a, b]) && After(s, [a, b]) == Step(Step(s, a), b)
  {
    var s2 := Step(Step(s, a), b);
    assert Possible(s2, []) && After(s2, []) == s2;
    OneMoreFirst(Step(s, a), b, []);
    OneMoreFirst(s, a, [b] + []);
    assert [a] + ([b] + []) == [a, b];
  }

  lemma Three(s: State, a: Action, b: Action, c: Action)
    requires Enabled(s, a) && Enabled(Step(s, a), b) && Enabled(Step(Step(s, a), b), c)
    ensures Possible(s, [a, b, c]) && After(s, [a, b, c]) == Step(Step(Step(s, a), b), c)
  {
    Two(Step(s, a), b, c);
    OneMoreFirst(s, a, [b, c]);
    assert [a] + [b, c] == [a, b, c];
  }

  /** The queue takes a request unless 1024 are waiting in it. */
  lemma QueueTakes(s: Writes, o: Ownership)
    ensures WriteEnabled(s, o, Enqueue) <==> s.queued - s.taken < 1024
    ensures WriteEnabled(s, o, Enqueue) ==> WriteStep(s, o, Enqueue) == s.(queued := s.queued + 1)
  {}

  /** A queued request is taken and, with a transport in use, is about to be written. */
  lemma QueuedIsTaken(s: State)
    requires s.writes.pc == Idle && s.writes.taken < s.writes.queued
    requires s.own.holder == None && s.own.transport.Some?
    ensures var run := [OnWrite(Take), OnWrite(SeeTransport)];
      && Possible(s, run)
      && After(s, run) == s.(writes := s.writes.(pc := Ready(s.writes.taken), taken := s.writes.taken + 1))
  {
    Two(s, OnWrite(Take), OnWrite(SeeTransport));
  }

  /** A write that succeeds is answered nil and the loop is ready for the next request. */
  lemma SuccessIsAnswered(s: State)
    requires s.writes.pc.Ready? && s.own.holder == None && s.own.transport.Some?
    ensures var run := [OnWrite(Pick), OnWrite(Write(true)), OnWrite(Answer(true))];
      var k, tr := s.writes.pc.k, s.own.transport.value;
      && Possible(s, run)
      && After(s, run) == s.(writes := s.writes.(pc := Idle,
           attempts := s.writes.attempts + [Attempt(k, tr, true)], replies := s.writes.replies + [Reply(k, true)]))
  {
    Three(s, OnWrite(Pick), OnWrite(Write(true)), OnWrite(Answer(true)));
  }

  /** A write that fails while nothing is closed leads to a reconnect for the same request. */
  lemma FailureCallsReconnect(s: State)
    requires Inv(s) && s.writes.pc.Ready? && s.own.holder == None && s.own.transport.Some? && !s.own.cancelled
    ensures var k, tr := s.writes.pc.k, s.own.transport.value;
      var run := [OnWrite(Pick), OnWrite(Write(false)), OnOwn(Enter(WriteLoop, tr))];
      && Possible(s, run)
      && After(s, run).writes ==
           s.writes.(pc := Calling(k, tr), attempts := s.writes.attempts + [Attempt(k, tr, false)])
      && After(s, run).own == s.own.(w := Entered(tr), holder := Some(WriteLoop))
  {
    var tr := s.own.transport.value;
    Three(s, OnWrite(Pick), OnWrite(Write(false)), OnOwn(Enter(WriteLoop, tr)));
  }

  /** A reconnect that dials gives the same request its next attempt, on the new transport. */
  lemma ReconnectGoesOn(s: State)
    requires s.writes.pc.Calling? && s.own.w == Entered(s.writes.pc.tr) && !s.own.cancelled
    requires s.own.transport == Some(s.writes.pc.tr)
    ensures var run := [OnOwn(CheckClosed(WriteLoop)), OnOwn(Redials(WriteLoop)), OnWrite(CallReturned(true))];
      && Possible(s, run)
      && After(s, run).writes == s.writes.(pc := Ready(s.writes.pc.k))
      && After(s, run).own.transport == Some(s.own.acquired) && After(s, run).own.holder == None
      && s.writes.pc.tr in After(s, run).own.closed
  {
    Three(s, OnOwn(CheckClosed(WriteLoop)), OnOwn(Redials(WriteLoop)), OnWrite(CallReturned(true)));
  }

  /** So does one that finds the transport already replaced; one that finds everything closed, or runs out of
      attempts, ends the loop with an error for the request. */
  lemma ReconnectEnds(s: State)
    requires s.writes.pc.Calling? && s.own.w == Entered(s.writes.pc.tr)
    ensures var k := s.writes.pc.k; var check, back := OnOwn(CheckClosed(WriteLoop)), OnWrite(CallReturned(true));
      Enabled(s, check) &&
      if s.own.cancelled then
        Possible(s, [check, back]) &&
        After(s, [check, back]).writes == s.writes.(pc := Ended, replies := s.writes.replies + [Reply(k, false)])
      else if s.own.transport != Some(s.writes.pc.tr) then
        Possible(s, [check, back]) && After(s, [check, back]).writes == s.writes.(pc := Ready(k))
      else
        var fail := OnOwn(FailsCall(WriteLoop));
        Possible(s, [check, fail, back]) &&
        After(s, [check, fail, back]).writes == s.writes.(pc := Ended, replies := s.writes.replies + [Reply(k, false)])
  {
    var check, back := OnOwn(CheckClosed(WriteLoop)), OnWrite(CallReturned(true));
    if s.own.cancelled || s.own.transport != Some(s.writes.pc.tr) {
      Two(s, check, back);
    } else {
      Three(s, check, OnOwn(FailsCall(WriteLoop)), back);
    }
  }

  /** Once cancelled an idle loop ends; with a request in hand and no transport it ends when cancelled, and
      otherwise waits for the initial connection. */
  lemma LoopWithoutTransport(s: Writes, o: Ownership)
    ensures s.pc.Idle? && o.cancelled ==>
      WriteEnabled(s, o, Stop) && WriteStep(s, o, Stop) == s.(pc := Ended)
    ensures s.pc.Have? && o.holder == None && o.transport.None? ==>
      WriteEnabled(s, o, SeeTransport) &&
      WriteStep(s, o, SeeTransport) == s.(pc := if o.cancelled then Ended else Awaiting(s.pc.k))
  {}

  /** A request taken before there is a transport waits; once connected it goes on, and otherwise it is
      answered with an error. */
  lemma WaitingEnds(s: Writes, o: Ownership, connected: bool)
    requires s.pc.Awaiting? && o.holder == None
    ensures WriteEnabled(s, o, Wait(connected, true))
    ensures WriteStep(s, o, Wait(connected, true)) ==
      if connected && o.transport.Some? then s.(pc := Ready(s.pc.k))
      else s.(pc := Idle, replies := s.replies + [Reply(s.pc.k, false)])
  {}
}
