/**
 Reconnecting, closing and sending on one Conn (iscp/conn.go). Wire sessions are numbered in the
 order they are dialed. One reconnect loop, any number of Close calls and any number of senders
 interleave; a step is one operation under the status lock, one acquisition or release of
 wireConnMu, or one dial or session close.
 */
module ConnLifecycle {
  import opened ConnStatus

  datatype Holder = Free | ByReconnect | ByCloser(i: nat)

  /** Where the reconnect loop stands (iscp/conn.go:669-735). */
  datatype Loop =
    | Running                   // inside run()
    | Locked1                   // holds wireConnMu, nothing done yet
    | Marked                    // holds wireConnMu, status is (or was set to) Reconnecting
    | Fetched(prev: int)        // lock released, old session still to be closed
    | Dialing                   // in the retry loop
    | Dialed(res: int)          // a new session, lock not yet taken
    | Locked2(res: int)         // holds wireConnMu
    | Checked(res: int)         // holds wireConnMu, status was not Closed
    | Installed(res: int)       // holds wireConnMu, wireConn == res
    | Ended                     // reconnect failed, the loop is over

  /** Where a Close call stands (iscp/conn.go:766-809), once it has swapped the status. */
  datatype Closer = Swapped | Holding | SessionClosed | Returned

  datatype State = State(
    status: Status,
    wireConn: int,
    holder: Holder,        // of wireConnMu
    loop: Loop,
    closers: seq<Closer>,
    dialed: int,           // sessions 0 .. dialed - 1 exist
    closed: set<int>,      // sessions closed by the Conn
    handedOut: set<int>)   // sessions snapshotWireConn has returned

  function Initial(): State { State(Connected, 0, Free, Running, [], 1, {}, {}) }

  datatype Action =
    // reconnect
    | Lock1 | Mark | Fetch | CloseOld | DialSucceeds | GiveUp
    | Lock2 | Check | Install | Publish
    // Close
    | SwapClosed | LockToClose(i: nat) | CloseSession(i: nat) | Return(i: nat)
    // users of the connection
    | SendSawClosedSession | Snapshot

  predicate Enabled(s: State, a: Action) {
    match a
    case Lock1 => s.loop == Running && s.holder == Free
    case Mark => s.loop == Locked1
    case Fetch => s.loop == Marked
    case CloseOld => s.loop.Fetched?
    case DialSucceeds => s.loop == Dialing
    case GiveUp => s.loop == Dialing
    case Lock2 => s.loop.Dialed? && s.holder == Free
    case Check => s.loop.Locked2?
    case Install => s.loop.Checked?
    case Publish => s.loop.Installed?
    case SwapClosed => true
    case LockToClose(i) => i < |s.closers| && s.closers[i] == Swapped && s.holder == Free
    case CloseSession(i) => i < |s.closers| && s.closers[i] == Holding
    case Return(i) => i < |s.closers| && s.closers[i] == SessionClosed
    case SendSawClosedSession => true
    case Snapshot => s.holder == Free
  }

  function Step(s: State, a: Action): State
    requires Enabled(s, a)
  {
    match a
    case Lock1 => s.(loop := Locked1, holder := ByReconnect)
    case Mark =>
      if s.status == Closed then s.(loop := Ended, holder := Free)
      else s.(status := CASedNot(s.status, Closed, Reconnecting), loop := Marked)
    case Fetch => s.(loop := Fetched(s.wireConn), holder := Free)
    case CloseOld => s.(closed := s.closed + {s.loop.prev}, loop := Dialing)
    case DialSucceeds => s.(loop := Dialed(s.dialed), dialed := s.dialed + 1)
    case GiveUp => s.(loop := Ended)
    case Lock2 => s.(loop := Locked2(s.loop.res), holder := ByReconnect)
    case Check =>
      if s.status == Closed then
        s.(closed := s.closed + {s.loop.res}, loop := Ended, holder := Free)
      else s.(loop := Checked(s.loop.res))
    case Install => s.(wireConn := s.loop.res, loop := Installed(s.loop.res))
    case Publish =>
      s.(status := CASed(s.status, Reconnecting, Connected),
         loop := if s.status == Reconnecting then Running else Ended,
         holder := Free)
    case SwapClosed => s.(status := Closed, closers := s.closers + [Swapped])
    case LockToClose(i) => s.(closers := s.closers[i := Holding], holder := ByCloser(i))
    case CloseSession(i) => s.(closed := s.closed + {s.wireConn}, closers := s.closers[i := SessionClosed])
    case Return(i) => s.(closers := s.closers[i := Returned], holder := Free)
    case SendSawClosedSession => s.(status := CASedNot(s.status, Closed, Reconnecting))
    case Snapshot => s.(handedOut := s.handedOut + {s.wireConn})
  }

  // ---- invariant ----

  predicate LoopHolds(loop: Loop) {
    loop.Locked1? || loop.Marked? || loop.Locked2? || loop.Checked? || loop.Installed?
  }

  predicate CloserHolds(c: Closer) { c == Holding || c == SessionClosed }

  /** wireConnMu is held by whoever is inside one of its regions. */
  ghost predicate MutexInv(s: State) {
    && (s.holder == ByReconnect <==> LoopHolds(s.loop))
    && (forall i :: 0 <= i < |s.closers| ==> (s.holder == ByCloser(i) <==> CloserHolds(s.closers[i])))
    && (s.holder.ByCloser? ==> s.holder.i < |s.closers|)
  }

  predicate HasNew(loop: Loop) { loop.Dialed? || loop.Locked2? || loop.Checked? }

  /** Every session is closed, current, or the one the reconnect loop has just dialed. */
  ghost predicate SessionsInv(s: State) {
    && 0 <= s.wireConn < s.dialed
    && (forall x :: 0 <= x < s.dialed ==>
          x in s.closed || x == s.wireConn || (HasNew(s.loop) && x == s.loop.res))
    && (forall x :: x in s.handedOut ==> 0 <= x < s.dialed)
    && (HasNew(s.loop) ==>
          && 0 <= s.loop.res < s.dialed && s.loop.res != s.wireConn && s.loop.res !in s.handedOut)
    && (s.loop.Fetched? ==> s.loop.prev == s.wireConn)
    && (s.loop.Dialing? || HasNew(s.loop) ==> s.wireConn in s.closed)
  }

  /** A Close that is past its session close has closed the session that stays current for good:
      a session can be installed only by a loop that held the lock when no Close had it yet. */
  ghost predicate ClosersInv(s: State) {
    && (s.closers != [] ==> s.status == Closed)
    && (forall i :: 0 <= i < |s.closers| && s.closers[i] in {SessionClosed, Returned} ==>
          s.wireConn in s.closed)
    && (s.loop.Checked? ==> forall i :: 0 <= i < |s.closers| ==> s.closers[i] == Swapped)
  }

  /** From Mark to Publish only Close changes the status, so Publish fails only when closed. */
  ghost predicate StatusInv(s: State) {
    s.loop.Running? || s.loop.Locked1? || s.loop.Ended? || s.status != Connected
  }

  ghost predicate Inv(s: State) { MutexInv(s) && SessionsInv(s) && ClosersInv(s) && StatusInv(s) }

  lemma MutexStep(s: State, a: Action)
    requires MutexInv(s) && Enabled(s, a)
    ensures MutexInv(Step(s, a))
  {}

  lemma SessionsStep(s: State, a: Action)
    requires SessionsInv(s) && Enabled(s, a)
    ensures SessionsInv(Step(s, a))
  {}

  lemma ClosersStep(s: State, a: Action)
    requires Inv(s) && Enabled(s, a)
    ensures ClosersInv(Step(s, a))
  {}

  lemma StepInv(s: State, a: Action)
    requires Inv(s) && Enabled(s, a)
    ensures Inv(Step(s, a))
  {
    MutexStep(s, a);
    SessionsStep(s, a);
    ClosersStep(s, a);
  }

  // ---- runs ----

  predicate Possible(s: State, run: seq<Action>)
    decreases |run|
  {
    run != [] ==> Enabled(s, run[0]) && Possible(Step(s, run[0]), run[1..])
  }

  function After(s: State, run: seq<Action>): State
    requires Possible(s, run)
    decreases |run|
  {
    if run == [] then s else After(Step(s, run[0]), run[1..])
  }

  lemma {:induction false} RunsKeepInv(s: State, run: seq<Action>)
    requires Inv(s) && Possible(s, run)
    ensures Inv(After(s, run))
    decreases |run|
  {
    if run != [] {
      StepInv(s, run[0]);
      RunsKeepInv(Step(s, run[0]), run[1..]);
    }
  }

  /** Closed is absorbing over every writer of the status. */
  lemma {:induction false} ClosedIsAbsorbing(s: State, run: seq<Action>)
    requires s.status == Closed && Possible(s, run)
    ensures After(s, run).status == Closed
    decreases |run|
  {
    if run != [] { ClosedIsAbsorbing(Step(s, run[0]), run[1..]); }
  }

  /** Once some Close has returned and no reconnect is in flight, every session ever dialed has been
      closed, and nothing the connection does from then on dials another or leaves one open. */
  lemma NoSessionLeaks(run: seq<Action>, i: nat)
    requires Possible(Initial(), run)
    requires var e := After(Initial(), run);
      i < |e.closers| && e.closers[i] == Returned && (e.loop == Running || e.loop == Ended)
    ensures var e := After(Initial(), run);
      forall x :: 0 <= x < e.dialed ==> x in e.closed
  {
    RunsKeepInv(Initial(), run);
  }

  lemma {:induction false} NoDialAfterClose(s: State, run: seq<Action>)
    requires s.status == Closed && (s.loop == Running || s.loop == Locked1 || s.loop == Ended)
    requires Possible(s, run)
    ensures After(s, run).dialed == s.dialed
    decreases |run|
  {
    if run != [] { NoDialAfterClose(Step(s, run[0]), run[1..]); }
  }

  lemma ReconnectFailsOnlyWhenClosed(run: seq<Action>)
    requires Possible(Initial(), run) && After(Initial(), run).loop.Installed?
    ensures var e := After(Initial(), run);
      Step(e, Publish).loop == Ended <==> e.status == Closed
  {
    RunsKeepInv(Initial(), run);
  }

  /** A session handed out by snapshotWireConn is still current or has been closed, so a call on a
      stale one fails instead of talking to a live session nobody owns. */
  lemma SnapshotsAreCurrentOrClosed(run: seq<Action>, x: int)
    requires Possible(Initial(), run) && x in After(Initial(), run).handedOut
    ensures var e := After(Initial(), run); x == e.wireConn || x in e.closed
  {
    RunsKeepInv(Initial(), run);
  }

  /** A Close that has swapped the status goes through as soon as wireConnMu is free: it closes the current
      session and gives the lock back. */
  lemma CloseGoesThrough(s: State, i: nat)
    requires Inv(s) && i < |s.closers| && s.closers[i] == Swapped && s.holder == Free
    ensures var run := [LockToClose(i), CloseSession(i), Return(i)];
      && Possible(s, run)
      && After(s, run) == s.(closers := s.closers[i := Returned], closed := s.closed + {s.wireConn})
  {
    var s1 := Step(s, LockToClose(i));
    var s2 := Step(s1, CloseSession(i));
    var s3 := Step(s2, Return(i));
    assert Possible(s3, []) && After(s3, []) == s3;
    var last, two := [Return(i)], [CloseSession(i), Return(i)];
    assert last[1..] == [] && Possible(s2, last) && After(s2, last) == s3;
    assert two[1..] == last && Possible(s1, two) && After(s1, two) == s3;
    assert [LockToClose(i), CloseSession(i), Return(i)][1..] == two;
    assert s3.closers == s.closers[i := Returned];
  }

  /** Calling Close closes the connection at once, and its session as soon as wireConnMu is free. */
  lemma CloseEndsConnection(s: State)
    requires Inv(s) && s.holder == Free
    ensures var i := |s.closers|; var s1 := Step(s, SwapClosed);
      && s1.status == Closed && Possible(s1, [LockToClose(i), CloseSession(i), Return(i)])
      && s.wireConn in After(s1, [LockToClose(i), CloseSession(i), Return(i)]).closed
      && After(s1, [LockToClose(i), CloseSession(i), Return(i)]).closers == s.closers + [Returned]
  {
    StepInv(s, SwapClosed);
    var s1 := Step(s, SwapClosed);
    CloseGoesThrough(s1, |s.closers|);
    assert (s.closers + [Swapped])[|s.closers| := Returned] == s.closers + [Returned];
  }

  /** A sender that met a closed session asks for a reconnect, unless the connection is closed for good. */
  lemma SenderAsksForReconnect(s: State)
    ensures var s' := Step(s, SendSawClosedSession);
      && s' == s.(status := s'.status)
      && s'.status == if s.status == Closed then Closed else Reconnecting
  {}

  /** A snapshot hands out the current session and changes nothing else. */
  lemma SnapshotHandsOutCurrent(s: State)
    requires Enabled(s, Snapshot)
    ensures var s' := Step(s, Snapshot);
      s'.wireConn in s'.handedOut && s' == s.(handedOut := s'.handedOut)
      && forall x :: x in s'.handedOut ==> x in s.handedOut || x == s.wireConn
  {}
}
