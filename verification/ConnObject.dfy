/**
 The Conn as an object (iscp/conn.go). Its methods are the regions of reconnect and Close between
 two interleaving points, each one step of ConnLifecycle; Reconnect puts them together with the retry
 loop, and Send is the sender's loop. What the rest of the world does meanwhile is a script.
 */
module ConnObject {
  import opened Prelude
  import opened ConnStatus
  import opened ConnLifecycle

  /** What happens during one round of the dial loop. */
  datatype Round = DialFails | DialSucceeds | CloseBegins

  /** Where `trace` leads from s, if each of its steps is enabled in turn. */
  function Traced(s: State, trace: seq<Action>): Option<State> {
    if trace == [] then Some(s)
    else
      match Traced(s, trace[..|trace| - 1])
      case None => None
      case Some(mid) =>
        var a := trace[|trace| - 1];
        if Enabled(mid, a) then Some(Step(mid, a)) else None
  }

  lemma TracedStep(s: State, trace: seq<Action>, mid: State, a: Action)
    requires Traced(s, trace) == Some(mid) && Inv(mid) && Enabled(mid, a)
    ensures Traced(s, trace + [a]) == Some(Step(mid, a)) && Inv(Step(mid, a))
  {
    assert (trace + [a])[..|trace|] == trace;
    StepInv(mid, a);
  }

  /** What one call of a sender's function returns. */
  datatype Outcome = Succeeds | ConnectionClosed | OtherError

  /** How a sender's wait ends. */
  datatype Found = FoundConnected | FoundClosed | ContextDone

  datatype SendResult = Sent | ErrClosed | ErrOther | ErrContext

  /** One round of send: the statuses others store while it waits, one per wake-up, before its own
      context is done; whether the context is done once connected; the status others have stored before
      it calls its function; what its function returns; and the status others have stored by then. */
  datatype Attempt = Attempt(waits: seq<Status>, ctxDone: bool, before: Status, outcome: Outcome, after: Status)

  /** The first status in `waits` that ends a wait, or |waits|. */
  function FirstChange(waits: seq<Status>): (k: nat)
    ensures k <= |waits|
    ensures k < |waits| ==> waits[k] != Reconnecting
    ensures forall j :: 0 <= j < k ==> waits[j] == Reconnecting
  {
    if waits == [] || waits[0] != Reconnecting then 0 else 1 + FirstChange(waits[1..])
  }

  /** What ends a wait that begins at `current`: the status that is or becomes different from Reconnecting, if
      one does. */
  function Ending(current: Status, waits: seq<Status>): Status {
    if current != Reconnecting then current
    else if FirstChange(waits) < |waits| then waits[FirstChange(waits)]
    else Reconnecting
  }

  /** How many dials fail at the start of the script. */
  function Failures(script: seq<Round>): (k: nat)
    ensures k <= |script|
    ensures k < |script| ==> script[k] != DialFails
    ensures forall j :: 0 <= j < k ==> script[j] == DialFails
  {
    if script == [] || script[0] != DialFails then 0 else 1 + Failures(script[1..])
  }

  /** Some dials fail, then one succeeds. */
  predicate Recovers(script: seq<Round>) {
    Failures(script) < |script| && script[Failures(script)] == Round.DialSucceeds
  }

  class Conn {
    const state: StatusBox
    var wireConn: int
    var holder: Holder
    var loop: Loop
    var closers: seq<Closer>
    var dialed: int
    ghost var closed: set<int>
    ghost var handedOut: set<int>

    ghost function View(): State
      reads this, state
    {
      State(state.current, wireConn, holder, loop, closers, dialed, closed, handedOut)
    }

    constructor ()
      ensures View() == Initial() && fresh(state)
    {
      state := new StatusBox();
      wireConn, holder, loop, closers := 0, Free, Running, [];
      dialed, closed, handedOut := 1, {}, {};
    }

    // ---- reconnect, region by region ----

    method Lock()
      requires Enabled(View(), Lock1)
      modifies this`loop, this`holder
      ensures View() == Step(old(View()), Lock1)
    {
      loop, holder := Locked1, ByReconnect;
    }

    method MarkReconnecting()
      requires loop == Locked1
      modifies this`loop, this`holder, state
      ensures View() == Step(old(View()), Mark)
    {
      var swapped := state.CompareAndSwapNot(Closed, Reconnecting);
      if !swapped {
        loop, holder := Ended, Free;
        return;
      }
      loop := Marked;
    }

    method FetchSession()
      requires loop == Marked
      modifies this`loop, this`holder
      ensures View() == Step(old(View()), Fetch)
    {
      var prev := wireConn;
      loop, holder := Fetched(prev), Free;
    }

    method CloseFetched()
      requires loop.Fetched?
      modifies this`loop, this`closed
      ensures View() == Step(old(View()), CloseOld)
    {
      closed := closed + {loop.prev};
      loop := Dialing;
    }

    method Dial()
      requires loop == Dialing
      modifies this`loop, this`dialed
      ensures View() == Step(old(View()), Action.DialSucceeds)
    {
      var res := dialed;
      dialed := dialed + 1;
      loop := Dialed(res);
    }

    method AbandonDialing()
      requires loop == Dialing
      modifies this`loop
      ensures View() == Step(old(View()), GiveUp)
    {
      loop := Ended;
    }

    method LockAgain()
      requires Enabled(View(), Lock2)
      modifies this`loop, this`holder
      ensures View() == Step(old(View()), Lock2)
    {
      loop, holder := Locked2(loop.res), ByReconnect;
    }

    method CheckNotClosed()
      requires loop.Locked2?
      modifies this`loop, this`holder, this`closed
      ensures View() == Step(old(View()), Check)
    {
      if state.current == Closed {
        closed := closed + {loop.res};
        loop, holder := Ended, Free;
        return;
      }
      loop := Checked(loop.res);
    }

    method InstallSession()
      requires loop.Checked?
      modifies this`wireConn, this`loop
      ensures View() == Step(old(View()), Install)
    {
      wireConn := loop.res;
      loop := Installed(loop.res);
    }

    method PublishConnected()
      requires loop.Installed?
      modifies this`loop, this`holder, state
      ensures View() == Step(old(View()), Publish)
    {
      var swapped := state.CompareAndSwap(Reconnecting, Connected);
      loop, holder := if swapped then Running else Ended, Free;
    }

    // ---- Close ----

    method BeginClose()
      modifies this`closers, state
      ensures View() == Step(old(View()), SwapClosed)
    {
      var _ := state.Swap(Closed);
      closers := closers + [Swapped];
    }

    method CloseCurrent(i: nat)
      requires i < |closers| && closers[i] == Holding
      modifies this`closers, this`closed
      ensures View() == Step(old(View()), CloseSession(i))
    {
      closed := closed + {wireConn};
      closers := closers[i := SessionClosed];
    }

    // ---- reconnect as a whole ----

    /** Up to the retry loop; false when the connection is closed already. */
    method StartReconnect(ghost start: State) returns (going: bool, ghost trace: seq<Action>)
      requires Inv(View()) && View() == start && loop == Running && holder == Free
      modifies this, state
      ensures Inv(View()) && Traced(start, trace) == Some(View())
      ensures holder == Free && wireConn == old(wireConn) && dialed == old(dialed)
      ensures going <==> old(state.current) != Closed
      ensures going ==> loop == Dialing && state.current == Reconnecting && old(wireConn) in closed
      ensures !going ==> loop == Ended && state.current == Closed
    {
      trace := [];
      ghost var s := View();
      Lock();
      TracedStep(start, trace, s, Lock1);
      trace, s := trace + [Lock1], View();
      MarkReconnecting();
      TracedStep(start, trace, s, Mark);
      trace, s := trace + [Mark], View();
      if loop == Ended { return false, trace; }
      FetchSession();
      TracedStep(start, trace, s, Fetch);
      trace, s := trace + [Fetch], View();
      CloseFetched();
      TracedStep(start, trace, s, CloseOld);
      trace := trace + [CloseOld];
      going := true;
    }

    /** The retry loop: a failed dial is repeated unless the connection is closed by then. */
    method DialLoop(script: seq<Round>, ghost start: State, ghost before: seq<Action>)
      returns (dials: nat, ghost trace: seq<Action>)
      requires Inv(View()) && Traced(start, before) == Some(View()) && loop == Dialing && holder == Free
      modifies this`closers, this`loop, this`dialed, state
      ensures Inv(View()) && Traced(start, trace) == Some(View())
      ensures loop == Ended || loop == Dialed(old(dialed))
      ensures dialed == old(dialed) + if loop.Dialed? then 1 else 0
      ensures loop == Ended ==> state.current == Closed
      ensures state.current == old(state.current) || state.current == Closed
      ensures old(state.current) != Closed && Recovers(script) ==>
        loop.Dialed? && dials == Failures(script) + 1 && state.current == old(state.current)
    {
      dials, trace := 0, before;
      for i := 0 to |script|
        invariant Inv(View()) && Traced(start, trace) == Some(View())
        invariant loop == Dialing && dialed == old(dialed)
        invariant state.current == old(state.current) || state.current == Closed
        invariant old(state.current) != Closed && Recovers(script) ==>
          dials == i <= Failures(script) && state.current == old(state.current)
      {
        ghost var s := View();
        match script[i] {
        case DialFails =>
          dials := dials + 1;
          if state.current == Closed {
            AbandonDialing();
            TracedStep(start, trace, s, GiveUp);
            trace := trace + [GiveUp];
            return;
          }
        case DialSucceeds =>
          dials := dials + 1;
          Dial();
          TracedStep(start, trace, s, Action.DialSucceeds);
          trace := trace + [Action.DialSucceeds];
          return;
        case CloseBegins =>
          BeginClose();
          TracedStep(start, trace, s, SwapClosed);
          trace := trace + [SwapClosed];
        }
      }
      ghost var s := View();
      BeginClose();
      TracedStep(start, trace, s, SwapClosed);
      trace, s := trace + [SwapClosed], View();
      AbandonDialing();
      TracedStep(start, trace, s, GiveUp);
      trace := trace + [GiveUp];
    }

    /** From the second lock on; `race` is a Close that swaps the status between the check and the
        final compare-and-swap. */
    method FinishReconnect(race: bool, ghost start: State, ghost before: seq<Action>)
      returns (ok: bool, ghost trace: seq<Action>)
      requires Inv(View()) && Traced(start, before) == Some(View()) && Enabled(View(), Lock2)
      requires state.current != Connected
      modifies this, state
      ensures Inv(View()) && Traced(start, trace) == Some(View())
      ensures holder == Free && dialed == old(dialed)
      ensures ok <==> old(state.current) != Closed && !race
      ensures ok ==> loop == Running && state.current == Connected && wireConn == old(loop).res
      ensures !ok ==> loop == Ended && state.current == Closed && (wireConn == old(loop).res || old(loop).res in closed)
    {
      trace := before;
      ghost var s := View();
      LockAgain();
      TracedStep(start, trace, s, Lock2);
      trace, s := trace + [Lock2], View();
      CheckNotClosed();
      TracedStep(start, trace, s, Check);
      trace, s := trace + [Check], View();
      if loop == Ended { return false, trace; }
      InstallSession();
      TracedStep(start, trace, s, Install);
      trace, s := trace + [Install], View();
      if race {
        BeginClose();
        TracedStep(start, trace, s, SwapClosed);
        trace, s := trace + [SwapClosed], View();
      }
      PublishConnected();
      TracedStep(start, trace, s, Publish);
      trace := trace + [Publish];
      ok := loop == Running;
    }

    /** reconnect. It succeeds only with a session dialed by this call, fails only when the connection
        is closed, never dials when it was closed before, and has closed the session it replaces. */
    method Reconnect(script: seq<Round>, race: bool) returns (ok: bool, dials: nat, ghost trace: seq<Action>)
      requires Inv(View()) && loop == Running && holder == Free
      modifies this, state
      ensures Inv(View()) && Traced(old(View()), trace) == Some(View()) && holder == Free
      ensures ok ==> loop == Running && state.current == Connected && wireConn == old(dialed)
      ensures !ok ==> loop == Ended && state.current == Closed
      ensures old(state.current) == Closed ==> !ok && dials == 0 && dialed == old(dialed)
      ensures dialed <= old(dialed) + 1
      ensures old(state.current) != Closed && Recovers(script) && !race ==> ok && dials == Failures(script) + 1
    {
      ghost var start := View();
      var going: bool;
      dials := 0;
      going, trace := StartReconnect(start);
      if !going { return false, 0, trace; }
      dials, trace := DialLoop(script, start, trace);
      if loop == Ended { return false, dials, trace; }
      ok, trace := FinishReconnect(race, start, trace);
    }

    // ---- send ----

    /** WaitUntilOrClosed(ctx, connected). */
    method WaitUntilConnected(waits: seq<Status>, ctxDone: bool) returns (found: Found)
      modifies state
      ensures found == FoundConnected ==> state.current == Connected && !ctxDone
      ensures found == FoundClosed ==> state.current == Closed
      ensures found ==
        match Ending(old(state.current), waits)
        case Closed => FoundClosed
        case Reconnecting => ContextDone
        case Connected => if ctxDone then ContextDone else FoundConnected
      ensures state.current == Ending(old(state.current), waits)
    {
      var i := 0;
      while state.current != Connected
        invariant i <= |waits|
        invariant i == 0 ==> state.current == old(state.current)
        invariant i > 0 ==> old(state.current) == Reconnecting && state.current == waits[i - 1]
        invariant i > 0 ==> i - 1 <= FirstChange(waits)
        decreases |waits| - i
      {
        if state.current == Closed { return FoundClosed; }
        if i == |waits| { return ContextDone; }
        state.current := waits[i];
        i := i + 1;
      }
      found := if ctxDone then ContextDone else FoundConnected;
    }

    /** send: `script` is what each round meets, `n` the round that ended it, `seen` the status each time
        the wait before a call ended and `left` the status after each round that is followed by another.
        The function is called only after the connection was seen connected, which it need not be any more
        by then; it is called again exactly when it met a closed session while the connection was not
        closed, and a reconnect is asked for first; a closed connection is reported only when it is closed,
        and every other error is handed on. */
    method Send(script: seq<Attempt>)
      returns (res: Option<SendResult>, n: nat, calls: nat, ghost seen: seq<Status>, ghost left: seq<Status>)
      modifies state
      ensures n <= |script| && (res.None? <==> n == |script|)
      ensures |seen| == calls && forall j :: 0 <= j < calls ==> seen[j] == Connected
      ensures |left| == n && forall j :: 0 <= j < n ==> left[j] == Reconnecting
      ensures forall j :: 0 <= j < n ==> Retries(script[j])
      ensures calls == n || (calls == n + 1 && n < |script|)
      ensures calls == n + 1 ==> !Retries(script[n]) && res == Some(Verdict(script[n].outcome))
      ensures calls == n && n < |script| ==> res == Some(ErrClosed) || res == Some(ErrContext)
      ensures res == Some(ErrClosed) ==> state.current == Closed
      ensures n < |script| ==>
        var ending := Ending(if n == 0 then old(state.current) else Reconnecting, script[n].waits);
        && (calls == n + 1 <==> ending == Connected && !script[n].ctxDone)
        && (res == Some(ErrContext) <==> ending == Reconnecting || (ending == Connected && script[n].ctxDone))
    {
      n, calls, seen, left := 0, 0, [], [];
      while n < |script|
        invariant n <= |script| && calls == n == |seen| == |left|
        invariant state.current == if n == 0 then old(state.current) else Reconnecting
        invariant forall j :: 0 <= j < n ==> Retries(script[j]) && seen[j] == Connected && left[j] == Reconnecting
      {
        var found := WaitUntilConnected(script[n].waits, script[n].ctxDone);
        if found == FoundClosed { return Some(ErrClosed), n, calls, seen, left; }
        if found == ContextDone { return Some(ErrContext), n, calls, seen, left; }
        calls, seen := calls + 1, seen + [state.current];
        state.current := script[n].before;
        match script[n].outcome {
        case Succeeds => return Some(Sent), n, calls, seen, left;
        case OtherError => return Some(ErrOther), n, calls, seen, left;
        case ConnectionClosed =>
        }
        state.current := script[n].after;
        var swapped := state.CompareAndSwapNot(Closed, Reconnecting);
        if !swapped { return Some(ErrClosed), n, calls, seen, left; }
        n, left := n + 1, left + [state.current];
      }
      res := None;
    }
  }

  predicate Retries(a: Attempt) { a.outcome == ConnectionClosed && a.after != Closed }

  function Verdict(o: Outcome): SendResult {
    match o
    case Succeeds => Sent
    case OtherError => ErrOther
    case ConnectionClosed => ErrClosed
  }
}
