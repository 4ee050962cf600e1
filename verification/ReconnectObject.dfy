/**
 The reconnecting transport as an object. reconnect keeps r.mu from its first line to its last, so
 it is one method with its retry loop; what the world does meanwhile (a dial succeeds or fails, a
 Close cancels the context) is a script. Each method returns the steps of ReconnectTransport it
 took, so the results proved there of every run cover it.
 */
module ReconnectObject {
  import opened Prelude
  import opened ReconnectTransport

  /** What happens during one round of the retry loop. */
  datatype Round = DialFails | DialSucceeds | CloseBegins

  /** The initial connection also looks at what it dialed: a transport that lacks Closer is refused. */
  datatype InitialRound = Attempted(round: Round) | LacksCloser

  /** What one round of a write meets: the inner write's outcome, a Close before the loop looks, a
      reconnect of the read loop that gets the lock first, and the rounds of the write loop's own. */
  datatype WriteRound = WriteRound(ok: bool, closing: bool, readLoop: Option<seq<Round>>, script: seq<Round>)

  /** How many dials fail at the start of the script. */
  function Failures(script: seq<Round>): (k: nat)
    ensures k <= |script|
    ensures k < |script| ==> script[k] != DialFails
    ensures forall j :: 0 <= j < k ==> script[j] == DialFails
  {
    if script == [] || script[0] != DialFails then 0 else 1 + Failures(script[1..])
  }

  function InitialFailures(script: seq<InitialRound>): (k: nat)
    ensures k <= |script|
    ensures k < |script| ==> script[k] != Attempted(DialFails)
    ensures forall j :: 0 <= j < k ==> script[j] == Attempted(DialFails)
  {
    if script == [] || script[0] != Attempted(DialFails) then 0 else 1 + InitialFailures(script[1..])
  }

  /** `most` dials are allowed; any number, when it is negative. */
  predicate Allowed(dials: nat, most: int) { most < 0 || dials <= most }

  /** Some dials fail, then one succeeds, within what is allowed. */
  predicate Recovers(script: seq<Round>, most: int) {
    var k := Failures(script);
    k < |script| && script[k] == DialSucceeds && Allowed(k + 1, most)
  }

  predicate InitialRecovers(script: seq<InitialRound>, most: int) {
    var k := InitialFailures(script);
    k < |script| && script[k] == Attempted(DialSucceeds) && Allowed(k + 1, most)
  }

  /** Where `trace` leads from s, if each of its steps is enabled in turn. */
  function Traced(s: Ownership, trace: seq<OwnAction>): Option<Ownership> {
    if trace == [] then Some(s)
    else
      match Traced(s, trace[..|trace| - 1])
      case None => None
      case Some(mid) =>
        var a := trace[|trace| - 1];
        if OwnEnabled(mid, a) then Some(OwnStep(mid, a)) else None
  }

  lemma TracedStep(s: Ownership, trace: seq<OwnAction>, mid: Ownership, a: OwnAction)
    requires Traced(s, trace) == Some(mid) && OwnInv(mid) && OwnEnabled(mid, a)
    ensures Traced(s, trace + [a]) == Some(OwnStep(mid, a)) && OwnInv(OwnStep(mid, a))
  {
    assert (trace + [a])[..|trace|] == trace;
    OwnStepInv(mid, a);
  }

  class Transport {
    const maxReconnectAttempts: int
    var transport: Option<int>
    var cancelled: bool
    var holder: Option<Who>
    var w: Call
    var r: Call
    var initial: ReconnectTransport.Initial
    var closers: seq<Closer>
    var acquired: int
    var closed: set<int>

    ghost function View(): Ownership
      reads this
    {
      Ownership(transport, cancelled, holder, w, r, initial, closers, acquired, closed)
    }

    function MyCall(who: Who): Call
      reads this`w, this`r
    {
      if who == WriteLoop then w else r
    }

    function OtherCall(who: Who): Call
      reads this`w, this`r
    {
      if who == WriteLoop then r else w
    }

    /** The steps of `trace` lead from `start` to here. */
    ghost predicate Reached(start: Ownership, trace: seq<OwnAction>)
      reads this
    {
      OwnInv(View()) && Traced(start, trace) == Some(View())
    }

    constructor (maxReconnectAttempts: int)
      ensures View() == Dialed().own
    {
      this.maxReconnectAttempts := maxReconnectAttempts;
      transport, cancelled, holder, w, r := None, false, None, NoCall, NoCall;
      initial, closers, acquired, closed := Trying, [], 0, {};
    }

    method SetMyCall(who: Who, c: Call)
      modifies this`w, this`r
      ensures View() == SetCall(old(View()), who, c)
    {
      if who == WriteLoop { w := c; } else { r := c; }
    }

    /** initialConnect, from a successful dial on. */
    method AssignInitial()
      requires OwnEnabled(View(), InitialAssigns)
      modifies this`transport, this`closed, this`initial
      ensures View() == OwnStep(old(View()), InitialAssigns)
    {
      if cancelled {
        closed := closed + {initial.tr};
      } else {
        transport := Some(initial.tr);
      }
      initial := InitialDone;
    }

    method DialInitial()
      requires initial == Trying
      modifies this`initial, this`acquired
      ensures View() == OwnStep(old(View()), InitialDials)
    {
      initial := Acquired(acquired);
      acquired := acquired + 1;
    }

    method GiveUpInitial()
      requires initial == Trying
      modifies this`initial, this`cancelled
      ensures View() == OwnStep(old(View()), InitialGivesUp)
    {
      initial, cancelled := InitialDone, true;
    }

    /** initialConnect. It dials at most maxReconnectAttempts times when that is not negative; it ends
        with a transport of its own, or with everything cancelled and what it dialed closed, except that
        a transport that lacks Closer is `refused` and left open; it is not one of the numbered ones.
        `race` is a Close between the dial and the lock. */
    method InitialConnect(script: seq<InitialRound>, race: bool) returns (ok: bool, dials: nat, refused: bool)
      requires OwnInv(View()) && initial == Trying && holder == None
      modifies this
      ensures OwnInv(View()) && initial == InitialDone && holder == None
      ensures ok ==> transport == Some(old(acquired)) && acquired == old(acquired) + 1 && !cancelled
      ensures !ok ==> cancelled && transport == old(transport)
      ensures !ok ==> forall t :: old(acquired) <= t < acquired ==> t in closed
      ensures 0 <= maxReconnectAttempts ==> dials <= maxReconnectAttempts
      ensures old(cancelled) ==> dials == 0 && !refused
      ensures refused ==> !ok && acquired == old(acquired) && 0 < dials <= |script| && script[dials - 1] == LacksCloser
      ensures ok ==> 0 < dials <= |script| && script[dials - 1] == Attempted(DialSucceeds)
      ensures !old(cancelled) && InitialRecovers(script, maxReconnectAttempts) && !race ==>
        ok && dials == InitialFailures(script) + 1
      ensures !ok && !old(cancelled) && !refused && !race ==>
        dials == maxReconnectAttempts || dials == InitialFailures(script)
    {
      ok, dials, refused := false, 0, false;
      var i := 0;
      while true
        invariant OwnInv(View()) && initial == Trying && holder == None
        invariant transport == old(transport) && acquired == old(acquired)
        invariant !ok && !refused && (0 <= maxReconnectAttempts ==> dials <= maxReconnectAttempts)
        invariant !old(cancelled) ==> dials <= InitialFailures(script)
        invariant !old(cancelled) && cancelled ==>
          dials == InitialFailures(script) && !InitialRecovers(script, maxReconnectAttempts)
        invariant dials <= i && (0 <= maxReconnectAttempts && !cancelled ==> i <= maxReconnectAttempts)
        invariant (old(cancelled) ==> cancelled && dials == 0) && (!cancelled ==> dials == i <= |script|)
        decreases if cancelled then 0 else |script| + 1 - i
      {
        if (0 <= maxReconnectAttempts <= i) || cancelled {
          OwnStepInv(View(), InitialGivesUp);
          GiveUpInitial();
          return;
        }
        var round := if i < |script| then script[i] else Attempted(CloseBegins);
        match round {
        case Attempted(DialFails) =>
          dials := dials + 1;
        case Attempted(DialSucceeds) =>
          dials := dials + 1;
          ok := TakeInitial(race);
          return;
        case LacksCloser =>
          dials, refused := dials + 1, true;
          OwnStepInv(View(), InitialGivesUp);
          GiveUpInitial();
          return;
        case Attempted(CloseBegins) =>
          OwnStepInv(View(), CancelToClose);
          CancelContext();
        }
        i := i + 1;
      }
    }

    /** A successful initial dial, up to where the transport is installed or closed. */
    method TakeInitial(race: bool) returns (ok: bool)
      requires OwnInv(View()) && initial == Trying && holder == None && !cancelled
      modifies this
      ensures OwnInv(View()) && initial == InitialDone && holder == None && acquired == old(acquired) + 1
      ensures ok <==> !race
      ensures ok ==> transport == Some(old(acquired)) && !cancelled
      ensures !ok ==> cancelled && transport == old(transport) && old(acquired) in closed
    {
      OwnStepInv(View(), InitialDials);
      DialInitial();
      if race {
        OwnStepInv(View(), CancelToClose);
        CancelContext();
      }
      OwnStepInv(View(), InitialAssigns);
      ok := !cancelled;
      AssignInitial();
    }

    /** CloseWithStatus, once it has cancelled the context and got r.mu. */
    method CloseTransport(i: nat)
      requires OwnEnabled(View(), CloseCurrent(i))
      modifies this`closed, this`closers
      ensures View() == OwnStep(old(View()), CloseCurrent(i))
    {
      if transport.Some? { closed := closed + {transport.value}; }
      closers := closers[i := Closer.Closed];
    }

    /** The head of reconnect(prev): give up when closed, do nothing when already replaced,
        otherwise close the transport that failed. */
    method CheckCall(who: Who, prev: int)
      requires CallOf(View(), who) == Entered(prev)
      modifies this`w, this`r, this`holder, this`closed
      ensures View() == OwnStep(old(View()), CheckClosed(who))
    {
      if cancelled {
        SetMyCall(who, ReturnedErr);
        holder := None;
      } else if Some(prev) != transport {
        SetMyCall(who, ReturnedOk);
        holder := None;
      } else {
        SetMyCall(who, Attempting(prev));
        closed := closed + {prev};
      }
    }

    method Install(who: Who)
      requires CallOf(View(), who).Attempting?
      modifies this`w, this`r, this`holder, this`transport, this`acquired
      ensures View() == OwnStep(old(View()), Redials(who))
    {
      transport := Some(acquired);
      acquired := acquired + 1;
      SetMyCall(who, ReturnedOk);
      holder := None;
    }

    method Fail(who: Who)
      requires CallOf(View(), who).Attempting?
      modifies this`w, this`r, this`holder
      ensures View() == OwnStep(old(View()), FailsCall(who))
    {
      SetMyCall(who, ReturnedErr);
      holder := None;
    }

    method CancelContext()
      modifies this`cancelled, this`closers
      ensures View() == OwnStep(old(View()), CancelToClose)
    {
      cancelled := true;
      closers := closers + [Closer.Cancelled];
    }

    /** reconnect. The retry loop dials at most maxReconnectAttempts times when that is not
        negative, and never again once it has seen the transport closed. */
    method Reconnect(who: Who, prev: int, script: seq<Round>) returns (dials: nat, ghost trace: seq<OwnAction>)
      requires OwnInv(View()) && OwnEnabled(View(), Enter(who, prev))
      modifies this
      ensures OwnInv(View()) && Traced(old(View()), trace) == Some(View())
      ensures CallOf(View(), who) == ReturnedOk || CallOf(View(), who) == ReturnedErr
      ensures holder == None
      ensures CallOf(View(), who) == ReturnedOk ==>
        transport.Some? && transport.value != prev && transport.value >= old(transport).value
      ensures CallOf(View(), who) == ReturnedErr ==> transport == old(transport)
      ensures acquired == old(acquired) + (if transport == old(transport) then 0 else 1)
      ensures 0 <= maxReconnectAttempts ==> dials <= maxReconnectAttempts
      ensures old(cancelled) || old(transport) != Some(prev) ==> dials == 0
      ensures (who == ReadLoop ==> w == old(w)) && (who == WriteLoop ==> r == old(r))
      ensures transport.Some? && transport.value >= old(transport).value
      ensures old(cancelled) ==> CallOf(View(), who) == ReturnedErr
      ensures !old(cancelled) && old(transport) != Some(prev) ==> CallOf(View(), who) == ReturnedOk
      ensures !old(cancelled) && old(transport) == Some(prev) ==> prev in closed
      ensures CallOf(View(), who) == ReturnedErr ==> cancelled || dials == maxReconnectAttempts
      ensures CallOf(View(), who) == ReturnedOk ==> !cancelled
      ensures !old(cancelled) && old(transport) == Some(prev) && Recovers(script, maxReconnectAttempts) ==>
        CallOf(View(), who) == ReturnedOk && dials == Failures(script) + 1
    {
      ghost var start := View();
      dials := 0;
      SetMyCall(who, Entered(prev));
      holder := Some(who);
      TracedStep(start, [], start, Enter(who, prev));
      trace := [Enter(who, prev)];
      ghost var entered := View();
      CheckCall(who, prev);
      TracedStep(start, trace, entered, CheckClosed(who));
      trace := trace + [CheckClosed(who)];
      if cancelled || Some(prev) != transport { return; }
      dials, trace := RetryLoop(who, prev, script, trace, start);
    }

    method RetryLoop(who: Who, prev: int, script: seq<Round>, ghost before: seq<OwnAction>, ghost start: Ownership)
      returns (dials: nat, ghost trace: seq<OwnAction>)
      requires Reached(start, before) && MyCall(who) == Attempting(prev)
      modifies this
      ensures Reached(start, trace)
      ensures MyCall(who) == ReturnedOk || MyCall(who) == ReturnedErr
      ensures holder == None
      ensures MyCall(who) == ReturnedOk ==>
        transport == Some(old(acquired)) && acquired == old(acquired) + 1
      ensures MyCall(who) == ReturnedErr ==> transport == old(transport) && acquired == old(acquired)
      ensures 0 <= maxReconnectAttempts ==> dials <= maxReconnectAttempts
      ensures OtherCall(who) == old(OtherCall(who))
      ensures old(closed) <= closed
      ensures MyCall(who) == ReturnedErr ==> cancelled || dials == maxReconnectAttempts
      ensures MyCall(who) == ReturnedOk ==> !cancelled
      ensures !old(cancelled) && Recovers(script, maxReconnectAttempts) ==>
        MyCall(who) == ReturnedOk && dials == Failures(script) + 1
    {
      dials, trace := 0, before;
      var i := 0;
      while true
        invariant Reached(start, trace)
        invariant MyCall(who) == Attempting(prev)
        invariant OtherCall(who) == old(OtherCall(who))
        invariant transport == old(transport) && acquired == old(acquired)
        invariant dials <= i && (0 <= maxReconnectAttempts ==> dials <= maxReconnectAttempts)
        invariant !cancelled ==> dials == i <= |script| && (0 <= maxReconnectAttempts ==> i <= maxReconnectAttempts)
        invariant old(closed) <= closed
        invariant !old(cancelled) && Recovers(script, maxReconnectAttempts) ==> !cancelled && i <= Failures(script)
        decreases if cancelled then 0 else |script| + 1 - i
      {
        if (0 <= maxReconnectAttempts <= i) || cancelled {
          trace := FailTraced(who, trace, start);
          return;
        }
        var round := if i < |script| then script[i] else CloseBegins;
        match round {
        case DialFails =>
          dials := dials + 1;
        case DialSucceeds =>
          dials := dials + 1;
          trace := InstallTraced(who, trace, start);
          return;
        case CloseBegins =>
          trace := CancelTraced(trace, start);
        }
        i := i + 1;
      }
    }

    method FailTraced(who: Who, ghost before: seq<OwnAction>, ghost start: Ownership)
      returns (ghost trace: seq<OwnAction>)
      requires Reached(start, before) && MyCall(who).Attempting?
      modifies this`w, this`r, this`holder
      ensures Reached(start, trace)
      ensures MyCall(who) == ReturnedErr && holder == None
      ensures OtherCall(who) == old(OtherCall(who))
    {
      TracedStep(start, before, View(), FailsCall(who));
      Fail(who);
      trace := before + [FailsCall(who)];
    }

    method InstallTraced(who: Who, ghost before: seq<OwnAction>, ghost start: Ownership)
      returns (ghost trace: seq<OwnAction>)
      requires Reached(start, before) && MyCall(who).Attempting?
      modifies this`w, this`r, this`holder, this`transport, this`acquired
      ensures Reached(start, trace)
      ensures MyCall(who) == ReturnedOk && holder == None
      ensures transport == Some(old(acquired)) && acquired == old(acquired) + 1
      ensures OtherCall(who) == old(OtherCall(who))
    {
      TracedStep(start, before, View(), Redials(who));
      Install(who);
      trace := before + [Redials(who)];
    }

    method CancelTraced(ghost before: seq<OwnAction>, ghost start: Ownership) returns (ghost trace: seq<OwnAction>)
      requires Reached(start, before)
      modifies this`cancelled, this`closers
      ensures Reached(start, trace)
      ensures cancelled
    {
      TracedStep(start, before, View(), CancelToClose);
      CancelContext();
      trace := before + [CancelToClose];
    }

    /** The call is over; the write loop goes on. */
    method Leave(who: Who)
      requires OwnInv(View()) && OwnEnabled(View(), Leaves(who))
      modifies this`w, this`r
      ensures OwnInv(View()) && View() == OwnStep(old(View()), Leaves(who))
    {
      OwnStepInv(View(), Leaves(who));
      SetMyCall(who, NoCall);
    }

    method BeginClose()
      requires OwnInv(View())
      modifies this`cancelled, this`closers
      ensures OwnInv(View()) && View() == OwnStep(old(View()), CancelToClose)
    {
      OwnStepInv(View(), CancelToClose);
      CancelContext();
    }

    /** The read loop reconnects, from whatever transport is current. */
    method ReadLoopReconnects(script: seq<Round>)
      requires OwnInv(View()) && transport.Some? && holder == None && r == NoCall
      modifies this
      ensures OwnInv(View()) && holder == None && r == NoCall && w == old(w)
      ensures transport.Some? && transport.value >= old(transport).value
    {
      var _, _ := Reconnect(ReadLoop, transport.value, script);
      Leave(ReadLoop);
    }

    /** After a failed write on tr: reconnect, and on success go on with a later transport. */
    method Replace(tr: int, script: seq<Round>) returns (ok: bool)
      requires OwnInv(View()) && transport.Some? && 0 <= tr <= transport.value && holder == None && w == NoCall
      modifies this
      ensures OwnInv(View()) && holder == None && r == old(r)
      ensures ok ==> w == NoCall && transport.Some? && transport.value > tr && !cancelled
      ensures !ok ==> w == ReturnedErr && (cancelled || 0 <= maxReconnectAttempts)
      ensures !old(cancelled) && (old(transport).value > tr || Recovers(script, maxReconnectAttempts)) ==> ok
    {
      var _, _ := Reconnect(WriteLoop, tr, script);
      ok := w == ReturnedOk;
      if ok { Leave(WriteLoop); }
    }

    /** What a round does after its write failed: stop when everything is closed by now, or reconnect. */
    method AfterFailure(tr: int, round: WriteRound) returns (ended: bool, answer: Option<bool>)
      requires OwnInv(View()) && transport == Some(tr) && holder == None && w == NoCall && r == NoCall
      modifies this
      ensures OwnInv(View()) && holder == None
      ensures !ended ==>
        w == NoCall && r == NoCall && !cancelled && transport.Some? && transport.value > tr
      ensures ended ==>
        (answer == None && cancelled && (old(cancelled) || round.closing))
        || (answer == Some(false) && w == ReturnedErr && !Repairs(round, maxReconnectAttempts))
    {
      answer, ended := None, true;
      if round.closing { BeginClose(); }
      if cancelled { return; }
      if round.readLoop.Some? { ReadLoopReconnects(round.readLoop.value); }
      var ok := Replace(tr, round.script);
      if ok { ended := false; } else { answer := Some(false); }
    }

    /** The inner loop of writeLoop, for request k once a transport exists, with the read loop
        reconnecting in between. Answers nil exactly when the last attempt succeeded, which is then the
        only one to; every repetition is on a later transport than the failed attempt before it; and
        without an answer the transport is closed. */
    method WriteRequest(k: int, rounds: seq<WriteRound>) returns (answer: Option<bool>, attempts: seq<Attempt>)
      requires OwnInv(View()) && transport.Some? && holder == None && w == NoCall && r == NoCall
      modifies this
      ensures OwnInv(View()) && holder == None
      ensures Ordered(attempts) && AllFor(attempts, k)
      ensures answer == Some(true) <==> attempts != [] && attempts[|attempts| - 1].ok
      ensures answer == Some(false) ==> attempts != [] && w == ReturnedErr
      ensures answer == None ==> cancelled
      ensures Outcomes(attempts, rounds)
      ensures answer == None ==>
        (old(cancelled) || |attempts| == |rounds| || (attempts != [] && rounds[|attempts| - 1].closing))
      ensures answer == Some(false) ==> !Repairs(rounds[|attempts| - 1], maxReconnectAttempts)
    {
      attempts := [];
      for i := 0 to |rounds|
        invariant OwnInv(View()) && transport.Some? && holder == None && w == NoCall && r == NoCall
        invariant |attempts| == i && Tried(attempts, rounds, k, transport.value)
        invariant cancelled ==> old(cancelled) && i == 0
      {
        var tr := transport.value;
        OneMoreAttempt(attempts, rounds, k, tr);
        attempts := attempts + [Attempt(k, tr, rounds[i].ok)];
        if rounds[i].ok { return Some(true), attempts; }
        var ended;
        ended, answer := AfterFailure(tr, rounds[i]);
        if ended { return; }
        TriedLater(attempts, rounds, k, tr + 1, transport.value);
      }
      NoneOk(attempts, k, transport.value);
      BeginClose();
      answer := None;
    }
  }

  /** After a round like this the reconnect of the write loop succeeds. */
  predicate Repairs(r: WriteRound, most: int) {
    !r.closing && r.readLoop.None? && Recovers(r.script, most)
  }

  ghost predicate AllFor(attempts: seq<Attempt>, k: int) {
    forall i :: 0 <= i < |attempts| ==> attempts[i].k == k
  }

  /** The attempts so far had the outcomes the rounds say. */
  ghost predicate Outcomes(attempts: seq<Attempt>, rounds: seq<WriteRound>) {
    |attempts| <= |rounds| && forall i :: 0 <= i < |attempts| ==> attempts[i].ok == rounds[i].ok
  }

  /** They were all for k, failed, and came one after another on transports before tr. */
  ghost predicate Tried(attempts: seq<Attempt>, rounds: seq<WriteRound>, k: int, tr: int) {
    FailedBefore(attempts, k, tr) && Ordered(attempts) && AllFor(attempts, k) && Outcomes(attempts, rounds)
  }

  lemma TriedLater(attempts: seq<Attempt>, rounds: seq<WriteRound>, k: int, tr: int, tr': int)
    requires Tried(attempts, rounds, k, tr) && tr <= tr'
    ensures Tried(attempts, rounds, k, tr')
  {}

  lemma OneMoreAttempt(attempts: seq<Attempt>, rounds: seq<WriteRound>, k: int, tr: int)
    requires Tried(attempts, rounds, k, tr) && |attempts| < |rounds|
    ensures var more := attempts + [Attempt(k, tr, rounds[|attempts|].ok)];
      && Ordered(more) && AllFor(more, k) && Outcomes(more, rounds)
      && (!rounds[|attempts|].ok ==> Tried(more, rounds, k, tr + 1))
  {}

  lemma NoneOk(attempts: seq<Attempt>, k: int, tr: int)
    requires FailedBefore(attempts, k, tr) && AllFor(attempts, k)
    ensures attempts != [] ==> !attempts[|attempts| - 1].ok
  {}
}
