/**
 What ECFSelector picks (transport/multi/ecf_selector.go:115-305), as functions of the metrics it
 gathered, in the order in which it walked its map.
 */
module EcfSelection {
  import opened Prelude
  import opened EcfDecision
  import opened TransportSelection

  /** ecfTransportMetricEntry. */
  datatype Entry = Entry(id: ID, metrics: Metrics, minRTT: U64)

  /** The least so far and whose it is, as the scan keeps them. */
  datatype Best = Best(least: U64, id: ID)

  const NOTHING := Best(MAX_UINT64, NO_TRANSPORT)

  /** Fastest by base RTT. */
  function ScanBase(es: seq<Entry>): Best {
    if es == [] then NOTHING
    else
      var b, e := ScanBase(es[..|es| - 1]), es[|es| - 1];
      if e.minRTT < b.least then Best(e.minRTT, e.id) else b
  }

  /** Fastest by smoothed RTT among those allowed to send. */
  function ScanAvailable(es: seq<Entry>): Best {
    if es == [] then NOTHING
    else
      var b, e := ScanAvailable(es[..|es| - 1]), es[|es| - 1];
      if e.metrics.sendingAllowed && e.metrics.rtt < b.least then Best(e.metrics.rtt, e.id) else b
  }

  /** getMetricsFromBuffer. */
  function Find(es: seq<Entry>, id: ID): Metrics {
    if es == [] then Metrics(0, 0, 0, 0, false)
    else if es[0].id == id then es[0].metrics
    else Find(es[1..], id)
  }

  /** What the selector remembers between calls. */
  datatype Memory = Memory(waiting: bool, waitingFor: ID, last: ID)

  datatype Choice = Choice(id: ID, memory: Memory)

  function Send(id: ID, m: Memory): Choice { Choice(id, m.(waiting := false, last := id)) }

  function Select(es: seq<Entry>, queue: U64, m: Memory): Choice {
    if |es| == 0 then Choice(NO_TRANSPORT, m)
    else if |es| == 1 then Send(es[0].id, m)
    else
      var f, a := ScanBase(es).id, ScanAvailable(es).id;
      if a == NO_TRANSPORT then Choice(NO_TRANSPORT, m)
      else if f == a then Send(a, m)
      else if Waits(Find(es, f), Find(es, a), queue, m.waiting) then
        Choice(NO_TRANSPORT, m.(waiting := true, waitingFor := f))
      else Send(a, m)
  }

  // ---- the scans find minima ----

  /** One entry per transport, none without an ID, no RTT at the initial value of the scans. */
  ghost predicate WellFormed(es: seq<Entry>) {
    && (forall i, j :: 0 <= i < j < |es| ==> es[i].id != es[j].id)
    && (forall i :: 0 <= i < |es| ==>
          es[i].id != NO_TRANSPORT && es[i].minRTT < MAX_UINT64 && es[i].metrics.rtt < MAX_UINT64)
  }

  /** e is an entry with the least base RTT. */
  ghost predicate Fastest(es: seq<Entry>, e: Entry) {
    e in es && forall i :: 0 <= i < |es| ==> e.minRTT <= es[i].minRTT
  }

  /** e may send and has the least smoothed RTT of those that may. */
  ghost predicate FastestAvailable(es: seq<Entry>, e: Entry) {
    && e in es && e.metrics.sendingAllowed
    && forall i :: 0 <= i < |es| && es[i].metrics.sendingAllowed ==> e.metrics.rtt <= es[i].metrics.rtt
  }

  ghost predicate SomeAvailable(es: seq<Entry>) {
    exists i :: 0 <= i < |es| && es[i].metrics.sendingAllowed
  }

  lemma {:induction false} ScanBaseFindsFastest(es: seq<Entry>) returns (e: Entry)
    requires WellFormed(es) && es != []
    ensures Fastest(es, e) && ScanBase(es) == Best(e.minRTT, e.id)
  {
    var n := |es| - 1;
    e := es[n];
    if n > 0 {
      var e0 := ScanBaseFindsFastest(es[..n]);
      assert forall i :: 0 <= i < n ==> es[..n][i] == es[i];
      if !(es[n].minRTT < e0.minRTT) { e := e0; }
    }
  }

  lemma {:induction false} ScanAvailableFinds(es: seq<Entry>) returns (e: Option<Entry>)
    requires WellFormed(es)
    ensures e.Some? <==> SomeAvailable(es)
    ensures e.Some? ==> FastestAvailable(es, e.value) && ScanAvailable(es) == Best(e.value.metrics.rtt, e.value.id)
    ensures e.None? ==> ScanAvailable(es) == NOTHING
  {
    e := None;
    if es != [] {
      var n := |es| - 1;
      var e0 := ScanAvailableFinds(es[..n]);
      assert forall i :: 0 <= i < n ==> es[..n][i] == es[i];
      if es[n].metrics.sendingAllowed && (e0.None? || es[n].metrics.rtt < e0.value.metrics.rtt) {
        e := Some(es[n]);
      } else {
        e := e0;
        if SomeAvailable(es) {
          var i :| 0 <= i < |es| && es[i].metrics.sendingAllowed;
          assert i < n ==> es[..n][i].metrics.sendingAllowed;
        }
      }
    }
  }

  lemma {:induction false} FindFinds(es: seq<Entry>, e: Entry)
    requires e in es && forall i, j :: 0 <= i < j < |es| ==> es[i].id != es[j].id
    ensures Find(es, e.id) == e.metrics
  {
    var k :| 0 <= k < |es| && es[k] == e;
    if k > 0 {
      assert es[1..][k - 1] == e && es[0].id != es[k].id;
      FindFinds(es[1..], e);
    }
  }

  // ---- what is selected ----

  /** What the selector does when f is fastest and a is the fastest available. */
  function Decision(f: Entry, a: Entry, queue: U64, m: Memory): Choice {
    if f.id != a.id && Waits(f.metrics, a.metrics, queue, m.waiting)
    then Choice(NO_TRANSPORT, Memory(true, f.id, m.last))
    else Choice(a.id, Memory(false, m.waitingFor, a.id))
  }

  /** The two transports everything depends on. */
  ghost predicate Minima(es: seq<Entry>, f: Entry, a: Entry) {
    && Fastest(es, f) && ScanBase(es).id == f.id && Find(es, f.id) == f.metrics
    && (SomeAvailable(es) ==>
          && FastestAvailable(es, a) && ScanAvailable(es).id == a.id && Find(es, a.id) == a.metrics
          && a.id != NO_TRANSPORT)
    && (!SomeAvailable(es) ==> ScanAvailable(es).id == NO_TRANSPORT)
  }

  lemma ScansFindMinima(es: seq<Entry>) returns (f: Entry, a: Entry)
    requires WellFormed(es) && es != []
    ensures Minima(es, f, a)
  {
    f := ScanBaseFindsFastest(es);
    FindFinds(es, f);
    var found := ScanAvailableFinds(es);
    a := f;
    if found.Some? {
      a := found.value;
      FindFinds(es, a);
    }
  }

  lemma SelectDecides(es: seq<Entry>, queue: U64, m: Memory, f: Entry, a: Entry)
    requires |es| >= 2 && SomeAvailable(es) && Minima(es, f, a)
    ensures Select(es, queue, m) == Decision(f, a, queue, m)
  {}

  /** With two or more transports: nothing is selected when none may send; otherwise the selector
      either sends on a fastest available transport, or waits for a transport with the least base
      RTT because the inequalities say so. */
  lemma SelectMeans(es: seq<Entry>, queue: U64, m: Memory) returns (f: Entry, a: Entry)
    requires WellFormed(es) && |es| >= 2
    ensures !SomeAvailable(es) ==> Select(es, queue, m) == Choice(NO_TRANSPORT, m)
    ensures SomeAvailable(es) ==>
      && Fastest(es, f) && FastestAvailable(es, a)
      && Select(es, queue, m) ==
           if f.id != a.id && Waits(f.metrics, a.metrics, queue, m.waiting)
           then Choice(NO_TRANSPORT, Memory(true, f.id, m.last))
           else Choice(a.id, Memory(false, m.waitingFor, a.id))
  {
    f, a := ScansFindMinima(es);
    if SomeAvailable(es) { SelectDecides(es, queue, m, f, a); }
  }

  /** Without a transport nothing is selected; a single one is, even when it may not send. */
  lemma SelectsFromFew(es: seq<Entry>, queue: U64, m: Memory)
    ensures es == [] ==> Select(es, queue, m) == Choice(NO_TRANSPORT, m)
    ensures |es| == 1 ==> Select(es, queue, m) == Choice(es[0].id, Memory(false, m.waitingFor, es[0].id))
  {}

  ghost predicate AllBounded(es: seq<Entry>) {
    forall i :: 0 <= i < |es| ==> Bounded(es[i].metrics)
  }

  lemma DecisionRepeats(f: Entry, a: Entry, queue: U64, m: Memory)
    requires Bounded(f.metrics) && Bounded(a.metrics) && 0 <= queue < WINDOW_BOUND
    requires a.id != NO_TRANSPORT && Decision(f, a, queue, m).id == NO_TRANSPORT
    ensures Decision(f, a, queue, Decision(f, a, queue, m).memory).id == NO_TRANSPORT
  {
    WaitingIsSticky(f.metrics, a.metrics, queue);
  }

  /** A wait repeats as long as nothing changes. */
  lemma WaitRepeats(es: seq<Entry>, queue: U64, m: Memory)
    requires WellFormed(es) && AllBounded(es) && 0 <= queue < WINDOW_BOUND && |es| >= 2
    requires SomeAvailable(es) && Select(es, queue, m).id == NO_TRANSPORT
    ensures Select(es, queue, Select(es, queue, m).memory).id == NO_TRANSPORT
  {
    var f, a := ScansFindMinima(es);
    SelectDecides(es, queue, m, f, a);
    SelectDecides(es, queue, Decision(f, a, queue, m).memory, f, a);
    DecisionRepeats(f, a, queue, m);
  }

  ghost predicate NoTies(es: seq<Entry>) {
    && (forall i, j :: 0 <= i < j < |es| ==> es[i].minRTT != es[j].minRTT)
    && (forall i, j :: 0 <= i < j < |es| && es[i].metrics.sendingAllowed && es[j].metrics.sendingAllowed ==>
          es[i].metrics.rtt != es[j].metrics.rtt)
  }

  lemma FastestUnique(es: seq<Entry>, d: Entry, e: Entry)
    requires NoTies(es) && Fastest(es, d) && Fastest(es, e)
    ensures d == e
  {
    var i :| 0 <= i < |es| && es[i] == d;
    var j :| 0 <= j < |es| && es[j] == e;
  }

  lemma FastestAvailableUnique(es: seq<Entry>, d: Entry, e: Entry)
    requires NoTies(es) && FastestAvailable(es, d) && FastestAvailable(es, e)
    ensures d == e
  {
    var i :| 0 <= i < |es| && es[i] == d;
    var j :| 0 <= j < |es| && es[j] == e;
  }

  /** Without ties the order in which the map is walked does not matter. */
  lemma OrderDoesNotMatter(es: seq<Entry>, es': seq<Entry>, queue: U64, m: Memory)
    requires WellFormed(es) && WellFormed(es') && NoTies(es) && |es| == |es'| && |es| >= 2
    requires forall e :: e in es <==> e in es'
    ensures Select(es, queue, m) == Select(es', queue, m)
  {
    var f, a := SelectMeans(es, queue, m);
    var f', a' := SelectMeans(es', queue, m);
    if SomeAvailable(es) {
      var i :| 0 <= i < |es| && es[i].metrics.sendingAllowed;
      assert es[i] in es';
    }
    if SomeAvailable(es') {
      var i :| 0 <= i < |es'| && es'[i].metrics.sendingAllowed;
      assert es'[i] in es;
      SameMinima(es, es', f', a');
      FastestUnique(es, f, f');
      FastestAvailableUnique(es, a, a');
    }
  }

  lemma SameMinima(es: seq<Entry>, es': seq<Entry>, f: Entry, a: Entry)
    requires forall e :: e in es <==> e in es'
    requires Fastest(es', f) && FastestAvailable(es', a)
    ensures Fastest(es, f) && FastestAvailable(es, a)
  {
    forall i | 0 <= i < |es|
      ensures f.minRTT <= es[i].minRTT
      ensures es[i].metrics.sendingAllowed ==> a.metrics.rtt <= es[i].metrics.rtt
    {
      assert es[i] in es';
    }
  }

  // ---- Get ----

  /** What one look of Get meets: the transports and the queue size at that moment. */
  datatype Look = Look(entries: seq<Entry>, queue: U64)

  /** How far Get has come: its answer, None while it is still polling, and what the selector remembers. */
  datatype Polled = Polled(answer: Option<ID>, memory: Memory)

  /** Get's polling loop. */
  function Get(looks: seq<Look>, m: Memory): Polled {
    if looks == [] then Polled(None, m)
    else
      var c := Select(looks[0].entries, looks[0].queue, m);
      if c.id != NO_TRANSPORT then Polled(Some(c.id), c.memory)
      else if !c.memory.waiting then Polled(Some(NO_TRANSPORT), c.memory)
      else Get(looks[1..], c.memory)
  }

  /** There is nothing to send on: no transport at all, or none of several may send. A single one is
      selected whether it may send or not. */
  ghost predicate NothingAvailable(es: seq<Entry>) { es == [] || (|es| >= 2 && !SomeAvailable(es)) }

  ghost predicate AllWellFormed(looks: seq<Look>) {
    forall i :: 0 <= i < |looks| ==> WellFormed(looks[i].entries)
  }

  /** A look with nothing available changes nothing; any other one selects and stops waiting, or waits. */
  lemma LookMeans(es: seq<Entry>, queue: U64, m: Memory)
    requires WellFormed(es)
    ensures NothingAvailable(es) ==> Select(es, queue, m) == Choice(NO_TRANSPORT, m)
    ensures !NothingAvailable(es) ==>
      (Select(es, queue, m).id == NO_TRANSPORT <==> Select(es, queue, m).memory.waiting)
  {
    if |es| >= 2 { var _, _ := SelectMeans(es, queue, m); }
  }

  lemma RestWellFormed(looks: seq<Look>)
    requires AllWellFormed(looks) && looks != []
    ensures AllWellFormed(looks[1..])
  {
    assert forall i :: 0 <= i < |looks| - 1 ==> looks[1..][i] == looks[i + 1];
  }

  /** Whatever was remembered when it was called, Get returns the empty ID exactly when it was not waiting
      and its first look finds nothing available; and it never returns waiting. */
  lemma {:induction false} GetReturnsEmptyIff(looks: seq<Look>, m: Memory)
    requires AllWellFormed(looks)
    ensures Get(looks, m).answer == Some(NO_TRANSPORT) <==>
      looks != [] && !m.waiting && NothingAvailable(looks[0].entries)
    ensures Get(looks, m).answer.Some? ==> !Get(looks, m).memory.waiting
    decreases |looks|
  {
    if looks != [] {
      LookMeans(looks[0].entries, looks[0].queue, m);
      RestWellFormed(looks);
      GetReturnsEmptyIff(looks[1..], Select(looks[0].entries, looks[0].queue, m).memory);
    }
  }

  /** What is remembered after calls of Get, one after another. */
  function Remembered(calls: seq<seq<Look>>, m: Memory): Memory {
    if calls == [] then m else Get(calls[|calls| - 1], Remembered(calls[..|calls| - 1], m)).memory
  }

  /** Every one of the calls returns. */
  ghost predicate AllReturn(calls: seq<seq<Look>>, m: Memory) {
    calls != [] ==>
      var n := |calls| - 1;
      && AllReturn(calls[..n], m)
      && AllWellFormed(calls[n]) && Get(calls[n], Remembered(calls[..n], m)).answer.Some?
  }

  lemma {:induction false} CallsLeaveNotWaiting(calls: seq<seq<Look>>, m: Memory)
    requires AllReturn(calls, m) && !m.waiting
    ensures !Remembered(calls, m).waiting
  {
    if calls != [] {
      var n := |calls| - 1;
      GetReturnsEmptyIff(calls[n], Remembered(calls[..n], m));
    }
  }

  /** A selector starts without waiting. So however many calls came before, the next one returns the empty
      ID exactly when its first look finds nothing available, whatever its later looks find. */
  lemma EmptyIffFirstLookFindsNothing(calls: seq<seq<Look>>, looks: seq<Look>, m: Memory)
    requires AllReturn(calls, m) && !m.waiting && AllWellFormed(looks)
    ensures Get(looks, Remembered(calls, m)).answer == Some(NO_TRANSPORT) <==>
      looks != [] && NothingAvailable(looks[0].entries)
  {
    CallsLeaveNotWaiting(calls, m);
    GetReturnsEmptyIff(looks, Remembered(calls, m));
  }

  ghost predicate AllNothing(looks: seq<Look>) {
    forall i :: 0 <= i < |looks| ==> WellFormed(looks[i].entries) && NothingAvailable(looks[i].entries)
  }

  lemma {:induction false} WaitingPollsOn(looks: seq<Look>, m: Memory)
    requires AllNothing(looks) && m.waiting
    ensures Get(looks, m) == Polled(None, m)
    decreases |looks|
  {
    if looks != [] {
      LookMeans(looks[0].entries, looks[0].queue, m);
      assert forall i :: 0 <= i < |looks| - 1 ==> looks[1..][i] == looks[i + 1];
      WaitingPollsOn(looks[1..], m);
    }
  }

  /** Get is documented to return the empty ID when nothing is available. But when its first look decides
      to wait, it polls for as long as all later looks find nothing available. */
  lemma PollsOnAfterAWait(first: Look, rest: seq<Look>, m: Memory)
    requires WellFormed(first.entries) && !NothingAvailable(first.entries) && AllNothing(rest)
    requires Select(first.entries, first.queue, m).id == NO_TRANSPORT
    ensures Get([first] + rest, m).answer == None
  {
    LookMeans(first.entries, first.queue, m);
    assert ([first] + rest)[1..] == rest;
    WaitingPollsOn(rest, Select(first.entries, first.queue, m).memory);
  }

  /** Two transports, the first ten times as fast as the second. */
  function FastAndSlow(fast: ID, slow: ID, slowMaySend: bool): seq<Entry> {
    [Entry(fast, Metrics(10, 0, 100, 100, false), 10), Entry(slow, Metrics(100, 0, 100, 0, slowMaySend), 100)]
  }

  /** For instance: the slow one may send and the selector waits for the fast one; then the slow one may
      not send either. */
  lemma PollsOnInstance(fast: ID, slow: ID, m: Memory)
    requires fast != slow && fast != NO_TRANSPORT && slow != NO_TRANSPORT && !m.waiting
    ensures Get([Look(FastAndSlow(fast, slow, true), 0), Look(FastAndSlow(fast, slow, false), 0)], m).answer == None
    ensures NothingAvailable(FastAndSlow(fast, slow, false))
  {
    var first, second := Look(FastAndSlow(fast, slow, true), 0), Look(FastAndSlow(fast, slow, false), 0);
    FastAndSlowWaits(fast, slow, m);
    PollsOnAfterAWait(first, [second], m);
    assert [first] + [second] == [first, second];
  }

  lemma FastAndSlowWaits(fast: ID, slow: ID, m: Memory)
    requires fast != slow && fast != NO_TRANSPORT && slow != NO_TRANSPORT && !m.waiting
    ensures var es := FastAndSlow(fast, slow, true);
      WellFormed(es) && !NothingAvailable(es) && Select(es, 0, m).id == NO_TRANSPORT
  {
    var es := FastAndSlow(fast, slow, true);
    assert es[1].metrics.sendingAllowed;
    var f, a := SelectMeans(es, 0, m);
    FastAndSlowMinima(fast, slow, f, a);
    IdleWaitsIff(es[0].metrics, es[1].metrics, false);
  }

  lemma FastAndSlowMinima(fast: ID, slow: ID, f: Entry, a: Entry)
    requires var es := FastAndSlow(fast, slow, true); Fastest(es, f) && FastestAvailable(es, a)
    ensures var es := FastAndSlow(fast, slow, true); f == es[0] && a == es[1]
  {
    assert FastAndSlow(fast, slow, true)[0].minRTT == 10;
  }
}
