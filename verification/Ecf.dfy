/** ECFSelector and the TransportInfos it keeps, as objects (transport/multi/ecf_selector.go,
    transport_info.go). */
module EcfObject {
  import opened Prelude
  import opened EcfDecision
  import opened TransportSelection
  import opened EcfSelection

  /** time.Duration: nanoseconds in an int64. */
  type Duration = d: int | -0x8000_0000_0000_0000 <= d <= 0x7FFF_FFFF_FFFF_FFFF

  /** What a metrics provider reports. */
  datatype Provider = Provider(rtt: Duration, rttvar: Duration, cwnd: U64, bytesInFlight: U64)

  const DEFAULT_RTT: Duration := 100_000_000
  const DEFAULT_RTTVAR: Duration := 50_000_000
  const DEFAULT_CWND: U64 := 14600

  /** rttToMicroseconds: Go divides toward zero, and a negative value wraps in the conversion. */
  function Microseconds(d: Duration): U64 {
    var n: int := d;
    (if n >= 0 then n / 1000 else -(-n / 1000)) % (MAX_UINT64 + 1)
  }

  /** The microseconds a duration can give: few, or, for a negative one, next to 2^64. */
  lemma MicrosecondsRange(d: Duration)
    ensures 0 <= Microseconds(d) <= 9_223_372_036_854_775
      || MAX_UINT64 - 9_223_372_036_854_775 < Microseconds(d) <= MAX_UINT64
    ensures d >= 0 ==> Microseconds(d) == d / 1000
    ensures -1000 < d < 0 ==> Microseconds(d) == 0
    ensures var n: int := d; n <= -1000 ==> Microseconds(d) == MAX_UINT64 + 1 - (-n) / 1000
  {}

  // ---- the base RTT ----

  /** One more RTT reading; 0 stands for none yet. */
  function Tracked(minRTT: Duration, rtt: Duration): Duration {
    if rtt > 0 && (minRTT == 0 || rtt < minRTT) then rtt else minRTT
  }

  function TrackedAll(rtts: seq<Duration>): Duration {
    if rtts == [] then 0 else Tracked(TrackedAll(rtts[..|rtts| - 1]), rtts[|rtts| - 1])
  }

  /** After any readings the base RTT is the least positive one, 0 when there was none. */
  lemma {:induction false} TrackedIsLeastPositive(rtts: seq<Duration>)
    ensures TrackedAll(rtts) == 0 <==> forall i :: 0 <= i < |rtts| ==> rtts[i] <= 0
    ensures TrackedAll(rtts) != 0 ==> TrackedAll(rtts) > 0 && TrackedAll(rtts) in rtts
    ensures forall i :: 0 <= i < |rtts| && rtts[i] > 0 ==> TrackedAll(rtts) <= rtts[i]
  {
    if rtts != [] {
      var n := |rtts| - 1;
      TrackedIsLeastPositive(rtts[..n]);
      assert forall i :: 0 <= i < n ==> rtts[..n][i] == rtts[i];
      assert rtts == rtts[..n] + [rtts[n]];
    }
  }

  class TransportInfo {
    var provider: Option<Provider>
    var sendingAllowed: bool
    var minRTT: Duration

    constructor (provider: Option<Provider>)
      ensures this.provider == provider && !sendingAllowed && minRTT == 0
    {
      this.provider, sendingAllowed, minRTT := provider, false, 0;
    }

    function SmoothedRTT(): Duration
      reads this
    {
      if provider.None? then DEFAULT_RTT else provider.value.rtt
    }

    function MinRTT(): Duration
      reads this
    {
      if minRTT == 0 then SmoothedRTT() else minRTT
    }

    /** What the selector reads of this transport. */
    function Measured(id: ID): Entry
      reads this
    {
      match provider
      case None =>
        Entry(id, Metrics(Microseconds(SmoothedRTT()), Microseconds(DEFAULT_RTTVAR), DEFAULT_CWND, 0, sendingAllowed),
              Microseconds(MinRTT()))
      case Some(p) =>
        Entry(id, Metrics(Microseconds(SmoothedRTT()), Microseconds(p.rttvar), p.cwnd, p.bytesInFlight, sendingAllowed),
              Microseconds(MinRTT()))
    }

    method Update()
      modifies this
      ensures provider == old(provider)
      ensures sendingAllowed <==> provider.Some? && provider.value.bytesInFlight < provider.value.cwnd
      ensures minRTT == if provider.None? then old(minRTT) else Tracked(old(minRTT), provider.value.rtt)
    {
      if provider.None? {
        sendingAllowed := false;
        return;
      }
      sendingAllowed := provider.value.bytesInFlight < provider.value.cwnd;
      var currentRTT := provider.value.rtt;
      if currentRTT > 0 && (minRTT == 0 || currentRTT < minRTT) { minRTT := currentRTT; }
    }
  }

  /** A transport is measured by what its provider reports, in microseconds, and by the least round trip kept
      of it; without a provider the defaults stand in. */
  lemma MeasuredReads(t: TransportInfo, id: ID)
    ensures t.Measured(id).id == id && t.Measured(id).metrics.sendingAllowed == t.sendingAllowed
    ensures t.provider.Some? && t.provider.value.rtt >= 0 && t.provider.value.rttvar >= 0 && t.minRTT >= 0 ==>
      var p := t.provider.value; var e := t.Measured(id);
      && e.metrics.rtt == p.rtt / 1000 && e.metrics.rttvar == p.rttvar / 1000
      && e.metrics.cwnd == p.cwnd && e.metrics.bytesInFlight == p.bytesInFlight
      && e.minRTT == if t.minRTT > 0 then t.minRTT / 1000 else p.rtt / 1000
    ensures t.provider.None? ==>
      var e := t.Measured(id);
      && e.metrics.rtt == 100_000 && e.metrics.rttvar == 50_000
      && e.metrics.cwnd == 14600 && e.metrics.bytesInFlight == 0
      && (t.minRTT == 0 ==> e.minRTT == 100_000)
  {}

  class ECFSelector {
    var transports: map<ID, TransportInfo>
    var waiting: bool
    var waitingForTransport: ID
    var queueSize: U64
    var lastSelectedTransport: ID
    var metricsBuffer: seq<Entry>

    ghost function View(): Memory
      reads this
    {
      Memory(waiting, waitingForTransport, lastSelectedTransport)
    }

    constructor ()
      ensures transports == map[] && View() == Memory(false, NO_TRANSPORT, NO_TRANSPORT) && queueSize == 0
    {
      transports, waiting, waitingForTransport, queueSize := map[], false, NO_TRANSPORT, 0;
      lastSelectedTransport, metricsBuffer := NO_TRANSPORT, [];
    }

    /** A new info for a known transport takes over its base RTT, then adds its own reading. */
    method UpdateTransport(id: ID, info: TransportInfo)
      modifies this`transports, info
      ensures transports == old(transports)[id := info]
      ensures info.provider == old(info.provider)
      ensures info.sendingAllowed <==>
        info.provider.Some? && info.provider.value.bytesInFlight < info.provider.value.cwnd
      ensures
        var kept := if id in old(transports) && old(transports[id].minRTT) > 0
                    then old(transports[id].minRTT) else old(info.minRTT);
        info.minRTT == if info.provider.None? then kept else Tracked(kept, info.provider.value.rtt)
    {
      if id in transports && transports[id].minRTT > 0 { info.minRTT := transports[id].minRTT; }
      info.Update();
      transports := transports[id := info];
    }

    /** The entries in the order in which Go walks the map. */
    ghost function Entries(order: seq<ID>): (es: seq<Entry>)
      reads this`transports, transports.Values
      ensures |es| == |order|
    {
      if order == [] then [] else Entries(order[..|order| - 1]) + [EntryFor(order[|order| - 1])]
    }

    ghost function EntryFor(id: ID): Entry
      reads this`transports, transports.Values
    {
      if id in transports then transports[id].Measured(id) else Entry(id, Metrics(0, 0, 0, 0, false), 0)
    }

    /** The scan over the transports: metricsBuffer is refilled and both minima are found. */
    method Measure(order: seq<ID>) returns (fastest: ID, available: ID)
      requires forall id :: id in order ==> id in transports
      modifies this`metricsBuffer
      ensures metricsBuffer == Entries(order)
      ensures fastest == ScanBase(metricsBuffer).id && available == ScanAvailable(metricsBuffer).id
    {
      var minBaseRTT, availableMinRTT := MAX_UINT64, MAX_UINT64;
      fastest, available := NO_TRANSPORT, NO_TRANSPORT;
      metricsBuffer := [];
      for i := 0 to |order|
        invariant metricsBuffer == Entries(order[..i])
        invariant ScanBase(metricsBuffer) == Best(minBaseRTT, fastest)
        invariant ScanAvailable(metricsBuffer) == Best(availableMinRTT, available)
      {
        assert order[..i + 1][..i] == order[..i];
        var e := transports[order[i]].Measured(order[i]);
        ghost var before := metricsBuffer;
        metricsBuffer := metricsBuffer + [e];
        assert metricsBuffer[..|metricsBuffer| - 1] == before;
        if e.minRTT < minBaseRTT { minBaseRTT, fastest := e.minRTT, e.id; }
        if e.metrics.sendingAllowed && e.metrics.rtt < availableMinRTT {
          availableMinRTT, available := e.metrics.rtt, e.id;
        }
      }
      assert order[..|order|] == order;
    }

    method GetMetricsFromBuffer(id: ID) returns (m: Metrics)
      ensures m == Find(metricsBuffer, id)
    {
      for i := 0 to |metricsBuffer|
        invariant Find(metricsBuffer, id) == Find(metricsBuffer[i..], id)
      {
        if metricsBuffer[i].id == id { return metricsBuffer[i].metrics; }
      }
      return Metrics(0, 0, 0, 0, false);
    }

    method SelectTransportECF(order: seq<ID>) returns (selected: ID)
      requires Enumerates(order, transports.Keys) && |order| == |transports|
      modifies this`metricsBuffer, this`waiting, this`waitingForTransport, this`lastSelectedTransport
      ensures var c := Select(old(Entries(order)), queueSize, old(View())); selected == c.id && View() == c.memory
    {
      if |transports| == 0 { return NO_TRANSPORT; }
      if |transports| == 1 {
        waiting := false;
        lastSelectedTransport := order[0];
        return order[0];
      }
      var fastest, available := Measure(order);
      if available == NO_TRANSPORT { return NO_TRANSPORT; }
      if fastest == available {
        waiting := false;
        lastSelectedTransport := fastest;
        return fastest;
      }
      var f := GetMetricsFromBuffer(fastest);
      var s := GetMetricsFromBuffer(available);
      if !FirstInequality(f, s, queueSize, waiting) {
        waiting := false;
        lastSelectedTransport := available;
        return available;
      }
      if SecondInequality(f, s, queueSize) {
        waiting := true;
        waitingForTransport := fastest;
        return NO_TRANSPORT;
      }
      waiting := false;
      lastSelectedTransport := available;
      return available;
    }
  }

  /** A state the selector can be in where wrap-around turns the decision: f was measured at 500 ns and
      now takes 2 microseconds with its window of 2^60 bytes full, s takes 1 microsecond and has a
      window of 2^62 bytes. Documented is to send on s; the selector waits for f. */
  lemma WrapAroundWaits(f: TransportInfo, s: TransportInfo)
    requires f.provider == Some(Provider(2000, 0, 0x1000_0000_0000_0000, 0x1000_0000_0000_0000))
    requires f.minRTT == TrackedAll([500, 2000]) && !f.sendingAllowed
    requires s.provider == Some(Provider(1000, 0, 0x4000_0000_0000_0000, 0))
    requires s.minRTT == TrackedAll([1000]) && s.sendingAllowed
    ensures var es := [f.Measured("f"), s.Measured("s")];
      && Select(es, 0, Memory(false, NO_TRANSPORT, NO_TRANSPORT)).id == NO_TRANSPORT
      && Fastest(es, es[0]) && FastestAvailable(es, es[1])
      && !FirstHolds(es[0].metrics, es[1].metrics, 0, false) && !SecondHolds(es[0].metrics, es[1].metrics, 0)
  {
    WrapAroundTracked();
    var es := [f.Measured("f"), s.Measured("s")];
    assert es[0] == Entry("f", Metrics(2, 0, 0x1000_0000_0000_0000, 0x1000_0000_0000_0000, false), 0);
    assert es[1] == Entry("s", Metrics(1, 0, 0x4000_0000_0000_0000, 0, true), 1);
    WrapAroundDecision(es[0].metrics, es[1].metrics);
    WrapAroundScans(es);
  }

  lemma WrapAroundTracked()
    ensures TrackedAll([500, 2000]) == 500 && TrackedAll([1000]) == 1000
  {
    assert [500, 2000][..1] == [500] && [500][..0] == [] && [1000][..0] == [];
    assert TrackedAll([500]) == 500;
  }

  lemma WrapAroundDecision(f: Metrics, s: Metrics)
    requires f.rtt == 2 && f.rttvar == 0 && f.cwnd == 0x1000_0000_0000_0000
    requires s.rtt == 1 && s.rttvar == 0 && s.cwnd == 0x4000_0000_0000_0000
    ensures Waits(f, s, 0, false) && !FirstHolds(f, s, 0, false) && !SecondHolds(f, s, 0)
  {
    assert Left(f, 0) == 0x1_0000_0000_0000_0000 && Right(f, s, false) == 0x4000_0000_0000_0000;
    assert LhsS(s, 0) == 0x4000_0000_0000_0000 && RhsS(f, s) == 0x1_0000_0000_0000_0000;
    FirstComparesRemainders(f, s, 0, false);
    SecondComparesRemainders(f, s, 0);
  }

  lemma WrapAroundScans(es: seq<Entry>)
    requires |es| == 2 && es[0].id == "f" && es[1].id == "s"
    requires es[0].minRTT == 0 && es[1].minRTT == 1
    requires !es[0].metrics.sendingAllowed && es[1].metrics.sendingAllowed && es[1].metrics.rtt == 1
    ensures ScanBase(es).id == "f" && ScanAvailable(es).id == "s"
    ensures Find(es, "f") == es[0].metrics && Find(es, "s") == es[1].metrics
  {
    assert es[..1] == [es[0]] && [es[0]][..0] == [];
    assert ScanBase([es[0]]) == Best(0, "f") && ScanAvailable([es[0]]) == NOTHING;
    assert es[1..] == [es[1]];
  }
}
