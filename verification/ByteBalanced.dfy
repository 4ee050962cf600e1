/** Balancing by bytes (transport/multi/byte_balanced_selector.go). */
module ByteBalanced {
  import opened Prelude
  import opened TransportSelection

  type Counters = map<ID, U64>

  /** accumulatedBytes[id]; Go reads 0 for a missing key. */
  function Count(bytes: Counters, id: ID): U64 { if id in bytes then bytes[id] else 0 }

  function Charge(bytes: Counters, id: ID, size: int): Counters {
    bytes[id := Add64(Count(bytes, id), size)]
  }

  /** The least counter so far and whose it is, as the scan keeps them. */
  datatype Best = Best(least: U64, id: ID)

  function Scan(ids: seq<ID>, transports: map<ID, Status>, bytes: Counters): Best {
    if ids == [] then Best(MAX_UINT64, NO_TRANSPORT)
    else
      var b, id := Scan(ids[..|ids| - 1], transports, bytes), ids[|ids| - 1];
      if id in transports && Count(bytes, id) < b.least then Best(Count(bytes, id), id) else b
  }

  /** selectMinBytes; `mt` is None until a multi transport is set. */
  function SelectMinBytes(ids: seq<ID>, mt: Option<map<ID, Status>>, bytes: Counters): ID {
    if ids == [] then NO_TRANSPORT
    else match mt
      case None => ids[0]
      case Some(transports) => Scan(ids, transports, bytes).id
  }

  lemma {:induction false} ScanFindsLeast(ids: seq<ID>, transports: map<ID, Status>, bytes: Counters)
    requires forall i :: 0 <= i < |ids| ==> 0 <= Count(bytes, ids[i])
    ensures var b := Scan(ids, transports, bytes);
      && b.least <= MAX_UINT64
      && (forall i :: 0 <= i < |ids| && ids[i] in transports ==>
            b.least <= Count(bytes, ids[i]) || Count(bytes, ids[i]) >= MAX_UINT64)
      && (b.least < MAX_UINT64 ==> b.id in ids && b.id in transports && b.least == Count(bytes, b.id))
      && (b.least == MAX_UINT64 ==> b.id == NO_TRANSPORT)
  {
    if ids != [] {
      var n := |ids| - 1;
      assert forall i :: 0 <= i < n ==> ids[..n][i] == ids[i];
      ScanFindsLeast(ids[..n], transports, bytes);
    }
  }

  /** Of several with the least counter the scan finds the first listed. */
  lemma {:induction false} ScanFindsFirst(ids: seq<ID>, transports: map<ID, Status>, bytes: Counters) returns (i: nat)
    requires forall i :: 0 <= i < |ids| ==> 0 <= Count(bytes, ids[i])
    requires Scan(ids, transports, bytes).least < MAX_UINT64
    ensures var b := Scan(ids, transports, bytes);
      && i < |ids| && ids[i] == b.id && b.id in transports && Count(bytes, b.id) == b.least
      && forall j :: 0 <= j < i && ids[j] in transports ==> b.least < Count(bytes, ids[j])
  {
    var n := |ids| - 1;
    var before := ids[..n];
    assert forall j :: 0 <= j < n ==> before[j] == ids[j];
    var b := Scan(before, transports, bytes);
    if ids[n] in transports && Count(bytes, ids[n]) < b.least {
      i := n;
      ScanFindsLeast(before, transports, bytes);
    } else {
      i := ScanFindsFirst(before, transports, bytes);
    }
  }

  // ---- runs of Get ----

  /** One Get: what it was asked, what it saw, what it returned. */
  datatype Call = Call(size: int, mt: Option<map<ID, Status>>, id: ID)

  function Charged(bytes: Counters, c: Call): Counters {
    if c.id != NO_TRANSPORT && c.size > 0 then Charge(bytes, c.id, c.size) else bytes
  }

  ghost predicate Answers(ids: seq<ID>, bytes: Counters, c: Call) {
    var selected := SelectMinBytes(ids, c.mt, bytes);
    if c.mt.None? then c.id == selected else Acceptable(selected, c.mt.value, c.id)
  }

  function CountersAfter(calls: seq<Call>): Counters {
    if calls == [] then map[] else Charged(CountersAfter(calls[..|calls| - 1]), calls[|calls| - 1])
  }

  ghost predicate Run(ids: seq<ID>, calls: seq<Call>) {
    forall i :: 0 <= i < |calls| ==> Answers(ids, CountersAfter(calls[..i]), calls[i])
  }

  /** The positive sizes of the Gets that returned `id`. */
  function BytesGiven(calls: seq<Call>, id: ID): nat {
    if calls == [] then 0
    else
      var c := calls[|calls| - 1];
      BytesGiven(calls[..|calls| - 1], id) + (if c.id == id && c.size > 0 then c.size else 0)
  }

  /** The positive sizes of all Gets that returned an ID. */
  function BytesTotal(calls: seq<Call>): nat {
    if calls == [] then 0
    else
      var c := calls[|calls| - 1];
      BytesTotal(calls[..|calls| - 1]) + (if c.id != NO_TRANSPORT && c.size > 0 then c.size else 0)
  }

  lemma AddMod(a: int, b: int)
    ensures (a % (MAX_UINT64 + 1) + b) % (MAX_UINT64 + 1) == (a + b) % (MAX_UINT64 + 1)
  {}

  /** In every run, fallback included, each counter is what the Gets that returned its ID were asked
      to send, modulo 2^64; nothing is charged to the ID the selector had preferred. */
  lemma {:induction false} CountersAreBytesGiven(calls: seq<Call>, id: ID)
    requires id != NO_TRANSPORT
    ensures Count(CountersAfter(calls), id) == BytesGiven(calls, id) % (MAX_UINT64 + 1)
  {
    if calls != [] {
      var n := |calls| - 1;
      CountersAreBytesGiven(calls[..n], id);
      AddMod(BytesGiven(calls[..n], id), if calls[n].size > 0 then calls[n].size else 0);
    }
  }

  lemma {:induction false} GivenAtMostTotal(calls: seq<Call>, id: ID)
    requires id != NO_TRANSPORT
    ensures BytesGiven(calls, id) <= BytesTotal(calls)
  {
    if calls != [] { GivenAtMostTotal(calls[..|calls| - 1], id); }
  }

  function SumCounts(bytes: Counters, ids: seq<ID>): int {
    if ids == [] then 0 else SumCounts(bytes, ids[..|ids| - 1]) + Count(bytes, ids[|ids| - 1])
  }

  ghost predicate Distinct(ids: seq<ID>) { forall i, j :: 0 <= i < j < |ids| ==> ids[i] != ids[j] }

  lemma {:induction false} SumCharge(bytes: Counters, ids: seq<ID>, id: ID, size: int)
    requires Distinct(ids)
    ensures SumCounts(Charge(bytes, id, size), ids) ==
      SumCounts(bytes, ids) + (if id in ids then Count(Charge(bytes, id, size), id) - Count(bytes, id) else 0)
  {
    if ids != [] {
      var n := |ids| - 1;
      assert ids == ids[..n] + [ids[n]];
      SumCharge(bytes, ids[..n], id, size);
    }
  }

  /** Together the counters of all IDs ever returned add up to all that was sent. */
  lemma {:induction false} CountersAddUp(calls: seq<Call>, ids: seq<ID>)
    requires Distinct(ids) && BytesTotal(calls) <= MAX_UINT64
    requires forall i :: 0 <= i < |calls| ==> calls[i].id == NO_TRANSPORT || calls[i].id in ids
    ensures SumCounts(CountersAfter(calls), ids) == BytesTotal(calls)
  {
    if calls == [] {
      SumOfNothing(ids);
    } else {
      var n := |calls| - 1;
      var c := calls[n];
      assert forall i :: 0 <= i < n ==> calls[..n][i] == calls[i];
      CountersAddUp(calls[..n], ids);
      if c.id != NO_TRANSPORT && c.size > 0 {
        SumCharge(CountersAfter(calls[..n]), ids, c.id, c.size);
        CountersAreBytesGiven(calls[..n], c.id);
        GivenAtMostTotal(calls[..n], c.id);
      }
    }
  }

  lemma {:induction false} SumOfNothing(ids: seq<ID>)
    ensures SumCounts(map[], ids) == 0
  {
    if ids != [] { SumOfNothing(ids[..|ids| - 1]); }
  }

  // ---- the spread ----

  predicate Connects(ids: seq<ID>, mt: Option<map<ID, Status>>) {
    mt.Some? && forall id :: id in ids ==> id in mt.value && mt.value[id] == Connected
  }

  ghost predicate Spread(ids: seq<ID>, bytes: Counters, most: int) {
    forall a, b :: a in ids && b in ids ==> Count(bytes, a) - Count(bytes, b) <= most
  }

  /** The Get goes to a listed transport with the least counter. */
  lemma ConnectedGetPicksLeast(ids: seq<ID>, bytes: Counters, c: Call)
    requires ids != [] && NO_TRANSPORT !in ids && Connects(ids, c.mt) && Answers(ids, bytes, c)
    requires forall id :: id in ids ==> 0 <= Count(bytes, id) < MAX_UINT64
    ensures c.id in ids && forall id :: id in ids ==> Count(bytes, c.id) <= Count(bytes, id)
  {
    ScanFindsLeast(ids, c.mt.value, bytes);
    assert ids[0] in ids && ids[0] in c.mt.value;
    forall id | id in ids ensures Scan(ids, c.mt.value, bytes).least <= Count(bytes, id) {
      var i :| 0 <= i < |ids| && ids[i] == id;
    }
  }

  lemma ChargeCounts(bytes: Counters, id: ID, size: int, x: ID)
    requires 0 <= Count(bytes, id) && 0 <= size && Count(bytes, id) + size <= MAX_UINT64
    ensures Count(Charge(bytes, id, size), x) == Count(bytes, x) + if x == id then size else 0
  {}

  lemma ChargeSpreads(ids: seq<ID>, bytes: Counters, id: ID, size: int, most: int)
    requires Spread(ids, bytes, most) && 0 < size <= most && id in ids
    requires 0 <= Count(bytes, id) && Count(bytes, id) + size <= MAX_UINT64
    requires forall b :: b in ids ==> Count(bytes, id) <= Count(bytes, b)
    ensures Spread(ids, Charge(bytes, id, size), most)
  {
    var bytes' := Charge(bytes, id, size);
    forall a, b | a in ids && b in ids ensures Count(bytes', a) - Count(bytes', b) <= most {
      ChargeCounts(bytes, id, size, a);
      ChargeCounts(bytes, id, size, b);
      assert Count(bytes, a) - Count(bytes, b) <= most;
    }
  }

  lemma CallSpreads(ids: seq<ID>, bytes: Counters, c: Call, most: int, room: int)
    requires ids != [] && NO_TRANSPORT !in ids && Connects(ids, c.mt) && Answers(ids, bytes, c)
    requires Spread(ids, bytes, most) && c.size <= most && 0 <= room
    requires forall id :: id in ids ==> 0 <= Count(bytes, id) && Count(bytes, id) + room < MAX_UINT64
    requires c.size <= room
    ensures Spread(ids, Charged(bytes, c), most)
  {
    ConnectedGetPicksLeast(ids, bytes, c);
    if c.size > 0 { ChargeSpreads(ids, bytes, c.id, c.size, most); }
  }

  lemma CountsBounded(ids: seq<ID>, calls: seq<Call>)
    requires NO_TRANSPORT !in ids && BytesTotal(calls) < MAX_UINT64
    ensures forall id :: id in ids ==> 0 <= Count(CountersAfter(calls), id) <= BytesTotal(calls)
  {
    forall id | id in ids ensures 0 <= Count(CountersAfter(calls), id) <= BytesTotal(calls) {
      CountersAreBytesGiven(calls, id);
      GivenAtMostTotal(calls, id);
    }
  }

  /** One more Get. */
  lemma StaysClose(ids: seq<ID>, calls: seq<Call>, c: Call, most: int)
    requires ids != [] && NO_TRANSPORT !in ids && c.size <= most
    requires Connects(ids, c.mt) && Answers(ids, CountersAfter(calls), c)
    requires BytesTotal(calls + [c]) < MAX_UINT64 && Spread(ids, CountersAfter(calls), most)
    ensures Spread(ids, CountersAfter(calls + [c]), most)
  {
    assert (calls + [c])[..|calls|] == calls;
    CountsBounded(ids, calls);
    ConnectedGetPicksLeast(ids, CountersAfter(calls), c);
    CallSpreads(ids, CountersAfter(calls), c, most, Max(c.size, 0));
  }

  /** A run in which every listed transport stays connected and no message exceeds `most`. */
  ghost predicate Steady(ids: seq<ID>, calls: seq<Call>, most: int) {
    && Run(ids, calls)
    && (forall i :: 0 <= i < |calls| ==> Connects(ids, calls[i].mt) && calls[i].size <= most)
  }

  lemma SteadyPrefix(ids: seq<ID>, calls: seq<Call>, most: int, n: nat)
    requires Steady(ids, calls, most) && n < |calls|
    ensures Steady(ids, calls[..n], most)
    ensures Answers(ids, CountersAfter(calls[..n]), calls[n])
    ensures Connects(ids, calls[n].mt) && calls[n].size <= most
  {
    forall i | 0 <= i < n ensures Answers(ids, CountersAfter(calls[..n][..i]), calls[..n][i]) {
      assert calls[..n][..i] == calls[..i];
    }
  }

  /** While every listed transport stays connected, no two of them are ever further apart than the
      largest single message. */
  lemma {:induction false} CountersStayClose(ids: seq<ID>, calls: seq<Call>, most: nat)
    requires NO_TRANSPORT !in ids && Steady(ids, calls, most) && BytesTotal(calls) < MAX_UINT64
    ensures Spread(ids, CountersAfter(calls), most)
  {
    if calls != [] && ids != [] {
      var n := |calls| - 1;
      SteadyPrefix(ids, calls, most, n);
      CountersStayClose(ids, calls[..n], most);
      assert calls == calls[..n] + [calls[n]];
      StaysClose(ids, calls[..n], calls[n], most);
    }
  }

  // ---- before a multi transport is set ----

  ghost predicate Unset(ids: seq<ID>, calls: seq<Call>) {
    Run(ids, calls) && forall i :: 0 <= i < |calls| ==> calls[i].mt.None?
  }

  lemma {:induction false} AllGivenToFirst(ids: seq<ID>, calls: seq<Call>, id: ID)
    requires ids != [] && Unset(ids, calls) && id != NO_TRANSPORT
    ensures BytesGiven(calls, id) == if id == ids[0] then BytesTotal(calls) else 0
  {
    if calls != [] {
      var n := |calls| - 1;
      UnsetPrefix(ids, calls);
      AllGivenToFirst(ids, calls[..n], id);
    }
  }

  lemma UnsetPrefix(ids: seq<ID>, calls: seq<Call>)
    requires ids != [] && Unset(ids, calls) && calls != []
    ensures Unset(ids, calls[..|calls| - 1]) && calls[|calls| - 1].id == ids[0]
  {
    var n := |calls| - 1;
    forall i | 0 <= i < n ensures Answers(ids, CountersAfter(calls[..n][..i]), calls[..n][i]) {
      assert calls[..n][..i] == calls[..i];
    }
    assert Answers(ids, CountersAfter(calls[..n]), calls[n]);
  }

  lemma OneCountWhileUnset(ids: seq<ID>, calls: seq<Call>, id: ID)
    requires ids != [] && Unset(ids, calls) && id != NO_TRANSPORT
    ensures Count(CountersAfter(calls), id) == if id == ids[0] then BytesTotal(calls) % (MAX_UINT64 + 1) else 0
  {
    CountersAreBytesGiven(calls, id);
    AllGivenToFirst(ids, calls, id);
  }

  /** Until a multi transport is set nothing is balanced: over any run the first transport listed is
      charged with every byte and no other with any. */
  lemma WithoutMultiTransportAllOnFirst(ids: seq<ID>, calls: seq<Call>)
    requires ids != [] && Unset(ids, calls)
    ensures forall id :: id != NO_TRANSPORT ==>
      Count(CountersAfter(calls), id) == if id == ids[0] then BytesTotal(calls) % (MAX_UINT64 + 1) else 0
  {
    forall id | id != NO_TRANSPORT
      ensures Count(CountersAfter(calls), id) == if id == ids[0] then BytesTotal(calls) % (MAX_UINT64 + 1) else 0
    {
      OneCountWhileUnset(ids, calls, id);
    }
  }

  function Ones(id: ID, n: nat): seq<Call> { seq(n, _ => Call(1, None, id)) }

  lemma {:induction false} OnesTotal(id: ID, n: nat)
    requires id != NO_TRANSPORT
    ensures BytesTotal(Ones(id, n)) == n
  {
    if n > 0 {
      assert Ones(id, n)[..n - 1] == Ones(id, n - 1);
      OnesTotal(id, n - 1);
    }
  }

  lemma OnesUnset(ids: seq<ID>, n: nat)
    requires ids != []
    ensures Unset(ids, Ones(ids[0], n))
  {}

  /** So then, even with messages of one byte, two transports get as far apart as one likes. */
  lemma SpreadUnboundedBeforeSet(ids: seq<ID>, apart: nat) returns (calls: seq<Call>)
    requires |ids| >= 2 && ids[0] != NO_TRANSPORT && ids[1] != NO_TRANSPORT && ids[0] != ids[1]
    requires apart <= MAX_UINT64
    ensures Unset(ids, calls) && forall i :: 0 <= i < |calls| ==> calls[i].size == 1
    ensures Count(CountersAfter(calls), ids[0]) - Count(CountersAfter(calls), ids[1]) == apart
  {
    calls := Ones(ids[0], apart);
    OnesUnset(ids, apart);
    OnesTotal(ids[0], apart);
    OneCountWhileUnset(ids, calls, ids[0]);
    OneCountWhileUnset(ids, calls, ids[1]);
    SmallMod(apart);
  }

  lemma SmallMod(n: nat)
    requires n <= MAX_UINT64
    ensures n % (MAX_UINT64 + 1) == n
  {}

  // ---- the object ----

  class ByteBalancedSelector {
    const transportIDs: seq<ID>
    var accumulatedBytes: Counters

    constructor (transportIDs: seq<ID>)
      ensures this.transportIDs == transportIDs && accumulatedBytes == map[]
    {
      this.transportIDs, accumulatedBytes := transportIDs, map[];
    }

    method SelectMin(mt: Option<map<ID, Status>>) returns (selected: ID)
      ensures selected == SelectMinBytes(transportIDs, mt, accumulatedBytes)
    {
      if |transportIDs| == 0 { return NO_TRANSPORT; }
      if mt.None? { return transportIDs[0]; }
      if |mt.value| == 0 {
        ScanNothing(transportIDs, accumulatedBytes);
        return NO_TRANSPORT;
      }
      selected := NO_TRANSPORT;
      var minBytes := MAX_UINT64;
      for i := 0 to |transportIDs|
        invariant Scan(transportIDs[..i], mt.value, accumulatedBytes) == Best(minBytes, selected)
      {
        assert transportIDs[..i + 1][..i] == transportIDs[..i];
        var id := transportIDs[i];
        if id in mt.value {
          var accumulated := Count(accumulatedBytes, id);
          if accumulated < minBytes { minBytes, selected := accumulated, id; }
        }
      }
      assert transportIDs[..|transportIDs|] == transportIDs;
    }

    /** `order` is the order in which Go walks the transports when it falls back. */
    method Get(bsSize: int, mt: Option<map<ID, Status>>, order: seq<ID>) returns (id: ID)
      requires mt.Some? ==> Enumerates(order, mt.value.Keys)
      modifies this
      ensures Answers(transportIDs, old(accumulatedBytes), Call(bsSize, mt, id))
      ensures accumulatedBytes == Charged(old(accumulatedBytes), Call(bsSize, mt, id))
    {
      id := SelectMin(mt);
      if mt.Some? { id := SelectAvailableTransport(id, mt.value, order); }
      if id != NO_TRANSPORT && bsSize > 0 {
        accumulatedBytes := accumulatedBytes[id := Add64(Count(accumulatedBytes, id), bsSize)];
      }
    }
  }

  lemma {:induction false} ScanNothing(ids: seq<ID>, bytes: Counters)
    ensures Scan(ids, map[], bytes).id == NO_TRANSPORT
  {
    if ids != [] { ScanNothing(ids[..|ids| - 1], bytes); }
  }
}
