/**
 Where an upstream keeps its data points: the send buffer, the issued chunks and the chunks
 not yet acknowledged (iscp/upstream.go). `accepted`, `issued`, `acked` and `premature` are
 histories the code does not store; everything else is a field of the Upstream.
 */
module UpstreamDelivery {
  import opened Prelude
  import opened DataPoints

  type Buffer = map<DataID, seq<DataPoint>>

  datatype Delivery = Delivery(
    reliable: bool,                        // keepPayload
    sendBuffer: Buffer,
    payloadSize: nat,                      // sendBufferPayloadSize
    pointCount: nat,                       // sendBufferDataPointsCount
    sequence: U32,                      // last issued sequence number
    total: U64,                         // totalDataPoints
    sentBuf: map<U32, seq<Group>>,
    accepted: seq<Group>,                  // every write taken over by the flush loop
    issued: seq<seq<Group>>,               // chunk n is issued[n - 1]
    acked: set<U32>,                    // issued numbers whose result was processed
    premature: set<U32>)                // numbers whose result came before they were issued

  function Initial(reliable: bool): Delivery {
    Delivery(reliable, map[], 0, 0, 0, 0, map[], [], [], {}, {})
  }

  // ---- steps ----

  function Buffered(buf: Buffer, id: DataID): seq<DataPoint> { if id in buf then buf[id] else [] }

  /** flushLoop takes a group from dpgCh and appends it under u.mu. */
  function Accept(d: Delivery, g: Group): Delivery {
    d.(sendBuffer := d.sendBuffer[g.id := Buffered(d.sendBuffer, g.id) + g.points],
       payloadSize := d.payloadSize + PayloadSize(g.points),
       pointCount := d.pointCount + |g.points|,
       accepted := d.accepted + [g])
  }

  /** validateState, with Go's wrapping sum and `U64(int)` conversion. */
  predicate StateValid(d: Delivery) {
    && d.total <= Add64(d.total, d.pointCount)
    && d.sequence != MAX_UINT32
  }

  function GroupsOf(buf: Buffer, order: seq<DataID>): seq<Group> {
    seq(|order|, i requires 0 <= i < |order| => Group(order[i], Buffered(buf, order[i])))
  }

  function Stored(reliable: bool, gs: seq<Group>): seq<Group> {
    if reliable then gs else WithoutPayload(gs)
  }

  /** flush with something to send: chunk number, totals, sentBuf and an empty buffer at once.
      `order` is the iteration order over the buffer. */
  function Issue(d: Delivery, order: seq<DataID>): Delivery {
    var gs := GroupsOf(d.sendBuffer, order);
    d.(sendBuffer := map[], payloadSize := 0, pointCount := 0,
       sequence := Inc32(d.sequence),
       total := Add64(d.total, d.pointCount),
       sentBuf := d.sentBuf[Inc32(d.sequence) := Stored(d.reliable, gs)],
       issued := d.issued + [gs])
  }

  /** flush, from the lock to the unlock. */
  function Flush(d: Delivery, order: seq<DataID>): Delivery {
    if Issues(d) then Issue(d, order) else d
  }

  predicate Issues(d: Delivery) { |d.sendBuffer| != 0 && StateValid(d) }

  /** removeSent, the first thing processResult does with a result numbered n. */
  function RemoveSent(d: Delivery, n: U32): Delivery {
    var known := 1 <= n <= d.sequence;
    d.(sentBuf := d.sentBuf - {n},
       acked := if known then d.acked + {n} else d.acked,
       premature := if known then d.premature else d.premature + {n})
  }

  /** clearSent, when a stream that is not Reliable resumes. */
  function ClearSent(d: Delivery): Delivery { d.(sentBuf := map[]) }

  // ---- counting a buffer ----

  ghost function PointsIn(buf: Buffer): nat {
    if buf.Keys == {} then 0 else
      var id :| id in buf.Keys; |buf[id]| + PointsIn(buf - {id})
  }

  lemma {:induction false} PointsInRemove(buf: Buffer, id: DataID)
    requires id in buf
    ensures PointsIn(buf) == |buf[id]| + PointsIn(buf - {id})
    decreases |buf|
  {
    var first :| first in buf.Keys && PointsIn(buf) == |buf[first]| + PointsIn(buf - {first});
    if first != id {
      assert buf - {first} - {id} == buf - {id} - {first};
      PointsInRemove(buf - {first}, id);
      PointsInRemove(buf - {id}, first);
    }
  }

  lemma PointsInAccept(buf: Buffer, g: Group)
    ensures PointsIn(buf[g.id := Buffered(buf, g.id) + g.points]) == PointsIn(buf) + |g.points|
  {
    var more := buf[g.id := Buffered(buf, g.id) + g.points];
    PointsInRemove(more, g.id);
    assert more - {g.id} == buf - {g.id};
    if g.id in buf { PointsInRemove(buf, g.id); } else { assert buf - {g.id} == buf; }
  }

  /** The payload bytes of a buffer. */
  ghost function BytesIn(buf: Buffer): nat {
    if buf.Keys == {} then 0 else
      var id :| id in buf.Keys; PayloadSize(buf[id]) + BytesIn(buf - {id})
  }

  lemma {:induction false} BytesInRemove(buf: Buffer, id: DataID)
    requires id in buf
    ensures BytesIn(buf) == PayloadSize(buf[id]) + BytesIn(buf - {id})
    decreases |buf|
  {
    var first :| first in buf.Keys && BytesIn(buf) == PayloadSize(buf[first]) + BytesIn(buf - {first});
    if first != id {
      assert buf - {first} - {id} == buf - {id} - {first};
      BytesInRemove(buf - {first}, id);
      BytesInRemove(buf - {id}, first);
    }
  }

  lemma {:induction false} PayloadSizeConcat(ps: seq<DataPoint>, qs: seq<DataPoint>)
    ensures PayloadSize(ps + qs) == PayloadSize(ps) + PayloadSize(qs)
  {
    if qs == [] {
      assert ps + qs == ps;
    } else {
      PayloadSizeConcat(ps, qs[..|qs| - 1]);
      assert (ps + qs)[..|ps + qs| - 1] == ps + qs[..|qs| - 1];
    }
  }

  lemma BytesInAccept(buf: Buffer, g: Group)
    ensures BytesIn(buf[g.id := Buffered(buf, g.id) + g.points]) == BytesIn(buf) + PayloadSize(g.points)
  {
    var more := buf[g.id := Buffered(buf, g.id) + g.points];
    BytesInRemove(more, g.id);
    PayloadSizeConcat(Buffered(buf, g.id), g.points);
    assert more - {g.id} == buf - {g.id};
    if g.id in buf { BytesInRemove(buf, g.id); } else { assert buf - {g.id} == buf; }
  }

  lemma GroupsOfLess(buf: Buffer, order: seq<DataID>, id: DataID)
    requires (forall x :: x in order ==> x in buf) && id !in order
    ensures GroupsOf(buf - {id}, order) == GroupsOf(buf, order)
  {}

  lemma GroupsOfSnoc(buf: Buffer, order: seq<DataID>)
    requires order != []
    ensures var n := |order| - 1;
      GroupsOf(buf, order) == GroupsOf(buf, order[..n]) + [Group(order[n], Buffered(buf, order[n]))]
  {}

  lemma CountSnoc(gs: seq<Group>, g: Group)
    ensures CountPoints(gs + [g]) == CountPoints(gs) + |g.points|
  {
    assert (gs + [g])[..|gs|] == gs;
  }

  lemma PointsOfSnoc(gs: seq<Group>, g: Group, id: DataID)
    ensures PointsOf(gs + [g], id) == PointsOf(gs, id) + if g.id == id then g.points else []
  {
    assert (gs + [g])[..|gs|] == gs;
  }

  /** All but the last of an enumeration enumerate the rest. */
  lemma EnumeratesRest(order: seq<DataID>, keys: set<DataID>)
    requires Enumerates(order, keys) && order != []
    ensures var n := |order| - 1;
      && order[n] in keys && order[n] !in order[..n]
      && Enumerates(order[..n], keys - {order[n]})
  {
    var n := |order| - 1;
    assert order == order[..n] + [order[n]];
  }

  /** Every buffer can be walked in some order. */
  lemma {:induction false} SomeOrder(keys: set<DataID>) returns (order: seq<DataID>)
    ensures Enumerates(order, keys)
  {
    order := [];
    if keys != {} {
      var id :| id in keys;
      var rest := SomeOrder(keys - {id});
      order := rest + [id];
    }
  }

  lemma EnumeratesNothing(buf: Buffer)
    requires Enumerates([], buf.Keys)
    ensures PointsIn(buf) == 0
  {
    assert forall x :: x in buf.Keys ==> x in [];
    assert buf.Keys == {};
  }

  lemma {:induction false} CountGroupsOf(buf: Buffer, order: seq<DataID>)
    requires Enumerates(order, buf.Keys)
    ensures CountPoints(GroupsOf(buf, order)) == PointsIn(buf)
    decreases |order|
  {
    if order == [] {
      EnumeratesNothing(buf);
    } else {
      var rest, id := order[..|order| - 1], order[|order| - 1];
      EnumeratesRest(order, buf.Keys);
      assert (buf - {id}).Keys == buf.Keys - {id};
      CountGroupsOf(buf - {id}, rest);
      GroupsOfLess(buf, rest, id);
      GroupsOfSnoc(buf, order);
      CountSnoc(GroupsOf(buf, rest), Group(id, Buffered(buf, id)));
      PointsInRemove(buf, id);
    }
  }

  lemma {:induction false} PointsOfGroupsOf(buf: Buffer, order: seq<DataID>, id: DataID)
    requires forall i, j :: 0 <= i < j < |order| ==> order[i] != order[j]
    ensures PointsOf(GroupsOf(buf, order), id) == if id in order then Buffered(buf, id) else []
    decreases |order|
  {
    if order != [] {
      var n := |order| - 1;
      PointsOfGroupsOf(buf, order[..n], id);
      GroupsOfSnoc(buf, order);
      PointsOfSnoc(GroupsOf(buf, order[..n]), Group(order[n], Buffered(buf, order[n])), id);
      assert order == order[..n] + [order[n]];
    }
  }

  // ---- the issued history ----

  /** The points of `id` in the issued chunks, in sequence order. */
  function Shipped(issued: seq<seq<Group>>, id: DataID): seq<DataPoint> {
    if issued == [] then []
    else Shipped(issued[..|issued| - 1], id) + PointsOf(issued[|issued| - 1], id)
  }

  function ShippedCount(issued: seq<seq<Group>>): nat {
    if issued == [] then 0
    else ShippedCount(issued[..|issued| - 1]) + CountPoints(issued[|issued| - 1])
  }

  // ---- invariant ----

  /** Per data ID, nothing is lost, duplicated or reordered between the writer and the chunks. */
  ghost predicate Conserved(d: Delivery) {
    forall id :: Shipped(d.issued, id) + Buffered(d.sendBuffer, id) == PointsOf(d.accepted, id)
  }

  /** Counters are exact: no number was skipped and no sum wrapped. */
  ghost predicate Counted(d: Delivery) {
    && d.sequence == |d.issued| <= MAX_UINT32
    && MAX_UINT64 >= d.total == ShippedCount(d.issued)
    && d.pointCount == PointsIn(d.sendBuffer)
  }

  /** The size the flush policy looks at is that of the buffered payloads. */
  ghost predicate Sized(d: Delivery) { d.payloadSize == BytesIn(d.sendBuffer) }

  /** Every issued chunk is either waiting for its result or has had it. */
  ghost predicate Partitioned(d: Delivery) {
    && (forall n :: n in d.sentBuf || n in d.acked ==> 1 <= n <= d.sequence)
    && (forall n :: n in d.sentBuf ==>
          n !in d.acked && n <= |d.issued| && d.sentBuf[n] == Stored(d.reliable, d.issued[n - 1]))
    && (d.reliable ==> forall n :: 1 <= n <= d.sequence ==> n in d.sentBuf || n in d.acked)
  }

  ghost predicate Inv(d: Delivery) { Conserved(d) && Counted(d) && Partitioned(d) && Sized(d) }

  lemma InitialInv(reliable: bool)
    ensures Inv(Initial(reliable))
  {}

  lemma AcceptInv(d: Delivery, g: Group)
    requires Inv(d)
    ensures Inv(Accept(d, g))
  {
    var d' := Accept(d, g);
    assert d'.accepted[..|d.accepted|] == d.accepted;
    PointsInAccept(d.sendBuffer, g);
    BytesInAccept(d.sendBuffer, g);
    forall id ensures Shipped(d'.issued, id) + Buffered(d'.sendBuffer, id) == PointsOf(d'.accepted, id) {
      assert Shipped(d.issued, id) + Buffered(d.sendBuffer, id) == PointsOf(d.accepted, id);
    }
  }

  lemma FlushConserves(d: Delivery, order: seq<DataID>)
    requires Conserved(d) && Enumerates(order, d.sendBuffer.Keys) && Issues(d)
    ensures Conserved(Flush(d, order))
  {
    var d' := Flush(d, order);
    assert d'.issued[..|d.issued|] == d.issued;
    forall id ensures Shipped(d'.issued, id) + Buffered(d'.sendBuffer, id) == PointsOf(d'.accepted, id) {
      assert Shipped(d.issued, id) + Buffered(d.sendBuffer, id) == PointsOf(d.accepted, id);
      PointsOfGroupsOf(d.sendBuffer, order, id);
    }
  }

  lemma FlushCounts(d: Delivery, order: seq<DataID>)
    requires Counted(d) && d.pointCount < 0x8000_0000_0000_0000
    requires Enumerates(order, d.sendBuffer.Keys) && Issues(d)
    ensures Counted(Flush(d, order))
  {
    var d' := Flush(d, order);
    assert d'.issued[..|d.issued|] == d.issued;
    CountGroupsOf(d.sendBuffer, order);
    assert PointsIn(map[]) == 0;
  }

  lemma FlushPartitions(d: Delivery, order: seq<DataID>)
    requires Partitioned(d) && d.sequence == |d.issued| && Issues(d)
    ensures Partitioned(Flush(d, order))
  {}

  /** The limit on the buffered count is Go's: slice lengths sum up in an int. */
  lemma FlushInv(d: Delivery, order: seq<DataID>)
    requires Inv(d) && d.pointCount < 0x8000_0000_0000_0000
    requires Enumerates(order, d.sendBuffer.Keys)
    ensures Inv(Flush(d, order))
  {
    if Issues(d) {
      FlushConserves(d, order);
      FlushCounts(d, order);
      FlushPartitions(d, order);
      assert BytesIn(map[]) == 0;
    }
  }

  /** validateState refuses exactly the flushes that would wrap a counter. */
  lemma StateValidIffNoWrap(d: Delivery)
    requires Inv(d) && d.pointCount < 0x8000_0000_0000_0000
    ensures StateValid(d) <==>
            ShippedCount(d.issued) + PointsIn(d.sendBuffer) <= MAX_UINT64 && |d.issued| < MAX_UINT32
  {}

  /** A flush issues one chunk exactly when something is buffered and no counter would wrap; the chunk
      is then held under the next number, and the buffer is empty with both its sizes. Otherwise nothing
      changes. */
  lemma FlushIssuesIff(d: Delivery, order: seq<DataID>)
    requires Inv(d) && d.pointCount < 0x8000_0000_0000_0000 && Enumerates(order, d.sendBuffer.Keys)
    ensures var d' := Flush(d, order);
      if d.sendBuffer != map[] && ShippedCount(d.issued) + PointsIn(d.sendBuffer) <= MAX_UINT64
         && |d.issued| < MAX_UINT32
      then
        && |d'.issued| == |d.issued| + 1 && |d'.issued| in d'.sentBuf && |d'.issued| !in d.sentBuf
        && d'.sendBuffer == map[] && d'.pointCount == 0 && d'.payloadSize == 0
      else d' == d
  {
    StateValidIffNoWrap(d);
    assert d.sendBuffer == map[] <==> |d.sendBuffer| == 0;
  }

  lemma {:induction false} StrippedIsEmpty(ps: seq<DataPoint>)
    ensures PayloadSize(StripPoints(ps)) == 0
  {
    if ps != [] {
      assert StripPoints(ps)[..|ps| - 1] == StripPoints(ps[..|ps| - 1]);
      StrippedIsEmpty(ps[..|ps| - 1]);
    }
  }

  /** What is held of an issued chunk: all of it on a Reliable stream; otherwise its IDs and the times of
      its points, without a byte of payload. */
  ghost predicate HeldAs(reliable: bool, gs: seq<Group>, held: seq<Group>) {
    && (reliable ==> held == gs)
    && |held| == |gs|
    && forall i :: 0 <= i < |gs| ==>
         && held[i].id == gs[i].id && |held[i].points| == |gs[i].points|
         && (forall k :: 0 <= k < |gs[i].points| ==> held[i].points[k].elapsed == gs[i].points[k].elapsed)
         && (!reliable ==> PayloadSize(held[i].points) == 0)
  }

  lemma StoredMeans(reliable: bool, gs: seq<Group>)
    ensures HeldAs(reliable, gs, Stored(reliable, gs))
  {
    forall i | 0 <= i < |gs| ensures PayloadSize(StripPoints(gs[i].points)) == 0 { StrippedIsEmpty(gs[i].points); }
  }

  lemma RemoveSentInv(d: Delivery, n: U32)
    requires Inv(d)
    ensures Inv(RemoveSent(d, n))
  {}

  lemma ClearSentInv(d: Delivery)
    requires Inv(d) && !d.reliable
    ensures Inv(ClearSent(d))
  {}

  // ---- every accepted point has one place ----

  /** The k-th point of `id` travels in chunk n. */
  ghost predicate Carries(issued: seq<seq<Group>>, id: DataID, k: nat, n: int) {
    && 1 <= n <= |issued|
    && var start := |Shipped(issued[..n - 1], id)|;
       start <= k < start + |PointsOf(issued[n - 1], id)|
  }

  lemma ShippedStep(issued: seq<seq<Group>>, n: nat, id: DataID)
    requires 1 <= n <= |issued|
    ensures Shipped(issued[..n], id) == Shipped(issued[..n - 1], id) + PointsOf(issued[n - 1], id)
  {
    assert issued[..n][..n - 1] == issued[..n - 1];
  }

  lemma {:induction false} ShippedPrefix(issued: seq<seq<Group>>, n: nat, id: DataID)
    requires n <= |issued|
    ensures Shipped(issued[..n], id) <= Shipped(issued, id)
  {
    if n < |issued| {
      ShippedPrefix(issued[..|issued| - 1], n, id);
      assert issued[..|issued| - 1][..n] == issued[..n];
    } else {
      assert issued[..n] == issued;
    }
  }

  lemma {:induction false} CarrierExists(issued: seq<seq<Group>>, id: DataID, k: nat) returns (n: U32)
    requires k < |Shipped(issued, id)|
    ensures Carries(issued, id, k, n)
  {
    var last := |issued| - 1;
    if k < |Shipped(issued[..last], id)| {
      n := CarrierExists(issued[..last], id, k);
      assert issued[..last][..n - 1] == issued[..n - 1] && issued[..last][..n] == issued[..n];
    } else {
      n := |issued|;
      assert issued[..n] == issued;
    }
  }

  lemma CarriedBefore(issued: seq<seq<Group>>, id: DataID, k: nat, m: nat, n: nat)
    requires 1 <= m < n <= |issued| && Carries(issued, id, k, m)
    ensures !Carries(issued, id, k, n)
  {
    ShippedStep(issued, m, id);
    ShippedPrefix(issued[..n - 1], m, id);
    assert issued[..n - 1][..m] == issued[..m];
  }

  lemma CarrierUnique(issued: seq<seq<Group>>, id: DataID, k: nat, m: int, n: int)
    requires Carries(issued, id, k, m) && Carries(issued, id, k, n)
    ensures m == n
  {
    if m < n {
      CarriedBefore(issued, id, k, m, n);
    } else if n < m {
      CarriedBefore(issued, id, k, n, m);
    }
  }

  lemma PointInBuffer(d: Delivery, id: DataID, k: nat)
    requires Conserved(d) && |Shipped(d.issued, id)| <= k < |PointsOf(d.accepted, id)|
    ensures var at := k - |Shipped(d.issued, id)|;
      && id in d.sendBuffer && at < |d.sendBuffer[id]|
      && d.sendBuffer[id][at] == PointsOf(d.accepted, id)[k]
    ensures forall m :: !Carries(d.issued, id, k, m)
  {
    assert Shipped(d.issued, id) + Buffered(d.sendBuffer, id) == PointsOf(d.accepted, id);
    forall m ensures !Carries(d.issued, id, k, m) {
      if 1 <= m <= |d.issued| { ShippedPrefix(d.issued, m, id); ShippedStep(d.issued, m, id); }
    }
  }

  lemma PointInChunk(d: Delivery, id: DataID, k: nat) returns (n: U32)
    requires Conserved(d) && k < |Shipped(d.issued, id)|
    ensures Carries(d.issued, id, k, n) && forall m :: Carries(d.issued, id, k, m) ==> m == n
    ensures k < |PointsOf(d.accepted, id)|
    ensures PointsOf(d.issued[n - 1], id)[k - |Shipped(d.issued[..n - 1], id)|] == PointsOf(d.accepted, id)[k]
  {
    assert Shipped(d.issued, id) + Buffered(d.sendBuffer, id) == PointsOf(d.accepted, id);
    n := CarrierExists(d.issued, id, k);
    forall m | Carries(d.issued, id, k, m) ensures m == n { CarrierUnique(d.issued, id, k, m, n); }
    ShippedPrefix(d.issued, n, id);
    ShippedStep(d.issued, n, id);
  }

  /**
   Each accepted point of a Reliable upstream is in exactly one place: the send buffer, or one
   issued chunk; and that chunk is either held for resending with its payload or acknowledged.
   */
  lemma AcceptedPointHasOnePlace(d: Delivery, id: DataID, k: nat) returns (n: U32)
    requires Inv(d) && d.reliable && k < |PointsOf(d.accepted, id)|
    ensures k >= |Shipped(d.issued, id)| ==>
              && id in d.sendBuffer
              && k - |Shipped(d.issued, id)| < |d.sendBuffer[id]|
              && d.sendBuffer[id][k - |Shipped(d.issued, id)|] == PointsOf(d.accepted, id)[k]
              && forall m :: !Carries(d.issued, id, k, m)
    ensures k < |Shipped(d.issued, id)| ==>
              && Carries(d.issued, id, k, n)
              && (forall m :: Carries(d.issued, id, k, m) <==> m == n)
              && PointsOf(d.issued[n - 1], id)[k - |Shipped(d.issued[..n - 1], id)|] == PointsOf(d.accepted, id)[k]
              && (n in d.sentBuf <==> n !in d.acked)
              && (n in d.sentBuf ==> d.sentBuf[n] == d.issued[n - 1])
  {
    n := 0;
    if k >= |Shipped(d.issued, id)| { PointInBuffer(d, id, k); } else { n := PointInChunk(d, id, k); }
  }
}
