/**
 Reassembly (internal/segment/read_buffer.go) under every interleaving: the segments of any number
 of messages with distinct sequence numbers arrive in any order, each at most once, and nothing
 expires.
 */
module SegmentReassembly {
  import opened ByteStrings
  import opened Prelude
  import opened SegmentSender

  /** A ReadBuffer without its expiry time. */
  datatype Buffer = Buffer(count: int, size: int, msgs: seq<Bytes>)

  type Buffers = map<U32, Buffer>

  /** make([][]byte, maxSegIdx+1) computes the length in uint16. */
  function NewBuffer(maxSegIdx: U16): Buffer
    requires 0 <= maxSegIdx <= MAX_UINT16
  {
    Buffer(0, 0, seq((maxSegIdx + 1) % (MAX_UINT16 + 1), _ => []))
  }

  /** ReadBuffer.add. */
  function Add(b: Buffer, segIdx: U16, payload: Bytes): Buffer
    requires 0 <= segIdx
  {
    if |b.msgs| <= segIdx then b
    else Buffer(b.count + 1, b.size + |payload|, b.msgs[segIdx := payload])
  }

  lemma {:induction false} FillSlot(msgs: seq<Bytes>, k: nat, payload: Bytes)
    requires k < |msgs| && msgs[k] == []
    ensures |Concat(msgs[k := payload])| == |Concat(msgs)| + |payload|
  {
    var n := |msgs| - 1;
    if k < n {
      assert msgs[k := payload][..n] == msgs[..n][k := payload];
      FillSlot(msgs[..n], k, payload);
    } else {
      assert msgs[k := payload][..n] == msgs[..n];
    }
  }

  /** As long as no slot is filled twice, the size kept is that of the bytes held. */
  lemma SizeIsBytesHeld(b: Buffer, segIdx: U16, payload: Bytes)
    requires 0 <= segIdx && b.size == |Concat(b.msgs)| && (segIdx < |b.msgs| ==> b.msgs[segIdx] == [])
    ensures Add(b, segIdx, payload).size == |Concat(Add(b, segIdx, payload).msgs)|
  {
    if segIdx < |b.msgs| { FillSlot(b.msgs, segIdx, payload); }
  }

  predicate Completes(b: Buffer, segIdx: U16, payload: Bytes)
    requires 0 <= segIdx
  {
    segIdx < |b.msgs| && |b.msgs| == b.count + 1
  }

  datatype Received = Received(bufs: Buffers, msg: Option<Bytes>)

  function BufferFor(bufs: Buffers, seqNum: U32, maxSegIdx: U16): Buffer
    requires 0 <= maxSegIdx <= MAX_UINT16
  {
    if seqNum in bufs then bufs[seqNum] else NewBuffer(maxSegIdx)
  }

  /** ReadBuffers.Receive, on the parsed header. */
  function ReceiveSegment(bufs: Buffers, seqNum: U32, maxSegIdx: U16, segIdx: U16, payload: Bytes): Received
    requires 0 <= maxSegIdx <= MAX_UINT16 && 0 <= segIdx
  {
    var b := BufferFor(bufs, seqNum, maxSegIdx);
    var b' := Add(b, segIdx, payload);
    if Completes(b, segIdx, payload) then Received(bufs - {seqNum}, Some(Concat(b'.msgs)))
    else Received(bufs[seqNum := b'], None)
  }

  /** ReadBuffers.Receive; it panics on fewer than 8 bytes. */
  function ReceiveDatagram(bufs: Buffers, bs: Bytes): Received
    requires |bs| >= 8 && AllBytes(bs)
  {
    ReceiveSegment(bufs, Read32(bs[..4]), Read16(bs[4..6]), Read16(bs[6..8]), bs[8..])
  }

  // ---- arrivals ----

  type Messages = map<U32, Bytes>

  datatype Arrival = Arrival(seqNum: U32, segIdx: nat)

  predicate Sendable(msgs: Messages) {
    forall q :: q in msgs ==> MaxSegIdx(|msgs[q]|) <= MAX_UINT16
  }

  /** Each arrival is a segment of some message. */
  ghost predicate InRange(msgs: Messages, arrivals: seq<Arrival>) {
    forall t :: 0 <= t < |arrivals| ==>
      arrivals[t].seqNum in msgs && arrivals[t].segIdx <= MaxSegIdx(|msgs[arrivals[t].seqNum]|)
  }

  /** And none arrives twice. */
  ghost predicate Legal(msgs: Messages, arrivals: seq<Arrival>) {
    && InRange(msgs, arrivals)
    && (forall t, u :: 0 <= t < u < |arrivals| ==> arrivals[t] != arrivals[u])
  }

  function Receive(msgs: Messages, bufs: Buffers, a: Arrival): Received
    requires Sendable(msgs) && a.seqNum in msgs && a.segIdx <= MaxSegIdx(|msgs[a.seqNum]|)
  {
    var msg := msgs[a.seqNum];
    ReceiveSegment(bufs, a.seqNum, MaxSegIdx(|msg|), a.segIdx, SegmentAt(msg, a.segIdx))
  }

  /** The buffers after all arrivals, and what the last one returned. */
  ghost function ReceiveAll(msgs: Messages, arrivals: seq<Arrival>): Received
    requires Sendable(msgs) && InRange(msgs, arrivals)
  {
    if arrivals == [] then Received(map[], None)
    else
      Receive(msgs, ReceiveAll(msgs, arrivals[..|arrivals| - 1]).bufs, arrivals[|arrivals| - 1])
  }

  lemma LegalPrefix(msgs: Messages, arrivals: seq<Arrival>, n: nat)
    requires Legal(msgs, arrivals) && n <= |arrivals|
    ensures Legal(msgs, arrivals[..n])
  {}

  /** The segments of message q that have arrived. */
  function Got(arrivals: seq<Arrival>, q: U32): set<nat> {
    if arrivals == [] then {}
    else
      var last := arrivals[|arrivals| - 1];
      Got(arrivals[..|arrivals| - 1], q) + (if last.seqNum == q then {last.segIdx} else {})
  }

  /** 0 .. n - 1. */
  function Wanted(n: nat): (w: set<nat>)
    ensures |w| == n && forall k: nat :: k in w <==> k < n
  {
    if n == 0 then {} else Wanted(n - 1) + {n - 1}
  }

  lemma {:induction false} GotMeans(arrivals: seq<Arrival>, q: U32)
    ensures forall k: nat :: k in Got(arrivals, q) <==> Arrival(q, k) in arrivals
  {
    if arrivals != [] {
      var n := |arrivals| - 1;
      GotMeans(arrivals[..n], q);
      assert arrivals == arrivals[..n] + [arrivals[n]];
    }
  }

  /** All of message q has arrived. */
  ghost predicate Complete(msgs: Messages, arrivals: seq<Arrival>, q: U32)
    requires q in msgs
  {
    Got(arrivals, q) == Wanted(MaxSegIdx(|msgs[q]|) + 1)
  }

  /** The receiver can hold the message: its last index is not 65535. */
  predicate Receivable(msg: Bytes) { MaxSegIdx(|msg|) != MAX_UINT16 }

  // ---- invariant ----

  /** What the buffer of a message holds once the segments `got` have arrived, some but not all. */
  ghost predicate BufferOK(b: Buffer, msg: Bytes, got: set<nat>) {
    if Receivable(msg) then
      && |b.msgs| == MaxSegIdx(|msg|) + 1 && b.count == |got|
      && (forall k :: 0 <= k < |b.msgs| ==> b.msgs[k] == if k in got then SegmentAt(msg, k) else [])
    else
      b.msgs == []
  }

  ghost predicate Waiting(msgs: Messages, arrivals: seq<Arrival>, q: U32) {
    && q in msgs && Got(arrivals, q) != {}
    && (Receivable(msgs[q]) ==> !Complete(msgs, arrivals, q))
  }

  ghost predicate OneBufferOK(msgs: Messages, arrivals: seq<Arrival>, bufs: Buffers, q: U32) {
    && (q in bufs <==> Waiting(msgs, arrivals, q))
    && (q in bufs ==> BufferOK(bufs[q], msgs[q], Got(arrivals, q)))
  }

  ghost predicate BuffersOK(msgs: Messages, arrivals: seq<Arrival>, bufs: Buffers) {
    forall q :: OneBufferOK(msgs, arrivals, bufs, q)
  }

  /** One segment into the buffer of its message. */
  lemma AddOK(b: Buffer, msg: Bytes, got: set<nat>, k: nat)
    requires BufferOK(b, msg, got) && k <= MaxSegIdx(|msg|) <= MAX_UINT16 && k !in got
    ensures BufferOK(Add(b, k, SegmentAt(msg, k)), msg, got + {k})
  {}

  /** It completes the message exactly when it was the last one missing. */
  lemma AddCompletesIff(b: Buffer, msg: Bytes, got: set<nat>, k: nat)
    requires BufferOK(b, msg, got) && k <= MaxSegIdx(|msg|) <= MAX_UINT16 && k !in got
    requires got <= Wanted(MaxSegIdx(|msg|) + 1)
    ensures Completes(b, k, SegmentAt(msg, k)) <==>
      Receivable(msg) && got + {k} == Wanted(MaxSegIdx(|msg|) + 1)
  {
    FullIff(got, k, MaxSegIdx(|msg|) + 1);
  }

  lemma FullIff(got: set<nat>, k: nat, n: nat)
    requires k < n && k !in got && got <= Wanted(n)
    ensures |got| + 1 == n <==> got + {k} == Wanted(n)
  {
    assert got + {k} <= Wanted(n);
    if |got + {k}| == n { SubsetEqual(got + {k}, Wanted(n)); }
  }

  lemma FullBuffer(b: Buffer, msg: Bytes)
    requires Receivable(msg) && BufferOK(b, msg, Wanted(MaxSegIdx(|msg|) + 1))
    ensures Concat(b.msgs) == msg
  {
    assert b.msgs == Segments(msg);
    SegmentsJoin(msg);
  }

  lemma SubsetEqual(a: set<nat>, b: set<nat>)
    requires a <= b && |a| == |b|
    ensures a == b
  {
    if a != b {
      var x :| x in b && x !in a;
      assert a <= b - {x};
      SubsetSize(a, b - {x});
    }
  }

  lemma {:induction false} SubsetSize(a: set<nat>, b: set<nat>)
    requires a <= b
    ensures |a| <= |b|
  {
    if a != {} {
      var x :| x in a;
      SubsetSize(a - {x}, b - {x});
    }
  }

  lemma GotInRange(msgs: Messages, arrivals: seq<Arrival>, q: U32)
    requires InRange(msgs, arrivals) && q in msgs
    ensures Got(arrivals, q) <= Wanted(MaxSegIdx(|msgs[q]|) + 1)
  {
    GotMeans(arrivals, q);
    forall k | k in Got(arrivals, q) ensures k in Wanted(MaxSegIdx(|msgs[q]|) + 1) {
      var t :| 0 <= t < |arrivals| && arrivals[t] == Arrival(q, k);
    }
  }

  lemma NewBufferOK(msg: Bytes)
    requires MaxSegIdx(|msg|) <= MAX_UINT16
    ensures BufferOK(NewBuffer(MaxSegIdx(|msg|)), msg, {})
  {}

  lemma GotSnoc(before: seq<Arrival>, a: Arrival, q: U32)
    ensures Got(before + [a], q) == Got(before, q) + (if a.seqNum == q then {a.segIdx} else {})
  {
    assert (before + [a])[..|before|] == before;
  }

  lemma NotBefore(msgs: Messages, before: seq<Arrival>, a: Arrival)
    requires Legal(msgs, before + [a])
    ensures a.segIdx !in Got(before, a.seqNum) && Legal(msgs, before)
  {
    LegalPrefix(msgs, before + [a], |before|);
    assert (before + [a])[..|before|] == before;
    forall t | 0 <= t < |before| ensures before[t] != a {
      assert (before + [a])[t] == before[t] && (before + [a])[|before|] == a;
    }
    GotMeans(before, a.seqNum);
  }

  /** A message with a segment still to come has no buffer only when nothing of it came. */
  lemma NotYet(msgs: Messages, before: seq<Arrival>, q: U32, k: nat)
    requires q in msgs && k <= MaxSegIdx(|msgs[q]|) && k !in Got(before, q) && !Waiting(msgs, before, q)
    ensures Got(before, q) == {}
  {
    assert k in Wanted(MaxSegIdx(|msgs[q]|) + 1);
  }

  lemma OwnBuffer(msgs: Messages, before: seq<Arrival>, bufs: Buffers, a: Arrival)
    requires Sendable(msgs) && Legal(msgs, before + [a]) && BuffersOK(msgs, before, bufs)
    requires a.seqNum in msgs && a.segIdx <= MaxSegIdx(|msgs[a.seqNum]|)
    ensures var msg := msgs[a.seqNum]; var got := Got(before, a.seqNum);
      && BufferOK(BufferFor(bufs, a.seqNum, MaxSegIdx(|msg|)), msg, got)
      && a.segIdx !in got && got <= Wanted(MaxSegIdx(|msg|) + 1)
  {
    NotBefore(msgs, before, a);
    GotInRange(msgs, before, a.seqNum);
    assert OneBufferOK(msgs, before, bufs, a.seqNum);
    if a.seqNum !in bufs {
      NotYet(msgs, before, a.seqNum, a.segIdx);
      NewBufferOK(msgs[a.seqNum]);
    }
  }

  /** The buffer of message q with one more segment, when the segments so far are `got`. */
  lemma OwnBufferAfter(b: Buffer, msg: Bytes, got: set<nat>, k: nat)
    requires BufferOK(b, msg, got) && k <= MaxSegIdx(|msg|) <= MAX_UINT16 && k !in got
    requires got <= Wanted(MaxSegIdx(|msg|) + 1)
    ensures var b' := Add(b, k, SegmentAt(msg, k));
      && BufferOK(b', msg, got + {k})
      && (Completes(b, k, SegmentAt(msg, k)) <==> Receivable(msg) && got + {k} == Wanted(MaxSegIdx(|msg|) + 1))
      && (Completes(b, k, SegmentAt(msg, k)) ==> Concat(b'.msgs) == msg)
  {
    AddOK(b, msg, got, k);
    AddCompletesIff(b, msg, got, k);
    if Completes(b, k, SegmentAt(msg, k)) { FullBuffer(Add(b, k, SegmentAt(msg, k)), msg); }
  }

  lemma OwnOK(msgs: Messages, before: seq<Arrival>, bufs: Buffers, a: Arrival)
    requires Sendable(msgs) && Legal(msgs, before + [a]) && BuffersOK(msgs, before, bufs)
    requires a.seqNum in msgs && a.segIdx <= MaxSegIdx(|msgs[a.seqNum]|)
    ensures var r := Receive(msgs, bufs, a);
      && OneBufferOK(msgs, before + [a], r.bufs, a.seqNum)
      && r.msg == if Receivable(msgs[a.seqNum]) && Complete(msgs, before + [a], a.seqNum)
                  then Some(msgs[a.seqNum]) else None
  {
    var q, msg := a.seqNum, msgs[a.seqNum];
    OwnBuffer(msgs, before, bufs, a);
    OwnBufferAfter(BufferFor(bufs, q, MaxSegIdx(|msg|)), msg, Got(before, q), a.segIdx);
    GotSnoc(before, a, q);
    assert Complete(msgs, before + [a], q) <==> Got(before, q) + {a.segIdx} == Wanted(MaxSegIdx(|msg|) + 1);
  }

  lemma OtherOK(msgs: Messages, before: seq<Arrival>, bufs: Buffers, a: Arrival, q: U32)
    requires Sendable(msgs) && a.seqNum in msgs && a.segIdx <= MaxSegIdx(|msgs[a.seqNum]|)
    requires q != a.seqNum && OneBufferOK(msgs, before, bufs, q)
    ensures OneBufferOK(msgs, before + [a], Receive(msgs, bufs, a).bufs, q)
  {
    GotSnoc(before, a, q);
  }

  /** The last of the arrivals. */
  lemma ReceiveOK(msgs: Messages, before: seq<Arrival>, bufs: Buffers, a: Arrival)
    requires Sendable(msgs) && Legal(msgs, before + [a]) && BuffersOK(msgs, before, bufs)
    requires a.seqNum in msgs && a.segIdx <= MaxSegIdx(|msgs[a.seqNum]|)
    ensures var r := Receive(msgs, bufs, a);
      && BuffersOK(msgs, before + [a], r.bufs)
      && r.msg == if Receivable(msgs[a.seqNum]) && Complete(msgs, before + [a], a.seqNum)
                  then Some(msgs[a.seqNum]) else None
  {
    OwnOK(msgs, before, bufs, a);
    forall q ensures OneBufferOK(msgs, before + [a], Receive(msgs, bufs, a).bufs, q) {
      if q != a.seqNum {
        assert OneBufferOK(msgs, before, bufs, q);
        OtherOK(msgs, before, bufs, a, q);
      }
    }
  }

  // ---- results ----

  lemma {:induction false} ArrivalsKeepBuffers(msgs: Messages, arrivals: seq<Arrival>)
    requires Sendable(msgs) && Legal(msgs, arrivals)
    ensures BuffersOK(msgs, arrivals, ReceiveAll(msgs, arrivals).bufs)
  {
    if arrivals != [] {
      var n := |arrivals| - 1;
      LegalPrefix(msgs, arrivals, n);
      ArrivalsKeepBuffers(msgs, arrivals[..n]);
      assert arrivals == arrivals[..n] + [arrivals[n]];
      ReceiveOK(msgs, arrivals[..n], ReceiveAll(msgs, arrivals[..n]).bufs, arrivals[n]);
    }
  }

  /** An arrival returns a message exactly when it is the last missing segment of a receivable one,
      and the message returned is the one sent. */
  lemma ReturnedAtLastSegment(msgs: Messages, arrivals: seq<Arrival>)
    requires Sendable(msgs) && Legal(msgs, arrivals) && arrivals != []
    ensures var q := arrivals[|arrivals| - 1].seqNum;
      ReceiveAll(msgs, arrivals).msg ==
        if Receivable(msgs[q]) && Complete(msgs, arrivals, q) then Some(msgs[q]) else None
  {
    var n := |arrivals| - 1;
    LegalPrefix(msgs, arrivals, n);
    ArrivalsKeepBuffers(msgs, arrivals[..n]);
    assert arrivals == arrivals[..n] + [arrivals[n]];
    ReceiveOK(msgs, arrivals[..n], ReceiveAll(msgs, arrivals[..n]).bufs, arrivals[n]);
  }

  ghost predicate AllArrived(msgs: Messages, arrivals: seq<Arrival>) {
    forall q, k: nat :: q in msgs && k <= MaxSegIdx(|msgs[q]|) ==> Arrival(q, k) in arrivals
  }

  lemma AllOfOne(msgs: Messages, arrivals: seq<Arrival>, q: U32)
    requires Legal(msgs, arrivals) && AllArrived(msgs, arrivals) && q in msgs
    ensures Complete(msgs, arrivals, q) && Got(arrivals, q) != {}
  {
    GotMeans(arrivals, q);
    GotInRange(msgs, arrivals, q);
    forall k | k in Wanted(MaxSegIdx(|msgs[q]|) + 1) ensures k in Got(arrivals, q) {
      assert Arrival(q, k) in arrivals;
    }
    assert 0 in Wanted(MaxSegIdx(|msgs[q]|) + 1);
  }

  /** Once every segment has arrived, the buffers left are those of the messages that need index
      65535; so none is left exactly when there is no such message. */
  lemma NothingLeftBehindIff(msgs: Messages, arrivals: seq<Arrival>)
    requires Sendable(msgs) && Legal(msgs, arrivals) && AllArrived(msgs, arrivals)
    ensures var bufs := ReceiveAll(msgs, arrivals).bufs;
      forall q :: q in bufs <==> q in msgs && !Receivable(msgs[q])
  {
    ArrivalsKeepBuffers(msgs, arrivals);
    var bufs := ReceiveAll(msgs, arrivals).bufs;
    forall q ensures q in bufs <==> q in msgs && !Receivable(msgs[q]) {
      assert OneBufferOK(msgs, arrivals, bufs, q);
      if q in msgs { AllOfOne(msgs, arrivals, q); }
    }
  }

  /** By length: of the messages that can be sent, those left behind are those of 65535 full segments and
      more, such as one of exactly 65535 * 1188 bytes. */
  lemma LongestLeftBehind(msgs: Messages, arrivals: seq<Arrival>, q: U32)
    requires Sendable(msgs) && Legal(msgs, arrivals) && AllArrived(msgs, arrivals) && q in msgs
    ensures q in ReceiveAll(msgs, arrivals).bufs <==> 65535 * MAX_PAYLOAD_SIZE <= |msgs[q]|
  {
    NothingLeftBehindIff(msgs, arrivals);
    LastIndexNeeded(|msgs[q]|);
  }

  lemma LastIndexNeeded(len: nat)
    requires MaxSegIdx(len) <= MAX_UINT16
    ensures MaxSegIdx(len) == MAX_UINT16 <==> 65535 * MAX_PAYLOAD_SIZE <= len
  {}

  /** Nothing of a message arrives after the arrival that returned it, so it is returned once. */
  lemma ReturnedOnce(msgs: Messages, arrivals: seq<Arrival>, t: nat, u: nat)
    requires Sendable(msgs) && Legal(msgs, arrivals) && t < u < |arrivals| && Legal(msgs, arrivals[..t + 1])
    requires ReceiveAll(msgs, arrivals[..t + 1]).msg.Some?
    ensures arrivals[u].seqNum != arrivals[t].seqNum
  {
    ReturnedAtLastSegment(msgs, arrivals[..t + 1]);
    AllSeen(msgs, arrivals[..t + 1], arrivals[t].seqNum);
    assert arrivals[u] !in arrivals[..t + 1];
  }

  lemma AllSeen(msgs: Messages, seen: seq<Arrival>, q: U32)
    requires q in msgs && Complete(msgs, seen, q)
    ensures forall a: Arrival :: a.seqNum == q && a.segIdx <= MaxSegIdx(|msgs[q]|) ==> a in seen
  {
    GotMeans(seen, q);
    forall a: Arrival | a.seqNum == q && a.segIdx <= MaxSegIdx(|msgs[q]|) ensures a in seen {
      assert a.segIdx in Wanted(MaxSegIdx(|msgs[q]|) + 1);
      assert a == Arrival(q, a.segIdx);
    }
  }

  /** What the receiver does with a datagram of SendTo is what it does with that arrival. */
  lemma SentDatagramIsArrival(msgs: Messages, bufs: Buffers, a: Arrival)
    requires Sendable(msgs) && a.seqNum in msgs && a.segIdx <= MaxSegIdx(|msgs[a.seqNum]|)
    requires 0 <= a.seqNum <= MAX_UINT32 && AllBytes(msgs[a.seqNum])
    ensures var bs := Datagrams(a.seqNum, msgs[a.seqNum])[a.segIdx];
      |bs| >= 8 && AllBytes(bs) && ReceiveDatagram(bufs, bs) == Receive(msgs, bufs, a)
  {
    var msg := msgs[a.seqNum];
    DatagramRoundTrip(a.seqNum, MaxSegIdx(|msg|), a.segIdx, SegmentAt(msg, a.segIdx));
    DatagramBytes(a.seqNum, MaxSegIdx(|msg|), a.segIdx, SegmentAt(msg, a.segIdx));
  }

  lemma DatagramBytes(seqNum: U32, maxIdx: U16, segIdx: U16, payload: Bytes)
    requires AllBytes(payload)
    ensures AllBytes(Datagram(seqNum, maxIdx, segIdx, payload))
  {}
}
