/** Splitting a message into datagrams (internal/segment/sender.go, package.go). */
module SegmentSender {
  import opened ByteStrings
  import opened Prelude

  const MAX_DATAGRAM_FRAME_SIZE := 1196
  const MAX_PAYLOAD_SIZE := MAX_DATAGRAM_FRAME_SIZE - 8

  // ---- the 8-byte big-endian header ----

  function BE32(n: U32): Bytes { BE16(n / 0x1_0000) + BE16(n % 0x1_0000) }

  function Read32(bs: Bytes): U32
    requires |bs| >= 4
  {
    Read16(bs[..2]) * 0x1_0000 + Read16(bs[2..4])
  }

  /** Four bytes, the most significant first. */
  lemma BE32IsBigEndian(n: U32)
    requires 0 <= n <= MAX_UINT32
    ensures var bs := BE32(n);
      && |bs| == 4 && AllBytes(bs)
      && n == bs[0] * 0x100_0000 + bs[1] * 0x1_0000 + bs[2] * 0x100 + bs[3]
      && Read32(bs) == n
  {
    var hi, lo := n / 0x1_0000, n % 0x1_0000;
    Read16BE16(hi, []);
    Read16BE16(lo, []);
    assert BE32(n)[..2] == BE16(hi) + [] && BE32(n)[2..4] == BE16(lo) + [];
  }

  function Datagram(seqNum: U32, maxIdx: U16, segIdx: U16, payload: Bytes): Bytes {
    BE32(seqNum) + BE16(maxIdx) + BE16(segIdx) + payload
  }

  /** The receiver reads back the three header fields and the payload. */
  lemma DatagramRoundTrip(seqNum: U32, maxIdx: U16, segIdx: U16, payload: Bytes)
    requires 0 <= seqNum <= MAX_UINT32 && 0 <= maxIdx <= MAX_UINT16 && 0 <= segIdx <= MAX_UINT16
    ensures var bs := Datagram(seqNum, maxIdx, segIdx, payload);
      && |bs| == 8 + |payload|
      && Read32(bs[..4]) == seqNum && Read16(bs[4..6]) == maxIdx && Read16(bs[6..8]) == segIdx
      && bs[8..] == payload
  {
    var bs := Datagram(seqNum, maxIdx, segIdx, payload);
    var hi, lo := seqNum / 0x1_0000, seqNum % 0x1_0000;
    Read16BE16(hi, []);
    Read16BE16(lo, []);
    Read16BE16(maxIdx, []);
    Read16BE16(segIdx, []);
    assert bs[..4][..2] == BE16(hi) + [];
    assert bs[..4][2..4] == BE16(lo) + [];
    assert bs[4..6] == BE16(maxIdx) + [];
    assert bs[6..8] == BE16(segIdx) + [];
  }

  // ---- segments ----

  /** Index of the last segment. A message of exactly k * MAX_PAYLOAD_SIZE bytes, k >= 2, ends with an
      empty one. */
  function MaxSegIdx(len: nat): nat {
    if len <= MAX_PAYLOAD_SIZE then 0 else len / MAX_PAYLOAD_SIZE
  }

  function SegmentAt(msg: Bytes, k: nat): Bytes
    requires k <= MaxSegIdx(|msg|)
  {
    Bounds(|msg|, k);
    if k == MaxSegIdx(|msg|) then msg[k * MAX_PAYLOAD_SIZE..]
    else msg[k * MAX_PAYLOAD_SIZE..(k + 1) * MAX_PAYLOAD_SIZE]
  }

  lemma Bounds(len: nat, k: nat)
    requires k <= MaxSegIdx(len)
    ensures k * MAX_PAYLOAD_SIZE <= len
    ensures k < MaxSegIdx(len) ==> (k + 1) * MAX_PAYLOAD_SIZE <= len
    ensures k == MaxSegIdx(len) ==> len - k * MAX_PAYLOAD_SIZE <= MAX_PAYLOAD_SIZE
  {
    if len > MAX_PAYLOAD_SIZE {
      assert len == len / MAX_PAYLOAD_SIZE * MAX_PAYLOAD_SIZE + len % MAX_PAYLOAD_SIZE;
    }
  }

  function Segments(msg: Bytes): seq<Bytes> {
    seq(MaxSegIdx(|msg|) + 1, k requires 0 <= k <= MaxSegIdx(|msg|) => SegmentAt(msg, k))
  }

  lemma {:induction false} ConcatPrefix(msg: Bytes, k: nat)
    requires k <= MaxSegIdx(|msg|)
    ensures k * MAX_PAYLOAD_SIZE <= |msg| && Concat(Segments(msg)[..k]) == msg[..k * MAX_PAYLOAD_SIZE]
  {
    Bounds(|msg|, k);
    if k > 0 {
      Bounds(|msg|, k - 1);
      ConcatPrefix(msg, k - 1);
      assert Segments(msg)[..k][..k - 1] == Segments(msg)[..k - 1];
      assert msg[..k * MAX_PAYLOAD_SIZE] ==
        msg[..(k - 1) * MAX_PAYLOAD_SIZE] + msg[(k - 1) * MAX_PAYLOAD_SIZE..k * MAX_PAYLOAD_SIZE];
    }
  }

  /** The segments put together are the message, and each fits a datagram. */
  lemma SegmentsJoin(msg: Bytes)
    ensures Concat(Segments(msg)) == msg
    ensures forall k :: 0 <= k < |Segments(msg)| ==> |Segments(msg)[k]| <= MAX_PAYLOAD_SIZE
  {
    var n := MaxSegIdx(|msg|);
    ConcatPrefix(msg, n);
    assert msg == msg[..n * MAX_PAYLOAD_SIZE] + msg[n * MAX_PAYLOAD_SIZE..];
    forall k | 0 <= k <= n ensures |Segments(msg)[k]| <= MAX_PAYLOAD_SIZE { Bounds(|msg|, k); }
  }

  /** Everything SendTo emits for one message. */
  function Datagrams(seqNum: U32, msg: Bytes): seq<Bytes> {
    seq(MaxSegIdx(|msg|) + 1, k requires 0 <= k <= MaxSegIdx(|msg|) =>
      Datagram(seqNum, MaxSegIdx(|msg|), k, SegmentAt(msg, k)))
  }

  function TotalSize(parts: seq<Bytes>): nat {
    if parts == [] then 0 else TotalSize(parts[..|parts| - 1]) + |parts[|parts| - 1]|
  }

  lemma SegmentSize(msg: Bytes, k: nat)
    requires k <= MaxSegIdx(|msg|)
    ensures |SegmentAt(msg, k)| <= MAX_PAYLOAD_SIZE
    ensures k < MaxSegIdx(|msg|) ==> |SegmentAt(msg, k)| == MAX_PAYLOAD_SIZE
    ensures k == MaxSegIdx(|msg|) ==> |SegmentAt(msg, k)| == |msg| - k * MAX_PAYLOAD_SIZE
  {
    Bounds(|msg|, k);
  }

  lemma DatagramSize(seqNum: U32, msg: Bytes, k: nat)
    requires k <= MaxSegIdx(|msg|)
    ensures |Datagrams(seqNum, msg)[k]| == 8 + |SegmentAt(msg, k)| <= MAX_DATAGRAM_FRAME_SIZE
  {
    SegmentSize(msg, k);
    DatagramLength(seqNum, MaxSegIdx(|msg|), k, SegmentAt(msg, k));
  }

  lemma DatagramLength(seqNum: U32, maxIdx: U16, segIdx: U16, payload: Bytes)
    ensures |Datagram(seqNum, maxIdx, segIdx, payload)| == 8 + |payload|
  {}

  lemma TotalSizeLast(parts: seq<Bytes>)
    requires parts != []
    ensures TotalSize(parts) == TotalSize(parts[..|parts| - 1]) + |parts[|parts| - 1]|
  {}

  lemma {:induction false} SizePrefix(seqNum: U32, msg: Bytes, k: nat)
    requires k <= MaxSegIdx(|msg|)
    ensures TotalSize(Datagrams(seqNum, msg)[..k]) == MAX_DATAGRAM_FRAME_SIZE * k
  {
    if k > 0 {
      SizePrefix(seqNum, msg, k - 1);
      SegmentSize(msg, k - 1);
      DatagramSize(seqNum, msg, k - 1);
      assert Datagrams(seqNum, msg)[..k][..k - 1] == Datagrams(seqNum, msg)[..k - 1];
    }
  }

  lemma FrameArithmetic(len: int, n: int)
    ensures MAX_DATAGRAM_FRAME_SIZE * n + (8 + (len - n * MAX_PAYLOAD_SIZE)) == len + 8 * (n + 1)
  {}

  /** A message costs 8 bytes of header per segment on the wire. */
  lemma MessageSize(seqNum: U32, msg: Bytes)
    ensures TotalSize(Datagrams(seqNum, msg)) == |msg| + 8 * (MaxSegIdx(|msg|) + 1)
  {
    var n, ds := MaxSegIdx(|msg|), Datagrams(seqNum, msg);
    SizePrefix(seqNum, msg, n);
    SegmentSize(msg, n);
    DatagramSize(seqNum, msg, n);
    TotalSizeLast(ds);
    assert ds[..|ds| - 1] == ds[..n];
    FrameArithmetic(|msg|, n);
  }

  // ---- the sender ----

  /** A datagram socket; `budget` is how many datagrams it takes before it fails. */
  class Sender {
    var sent: seq<Bytes>
    var budget: nat

    constructor (budget: nat)
      ensures sent == [] && this.budget == budget
    {
      sent, this.budget := [], budget;
    }

    method SendDatagram(bs: Bytes) returns (ok: bool)
      modifies this
      ensures ok == (old(budget) > 0)
      ensures sent == if ok then old(sent) + [bs] else old(sent)
      ensures budget == if ok then old(budget) - 1 else 0
    {
      ok := budget > 0;
      if ok { sent, budget := sent + [bs], budget - 1; }
    }
  }

  method PutUint16(a: array<U8>, at: nat, n: U16)
    requires at + 2 <= a.Length
    modifies a
    ensures a[..] == old(a[..at]) + BE16(n) + old(a[at + 2..])
  {
    a[at], a[at + 1] := n / 0x100 % 0x100, n % 0x100;
  }

  method Send(wr: Sender, seqNum: U32, segIdx: U16, maxIdx: U16, payload: Bytes) returns (n: nat, ok: bool)
    modifies wr
    ensures ok == (old(wr.budget) > 0) && n == if ok then 8 + |payload| else 0
    ensures wr.sent == if ok then old(wr.sent) + [Datagram(seqNum, maxIdx, segIdx, payload)] else old(wr.sent)
    ensures wr.budget == if ok then old(wr.budget) - 1 else 0
  {
    var bs := new U8[8](_ => 0);
    PutUint16(bs, 0, seqNum / 0x1_0000);
    PutUint16(bs, 2, seqNum % 0x1_0000);
    PutUint16(bs, 4, maxIdx);
    PutUint16(bs, 6, segIdx);
    assert bs[..] + payload == Datagram(seqNum, maxIdx, segIdx, payload);
    ok := wr.SendDatagram(bs[..] + payload);
    n := if ok then 8 + |payload| else 0;
  }

  function Min(a: int, b: int): int { if a < b then a else b }

  /** One round of the loop of SendTo: cut the payload out and send it. */
  method SendSegment(wr: Sender, seqNum: U32, msg: Bytes, segIdx: nat) returns (n: nat, ok: bool)
    requires |msg| > MAX_PAYLOAD_SIZE && segIdx <= MaxSegIdx(|msg|)
    modifies wr
    ensures ok == (old(wr.budget) > 0) && n == if ok then |Datagrams(seqNum, msg)[segIdx]| else 0
    ensures wr.sent == if ok then old(wr.sent) + [Datagrams(seqNum, msg)[segIdx]] else old(wr.sent)
    ensures wr.budget == if ok then old(wr.budget) - 1 else 0
  {
    Bounds(|msg|, segIdx);
    DatagramSize(seqNum, msg, segIdx);
    var maxSegIdx := |msg| / MAX_PAYLOAD_SIZE;
    var offset := segIdx * MAX_PAYLOAD_SIZE;
    var payload := if segIdx == maxSegIdx then msg[offset..] else msg[offset..offset + MAX_PAYLOAD_SIZE];
    assert payload == SegmentAt(msg, segIdx);
    n, ok := Send(wr, seqNum, segIdx, maxSegIdx, payload);
  }

  lemma TakeOneMore(parts: seq<Bytes>, k: nat)
    requires k < |parts|
    ensures parts[..k + 1] == parts[..k] + [parts[k]]
    ensures TotalSize(parts[..k + 1]) == TotalSize(parts[..k]) + |parts[k]|
  {
    assert parts[..k + 1][..k] == parts[..k];
  }

  /** The loop of SendTo. */
  method SendSegments(wr: Sender, seqNum: U32, msg: Bytes) returns (size: nat, ok: bool)
    requires |msg| > MAX_PAYLOAD_SIZE
    modifies wr
    ensures ok <==> |Datagrams(seqNum, msg)| <= old(wr.budget)
    ensures var ds := Datagrams(seqNum, msg); wr.sent == old(wr.sent) + ds[..Min(|ds|, old(wr.budget))]
    ensures size == if ok then TotalSize(Datagrams(seqNum, msg)) else 0
  {
    ghost var ds := Datagrams(seqNum, msg);
    var count := |msg| / MAX_PAYLOAD_SIZE + 1;
    size := 0;
    for segIdx := 0 to count
      invariant wr.sent == old(wr.sent) + ds[..segIdx]
      invariant size == TotalSize(ds[..segIdx])
      invariant wr.budget == old(wr.budget) - segIdx
    {
      TakeOneMore(ds, segIdx);
      var n, sent := SendSegment(wr, seqNum, msg, segIdx);
      if !sent { return 0, false; }
      size := size + n;
    }
    assert ds[..count] == ds;
    ok := true;
  }

  /** SendTo. A message that needs an index beyond uint16 is refused before anything is sent; a
      failing socket has sent the datagrams before the failure and no size is reported. */
  method SendTo(wr: Sender, seqNum: U32, msg: Bytes) returns (size: nat, ok: bool)
    modifies wr
    ensures ok <==> MaxSegIdx(|msg|) <= MAX_UINT16 && |Datagrams(seqNum, msg)| <= old(wr.budget)
    ensures MaxSegIdx(|msg|) > MAX_UINT16 ==> wr.sent == old(wr.sent)
    ensures MaxSegIdx(|msg|) <= MAX_UINT16 ==>
      var ds := Datagrams(seqNum, msg); wr.sent == old(wr.sent) + ds[..Min(|ds|, old(wr.budget))]
    ensures size == if ok then |msg| + 8 * (MaxSegIdx(|msg|) + 1) else 0
  {
    if |msg| <= MAX_PAYLOAD_SIZE {
      size, ok := Send(wr, seqNum, 0, 0, msg);
      assert Datagrams(seqNum, msg) == [Datagram(seqNum, 0, 0, msg)];
      return;
    }
    if |msg| / MAX_PAYLOAD_SIZE > MAX_UINT16 { return 0, false; }
    MessageSize(seqNum, msg);
    size, ok := SendSegments(wr, seqNum, msg);
  }
}
