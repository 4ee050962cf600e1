/** The receiver as objects updated in place (internal/segment/read_buffer.go). */
module SegmentReceiver {
  import opened ByteStrings
  import opened Prelude
  import opened SegmentSender
  import opened SegmentReassembly

  class ReadBuffer {
    var SegCount: int
    var MsgSize: int
    const Msgs: array<Bytes>

    ghost function View(): Buffer
      reads this, Msgs
    {
      Buffer(SegCount, MsgSize, Msgs[..])
    }

    constructor (maxSegIdx: U16)
      requires 0 <= maxSegIdx <= MAX_UINT16
      ensures View() == NewBuffer(maxSegIdx) && fresh(Msgs)
    {
      SegCount, MsgSize := 0, 0;
      Msgs := new Bytes[(maxSegIdx + 1) % (MAX_UINT16 + 1)](_ => []);
    }

    method Add(segIdx: U16, bs: Bytes) returns (msg: Option<Bytes>)
      requires 0 <= segIdx
      modifies this, Msgs
      ensures View() == SegmentReassembly.Add(old(View()), segIdx, bs)
      ensures msg == if Completes(old(View()), segIdx, bs) then Some(Concat(View().msgs)) else None
    {
      if Msgs.Length <= segIdx { return None; }
      SegCount := SegCount + 1;
      MsgSize := MsgSize + |bs|;
      Msgs[segIdx] := bs;
      if Msgs.Length == SegCount {
        var m := Build();
        return Some(m);
      }
      return None;
    }

    method Build() returns (res: Bytes)
      ensures res == Concat(Msgs[..])
    {
      res := [];
      for i := 0 to Msgs.Length
        invariant res == Concat(Msgs[..i])
      {
        assert Msgs[..i + 1][..i] == Msgs[..i];
        res := res + Msgs[i];
      }
      assert Msgs[..Msgs.Length] == Msgs[..];
    }
  }

  class ReadBuffers {
    var buffers: map<U32, ReadBuffer>
    ghost var Repr: set<object>

    /** Every buffer is its own object with its own slots. */
    ghost predicate Valid()
      reads this, Repr
    {
      && this in Repr
      && (forall q :: q in buffers ==>
            buffers[q] in Repr && buffers[q].Msgs in Repr)
      && (forall q, r :: q in buffers && r in buffers && q != r ==>
            buffers[q] != buffers[r] && buffers[q].Msgs != buffers[r].Msgs)
    }

    ghost function View(): Buffers
      requires Valid()
      reads this, Repr
    {
      map q | q in buffers :: buffers[q].View()
    }

    constructor ()
      ensures Valid() && fresh(Repr) && View() == map[]
    {
      buffers := map[];
      Repr := {this};
    }

    method Receive(bs: Bytes) returns (msg: Option<Bytes>)
      requires Valid() && |bs| >= 8 && AllBytes(bs)
      modifies Repr
      ensures Valid() && fresh(Repr - old(Repr))
      ensures View() == ReceiveDatagram(old(View()), bs).bufs
      ensures msg == ReceiveDatagram(old(View()), bs).msg
    {
      msg := ReceiveParsed(Read32(bs[..4]), Read16(bs[4..6]), Read16(bs[6..8]), bs[8..]);
    }

    method ReceiveParsed(seqNum: U32, maxSegIdx: U16, segIdx: U16, payload: Bytes) returns (msg: Option<Bytes>)
      requires Valid() && 0 <= maxSegIdx <= MAX_UINT16 && 0 <= segIdx
      modifies Repr
      ensures Valid() && fresh(Repr - old(Repr))
      ensures View() == ReceiveSegment(old(View()), seqNum, maxSegIdx, segIdx, payload).bufs
      ensures msg == ReceiveSegment(old(View()), seqNum, maxSegIdx, segIdx, payload).msg
    {
      ReceiveInto(View(), seqNum, maxSegIdx, segIdx, payload);
      var buf := BufferOf(seqNum, maxSegIdx);
      msg := AddAndTake(buf, seqNum, maxSegIdx, segIdx, payload);
    }

    /** One segment into its buffer, which is dropped once complete. */
    method AddAndTake(buf: ReadBuffer, seqNum: U32, ghost maxSegIdx: U16, segIdx: U16, payload: Bytes)
      returns (msg: Option<Bytes>)
      requires Valid() && 0 <= maxSegIdx <= MAX_UINT16 && 0 <= segIdx
      requires seqNum in buffers && buf == buffers[seqNum]
      modifies this`buffers, buf, buf.Msgs
      ensures Valid()
      ensures View() == ReceiveSegment(old(View()), seqNum, maxSegIdx, segIdx, payload).bufs
      ensures msg == ReceiveSegment(old(View()), seqNum, maxSegIdx, segIdx, payload).msg
    {
      ghost var was := View();
      msg := AddTo(buf, seqNum, segIdx, payload);
      if msg.Some? {
        Remove(seqNum);
        assert View() == was - {seqNum};
      }
    }

    method Remove(seqNum: U32)
      requires Valid()
      modifies this`buffers
      ensures Valid() && View() == old(View()) - {seqNum}
    {
      buffers := buffers - {seqNum};
    }

    /** The buffer of a message, made when its first segment arrives. */
    method BufferOf(seqNum: U32, maxSegIdx: U16) returns (buf: ReadBuffer)
      requires Valid() && 0 <= maxSegIdx <= MAX_UINT16
      modifies this
      ensures Valid() && fresh(Repr - old(Repr))
      ensures seqNum in buffers && buf == buffers[seqNum]
      ensures View() == old(View())[seqNum := BufferFor(old(View()), seqNum, maxSegIdx)]
    {
      if seqNum !in buffers {
        var b := new ReadBuffer(maxSegIdx);
        buffers := buffers[seqNum := b];
        Repr := Repr + {b, b.Msgs};
      }
      buf := buffers[seqNum];
    }

    /** One segment into one buffer; the others keep theirs. */
    method AddTo(buf: ReadBuffer, seqNum: U32, segIdx: U16, payload: Bytes) returns (msg: Option<Bytes>)
      requires Valid() && seqNum in buffers && buf == buffers[seqNum] && 0 <= segIdx
      modifies buf, buf.Msgs
      ensures Valid()
      ensures View() == old(View())[seqNum := SegmentReassembly.Add(old(View())[seqNum], segIdx, payload)]
      ensures msg == if Completes(old(View())[seqNum], segIdx, payload) then Some(Concat(View()[seqNum].msgs)) else None
    {
      msg := buf.Add(segIdx, payload);
      forall q | q in buffers && q != seqNum ensures buffers[q].View() == old(buffers[q].View()) {
        assert buffers[q] != buf && buffers[q].Msgs != buf.Msgs;
      }
    }
  }

  /** Making the buffer first changes nothing. */
  lemma ReceiveInto(bufs: Buffers, seqNum: U32, maxSegIdx: U16, segIdx: U16, payload: Bytes)
    requires 0 <= maxSegIdx <= MAX_UINT16 && 0 <= segIdx
    ensures var more := bufs[seqNum := BufferFor(bufs, seqNum, maxSegIdx)];
      ReceiveSegment(more, seqNum, maxSegIdx, segIdx, payload) ==
        ReceiveSegment(bufs, seqNum, maxSegIdx, segIdx, payload)
  {
    var more := bufs[seqNum := BufferFor(bufs, seqNum, maxSegIdx)];
    assert more - {seqNum} == bufs - {seqNum};
  }
}
