/**
 Reassembly when segments arrive more than once (internal/segment/read_buffer.go:59-71): the receiver
 counts arrivals, not segments. So the arrivals of a message come in rounds of as many as it has
 segments; each round ends with a message being returned, and this says when it is the one sent.
 */
module SegmentDuplicates {
  import opened ByteStrings
  import opened Prelude
  import opened SegmentReassembly
  import opened SegmentSender

  /** The segment indices of message q, in the order of arrival. */
  function Of(arrivals: seq<Arrival>, q: U32): seq<nat> {
    if arrivals == [] then []
    else
      var last := arrivals[|arrivals| - 1];
      Of(arrivals[..|arrivals| - 1], q) + (if last.seqNum == q then [last.segIdx] else [])
  }

  /** The arrivals since the last round of n was full. */
  function Round(ks: seq<nat>, n: nat): seq<nat> {
    if ks == [] then []
    else
      var r := Round(ks[..|ks| - 1], n);
      if |r| + 1 == n then [] else r + [ks[|ks| - 1]]
  }

  /** m is 0, n, 2n, ... */
  predicate Multiple(m: nat, n: nat)
    requires n > 0
  {
    m == 0 || (n <= m && Multiple(m - n, n))
  }

  lemma {:induction false} NotMultiple(m: nat, r: nat, n: nat)
    requires 0 < r < n && Multiple(m, n)
    ensures !Multiple(m + r, n)
    decreases m
  {
    if m > 0 { NotMultiple(m - n, r, n); }
  }

  /** Rounds are n arrivals long, whatever arrives. */
  lemma {:induction false} RoundsAreFull(ks: seq<nat>, n: nat)
    requires n > 0
    ensures |Round(ks, n)| < n && |Round(ks, n)| <= |ks| && Multiple(|ks| - |Round(ks, n)|, n)
  {
    if ks != [] {
      var before := ks[..|ks| - 1];
      RoundsAreFull(before, n);
      if |Round(before, n)| + 1 == n { assert |ks| - n == |before| - |Round(before, n)|; }
    }
  }

  lemma {:induction false} RoundIsTail(ks: seq<nat>, n: nat)
    ensures |Round(ks, n)| <= |ks| && Round(ks, n) == ks[|ks| - |Round(ks, n)|..]
  {
    if ks != [] { RoundIsTail(ks[..|ks| - 1], n); }
  }

  /** One more arrival fills its round exactly when it makes the count a multiple of n, and the round
      is then the last n arrivals. */
  lemma RoundFills(ks: seq<nat>, k: nat, n: nat)
    requires n > 0
    ensures |Round(ks, n)| + 1 == n <==> Multiple(|ks + [k]|, n)
    ensures |Round(ks, n)| + 1 == n ==>
      n <= |ks + [k]| && Round(ks, n) + [k] == (ks + [k])[|ks + [k]| - n..]
  {
    RoundsAreFull(ks, n);
    RoundIsTail(ks, n);
    var r := |Round(ks, n)|;
    if r + 1 < n { NotMultiple(|ks| - r, r + 1, n); }
  }

  // ---- one buffer ----

  /** The slots once the segments `round` have arrived. */
  function Slots(msg: Bytes, round: seq<nat>): seq<Bytes> {
    seq(MaxSegIdx(|msg|) + 1, k requires 0 <= k <= MaxSegIdx(|msg|) => if k in round then SegmentAt(msg, k) else [])
  }

  ghost predicate Holds(b: Buffer, msg: Bytes, round: seq<nat>) {
    b.count == |round| && b.msgs == Slots(msg, round)
  }

  lemma AddHolds(b: Buffer, msg: Bytes, round: seq<nat>, k: nat)
    requires Holds(b, msg, round) && k <= MaxSegIdx(|msg|)
    ensures Holds(Add(b, k, SegmentAt(msg, k)), msg, round + [k])
    ensures Completes(b, k, SegmentAt(msg, k)) <==> |round + [k]| == MaxSegIdx(|msg|) + 1
  {}

  /** The buffer of a receivable message holds the unfinished round. */
  ghost predicate BufferOf(bufs: Buffers, q: U32, msg: Bytes, ks: seq<nat>) {
    var round := Round(ks, MaxSegIdx(|msg|) + 1);
    && (q in bufs <==> round != [])
    && (q in bufs ==> Holds(bufs[q], msg, round))
  }

  lemma OwnArrival(msgs: Messages, bufs: Buffers, a: Arrival, ks: seq<nat>)
    requires Sendable(msgs) && a.seqNum in msgs && a.segIdx <= MaxSegIdx(|msgs[a.seqNum]|)
    requires Receivable(msgs[a.seqNum]) && BufferOf(bufs, a.seqNum, msgs[a.seqNum], ks)
    ensures var msg := msgs[a.seqNum]; var r := Receive(msgs, bufs, a);
      var round := Round(ks, MaxSegIdx(|msg|) + 1) + [a.segIdx];
      && BufferOf(r.bufs, a.seqNum, msg, ks + [a.segIdx])
      && r.msg == if |round| == MaxSegIdx(|msg|) + 1 then Some(Concat(Slots(msg, round))) else None
  {
    var msg := msgs[a.seqNum];
    var b := BufferFor(bufs, a.seqNum, MaxSegIdx(|msg|));
    var round := Round(ks, MaxSegIdx(|msg|) + 1);
    assert Holds(b, msg, round);
    AddHolds(b, msg, round, a.segIdx);
    assert (ks + [a.segIdx])[..|ks|] == ks;
  }

  lemma {:induction false} ArrivalsKeepRounds(msgs: Messages, arrivals: seq<Arrival>, q: U32)
    requires Sendable(msgs) && InRange(msgs, arrivals) && q in msgs && Receivable(msgs[q])
    ensures BufferOf(ReceiveAll(msgs, arrivals).bufs, q, msgs[q], Of(arrivals, q))
  {
    if arrivals != [] {
      var before, a := arrivals[..|arrivals| - 1], arrivals[|arrivals| - 1];
      ArrivalsKeepRounds(msgs, before, q);
      var bufs := ReceiveAll(msgs, before).bufs;
      if a.seqNum == q {
        OwnArrival(msgs, bufs, a, Of(before, q));
      } else {
        OtherArrival(msgs, bufs, a, q);
        assert Of(arrivals, q) == Of(before, q);
      }
    }
  }

  lemma OtherArrival(msgs: Messages, bufs: Buffers, a: Arrival, q: U32)
    requires Sendable(msgs) && a.seqNum in msgs && a.segIdx <= MaxSegIdx(|msgs[a.seqNum]|) && a.seqNum != q
    ensures var bufs' := Receive(msgs, bufs, a).bufs;
      (q in bufs' <==> q in bufs) && (q in bufs ==> bufs'[q] == bufs[q])
  {}

  // ---- when the slots make the message ----

  lemma {:induction false} ConcatLength(parts: seq<Bytes>)
    ensures |Concat(parts)| == TotalSize(parts)
  {
    if parts != [] { ConcatLength(parts[..|parts| - 1]); }
  }

  lemma {:induction false} PartsShrink(less: seq<Bytes>, more: seq<Bytes>)
    requires |less| == |more| && forall k :: 0 <= k < |less| ==> |less[k]| <= |more[k]|
    ensures TotalSize(less) <= TotalSize(more)
    ensures (exists k :: 0 <= k < |less| && |less[k]| < |more[k]|) ==> TotalSize(less) < TotalSize(more)
  {
    if less != [] {
      var n := |less| - 1;
      PartsShrink(less[..n], more[..n]);
      if k :| 0 <= k < |less| && |less[k]| < |more[k]| {
        if k < n { assert |less[..n][k]| < |more[..n][k]|; }
      }
    }
  }

  /** Every segment with any bytes in it is among `round`. */
  ghost predicate Covers(msg: Bytes, round: seq<nat>) {
    forall k: nat :: k <= MaxSegIdx(|msg|) && SegmentAt(msg, k) != [] ==> k in round
  }

  lemma SlotsMakeMessageIff(msg: Bytes, round: seq<nat>)
    ensures Concat(Slots(msg, round)) == msg <==> Covers(msg, round)
  {
    SegmentsJoin(msg);
    if Covers(msg, round) {
      assert Slots(msg, round) == Segments(msg);
    } else {
      var k: nat :| k <= MaxSegIdx(|msg|) && SegmentAt(msg, k) != [] && k !in round;
      assert |Slots(msg, round)[k]| < |Segments(msg)[k]|;
      PartsShrink(Slots(msg, round), Segments(msg));
      ConcatLength(Slots(msg, round));
      ConcatLength(Segments(msg));
    }
  }

  /** What the last arrival returns, in terms of the round it belongs to. */
  lemma ReturnedRound(msgs: Messages, before: seq<Arrival>, a: Arrival)
    requires Sendable(msgs) && InRange(msgs, before + [a]) && InRange(msgs, before)
    requires a.seqNum in msgs && Receivable(msgs[a.seqNum])
    ensures var msg := msgs[a.seqNum];
      var round := Round(Of(before, a.seqNum), MaxSegIdx(|msg|) + 1) + [a.segIdx];
      var got := ReceiveAll(msgs, before + [a]).msg;
      && (got.Some? <==> |round| == MaxSegIdx(|msg|) + 1)
      && (got.Some? ==> (got == Some(msg) <==> Covers(msg, round)))
  {
    assert (before + [a])[|before|] == a && (before + [a])[..|before|] == before;
    var msg, ks := msgs[a.seqNum], Of(before, a.seqNum);
    ArrivalsKeepRounds(msgs, before, a.seqNum);
    OwnArrival(msgs, ReceiveAll(msgs, before).bufs, a, ks);
    SlotsMakeMessageIff(msg, Round(ks, MaxSegIdx(|msg|) + 1) + [a.segIdx]);
  }

  /** Whatever arrives how often and in whatever order: an arrival returns something exactly when it is
      the last of a round of as many arrivals as the message has segments; and what it returns is the
      message sent exactly when every segment with bytes in it is among that round. */
  lemma ReturnedAfterEachRound(msgs: Messages, arrivals: seq<Arrival>, q: U32)
    requires Sendable(msgs) && InRange(msgs, arrivals) && arrivals != []
    requires arrivals[|arrivals| - 1].seqNum == q && Receivable(msgs[q])
    ensures var n, ks, got := MaxSegIdx(|msgs[q]|) + 1, Of(arrivals, q), ReceiveAll(msgs, arrivals).msg;
      && (got.Some? <==> Multiple(|ks|, n))
      && (got.Some? ==> n <= |ks| && (got == Some(msgs[q]) <==> Covers(msgs[q], ks[|ks| - n..])))
  {
    var before, a := arrivals[..|arrivals| - 1], arrivals[|arrivals| - 1];
    var n, ks := MaxSegIdx(|msgs[q]|) + 1, Of(before, q);
    var round := Round(ks, n) + [a.segIdx];
    assert arrivals == before + [a];
    assert Of(arrivals, q) == ks + [a.segIdx];
    RoundFills(ks, a.segIdx, n);
    assert |round| == n <==> Multiple(|Of(arrivals, q)|, n);
    ReturnedRound(msgs, before, a);
  }

  /** For example, the first segment of a two-segment message, twice, is taken for the message. */
  lemma FirstSegmentTwice(q: U32, msg: Bytes)
    requires MaxSegIdx(|msg|) == 1
    ensures var got := ReceiveAll(map[q := msg], [Arrival(q, 0), Arrival(q, 0)]).msg;
      got.Some? && got != Some(msg)
  {
    var twice, once := [Arrival(q, 0), Arrival(q, 0)], [Arrival(q, 0)];
    assert twice[..1] == once && once[..0] == [];
    assert Of(once, q) == Of(once[..0], q) + [0] == [0];
    assert Of(twice, q) == Of(twice[..1], q) + [0] == [0, 0];
    SecondMissing(msg);
    assert Multiple(0, 2) && Multiple(2, 2);
    ReturnedAfterEachRound(map[q := msg], twice, q);
    assert [0, 0][0..] == [0, 0];
  }

  lemma SecondMissing(msg: Bytes)
    requires MaxSegIdx(|msg|) == 1
    ensures !Covers(msg, [0, 0])
  {
    SegmentSize(msg, 1);
    assert SegmentAt(msg, 1) != [] && 1 !in [0, 0];
  }
}
