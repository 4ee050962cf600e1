/**
 The per-chunk result channels of an upstream and the goroutines waiting on them
 (sendChunkAndWaitAck, processResult and the deferred teardown in iscp/upstream.go).
 A Go channel of capacity 1 is a queue of at most one result with a closed flag; the three
 operations that would panic or block forever in Go set `fault` here, and the invariant says
 that none of them ever happens.
 */
module ResultChannels {
  import opened Prelude

  datatype ChunkResult = ChunkResult(seqNum: U32, code: int)

  /** `seqNum` (the chunk the channel was made for) and `sends` are histories. */
  datatype Chan = Chan(seqNum: U32, buf: seq<ChunkResult>, closed: bool, sends: nat)

  datatype Fault = NoFault | SendOnClosed | SendBlocks | CloseOfClosed

  datatype Phase = Sending | Waiting | Holding(r: ChunkResult) | Gone
  datatype Waiter = Waiter(seqNum: U32, ch: int, phase: Phase)

  datatype Channels = Channels(
    chans: seq<Chan>,                 // every channel ever made
    table: map<U32, int>,          // upstreamChunkResultChs
    waiters: seq<Waiter>,             // every sendChunkAndWaitAck ever started
    maxSeq: U32,                   // maxSequenceNumberInReceivedUpstreamChunkResults
    processed: set<U32>,           // numbers that went through processResult
    fault: Fault)

  function Initial(): Channels { Channels([], map[], [], 0, {}, NoFault) }

  /** References point to channels that exist. */
  ghost predicate WellFormed(s: Channels) {
    && (forall n :: n in s.table ==> 0 <= s.table[n] < |s.chans|)
    && (forall w :: w in s.waiters ==> 0 <= w.ch < |s.chans|)
  }

  // ---- Go channel operations ----

  function Send(s: Channels, c: int, r: ChunkResult): Channels
    requires 0 <= c < |s.chans|
  {
    var ch := s.chans[c];
    if ch.closed then s.(fault := SendOnClosed)
    else if |ch.buf| >= 1 then s.(fault := SendBlocks)
    else s.(chans := s.chans[c := ch.(buf := ch.buf + [r], sends := ch.sends + 1)])
  }

  function Close(s: Channels, c: int): Channels
    requires 0 <= c < |s.chans|
  {
    if s.chans[c].closed then s.(fault := CloseOfClosed)
    else s.(chans := s.chans[c := s.chans[c].(closed := true)])
  }

  // ---- steps ----

  /** flush, or the resend loop: a fresh channel replaces whatever was stored under n. */
  function Register(s: Channels, n: U32): Channels {
    s.(chans := s.chans + [Chan(n, [], false, 0)],
       table := s.table[n := |s.chans|],
       waiters := s.waiters + [Waiter(n, |s.chans|, Sending)])
  }

  /** The resend loop drops the entry of a chunk it could not send. */
  function Unregister(s: Channels, n: U32): Channels { s.(table := s.table - {n}) }

  /** processResult under u.mu; `cancelled` is a context case winning the select. */
  function Deliver(s: Channels, r: ChunkResult, cancelled: bool): Channels
    requires WellFormed(s)
  {
    var s := s.(processed := s.processed + {r.seqNum});
    if r.seqNum !in s.table then s
    else
      var sent := if cancelled then s else Send(s, s.table[r.seqNum], r);
      sent.(table := sent.table - {r.seqNum})
  }

  /** The deferred loop of readResultLoop: close what the table holds, in some order. */
  function CloseAll(s: Channels, order: seq<U32>): Channels
    requires forall n :: n in order ==> n in s.table && 0 <= s.table[n] < |s.chans|
    ensures var s' := CloseAll(s, order);
            |s'.chans| == |s.chans| && s'.table == s.table && s'.waiters == s.waiters
  {
    if order == [] then s
    else
      assert forall n :: n in order[..|order| - 1] ==> n in order;
      var n := order[|order| - 1];
      assert n in order;
      Close(CloseAll(s, order[..|order| - 1]), s.table[n])
  }

  function Teardown(s: Channels, order: seq<U32>): Channels
    requires forall n :: n in order ==> n in s.table && 0 <= s.table[n] < |s.chans|
  {
    CloseAll(s, order).(table := map[])
  }

  function SetPhase(s: Channels, w: nat, p: Phase): Channels
    requires w < |s.waiters|
  {
    s.(waiters := s.waiters[w := s.waiters[w].(phase := p)])
  }

  datatype WaiterStep =
    | Sent          // the wire write succeeded, start waiting
    | Leave         // write error, ack timeout or cancelled context
    | Take          // receive from the channel, or see that it was closed
    | Store         // record the number under receivedAck.L

  predicate WaiterEnabled(s: Channels, w: nat, a: WaiterStep) {
    && w < |s.waiters|
    && 0 <= s.waiters[w].ch < |s.chans|
    && match a
       case Sent => s.waiters[w].phase.Sending?
       case Leave => !s.waiters[w].phase.Gone?
       case Take => s.waiters[w].phase.Waiting? &&
                    (s.chans[s.waiters[w].ch].buf != [] || s.chans[s.waiters[w].ch].closed)
       case Store => s.waiters[w].phase.Holding?
  }

  function WaiterMoves(s: Channels, w: nat, a: WaiterStep): Channels
    requires WaiterEnabled(s, w, a)
  {
    var me := s.waiters[w];
    match a
    case Sent => SetPhase(s, w, Waiting)
    case Leave => SetPhase(s, w, Gone)
    case Take =>
      var ch := s.chans[me.ch];
      if ch.buf == [] then SetPhase(s, w, Gone)
      else SetPhase(s.(chans := s.chans[me.ch := ch.(buf := ch.buf[1..])]), w, Holding(ch.buf[0]))
    case Store =>
      SetPhase(s.(maxSeq := if s.maxSeq < me.seqNum then me.seqNum else s.maxSeq), w, Gone)
  }

  // ---- invariant ----

  /** A channel that can still be looked up is open, empty and was never sent to. */
  ghost predicate TableFresh(s: Channels) {
    forall n :: n in s.table ==>
      && 0 <= s.table[n] < |s.chans|
      && s.chans[s.table[n]] == Chan(n, [], false, 0)
  }

  ghost predicate ChanGood(s: Channels, c: Chan) {
    && |c.buf| <= c.sends <= 1
    && (c.closed ==> c.sends == 0)
    && (forall r :: r in c.buf ==> r.seqNum == c.seqNum && r.seqNum in s.processed)
  }

  ghost predicate WaiterGood(s: Channels, w: Waiter) {
    && 0 <= w.ch < |s.chans|
    && s.chans[w.ch].seqNum == w.seqNum
    && (w.phase.Holding? ==> w.phase.r.seqNum == w.seqNum && w.seqNum in s.processed)
  }

  ghost predicate Inv(s: Channels) {
    && s.fault == NoFault
    && TableFresh(s)
    && (forall c :: 0 <= c < |s.chans| ==> ChanGood(s, s.chans[c]))
    && (forall w :: 0 <= w < |s.waiters| ==> WaiterGood(s, s.waiters[w]))
    && (s.maxSeq == 0 || s.maxSeq in s.processed)
  }

  lemma InvWellFormed(s: Channels)
    requires Inv(s)
    ensures WellFormed(s)
  {
    forall w | w in s.waiters ensures 0 <= w.ch < |s.chans| {
      var i :| 0 <= i < |s.waiters| && s.waiters[i] == w;
      assert WaiterGood(s, s.waiters[i]);
    }
  }

  lemma RegisterInv(s: Channels, n: U32)
    requires Inv(s)
    ensures Inv(Register(s, n))
  {
    var s' := Register(s, n);
    forall w | 0 <= w < |s'.waiters| ensures WaiterGood(s', s'.waiters[w]) {
      assert w < |s.waiters| ==> WaiterGood(s, s.waiters[w]);
    }
    forall c | 0 <= c < |s'.chans| ensures ChanGood(s', s'.chans[c]) {
      assert c < |s.chans| ==> ChanGood(s, s.chans[c]);
    }
  }

  lemma UnregisterInv(s: Channels, n: U32)
    requires Inv(s)
    ensures Inv(Unregister(s, n))
  {
    var s' := Unregister(s, n);
    forall w | 0 <= w < |s'.waiters| ensures WaiterGood(s', s'.waiters[w]) { assert WaiterGood(s, s.waiters[w]); }
    forall c | 0 <= c < |s'.chans| ensures ChanGood(s', s'.chans[c]) { assert ChanGood(s, s.chans[c]); }
  }

  lemma DeliverInv(s: Channels, r: ChunkResult, cancelled: bool)
    requires Inv(s) && WellFormed(s)
    ensures Inv(Deliver(s, r, cancelled))
  {
    var s' := Deliver(s, r, cancelled);
    forall w | 0 <= w < |s'.waiters| ensures WaiterGood(s', s'.waiters[w]) { assert WaiterGood(s, s.waiters[w]); }
    forall c | 0 <= c < |s'.chans| ensures ChanGood(s', s'.chans[c]) { assert ChanGood(s, s.chans[c]); }
  }

  // ---- from the channel to its waiter ----

  /** A new chunk can be looked up, and the goroutine that waits for it does so on its new channel. */
  lemma RegisterLinks(s: Channels, n: U32)
    ensures var s' := Register(s, n); var w := |s.waiters|;
      && n in s'.table && s'.table[n] == |s.chans| < |s'.chans|
      && s'.chans[s'.table[n]] == Chan(n, [], false, 0)
      && |s'.waiters| == w + 1 && s'.waiters[w] == Waiter(n, s'.table[n], Sending)
      && s'.waiters[..w] == s.waiters && s'.chans[..|s.chans|] == s.chans
      && (forall m :: m != n ==> (m in s'.table <==> m in s.table) && (m in s.table ==> s'.table[m] == s.table[m]))
  {}

  lemma UnregisterForgets(s: Channels, n: U32)
    ensures var s' := Unregister(s, n);
      && n !in s'.table && s' == s.(table := s'.table)
      && (forall m :: m != n ==> (m in s'.table <==> m in s.table) && (m in s.table ==> s'.table[m] == s.table[m]))
  {}

  /** A delivered result takes its entry with it, so the next result with that number meets nobody; it is
      in the channel unless it was dropped, and no other channel is touched. */
  lemma DeliverOnce(s: Channels, r: ChunkResult, cancelled: bool)
    requires Inv(s) && WellFormed(s)
    ensures var s' := Deliver(s, r, cancelled);
      && r.seqNum !in s'.table && r.seqNum in s'.processed && |s'.chans| == |s.chans| && s'.waiters == s.waiters
      && (forall m :: m != r.seqNum ==>
            (m in s'.table <==> m in s.table) && (m in s.table ==> s'.table[m] == s.table[m]))
      && (forall c :: 0 <= c < |s.chans| && !(r.seqNum in s.table && c == s.table[r.seqNum]) ==>
            s'.chans[c] == s.chans[c])
      && (r.seqNum in s.table ==>
            s'.chans[s.table[r.seqNum]].buf == (if cancelled then [] else [r]))
  {}

  /** A delivered result reaches the goroutine waiting for it, which then raises the maximum to at least its
      number and is over. */
  lemma ResultReachesWaiter(s: Channels, w: nat, r: ChunkResult)
    returns (s1: Channels, s2: Channels, s3: Channels)
    requires Inv(s) && WellFormed(s) && r.seqNum in s.table
    requires w < |s.waiters| && s.waiters[w].phase == Waiting && s.waiters[w].ch == s.table[r.seqNum]
    ensures s1 == Deliver(s, r, false) && WaiterEnabled(s1, w, Take) && s2 == WaiterMoves(s1, w, Take)
    ensures w < |s2.waiters| && s2.waiters[w] == Waiter(r.seqNum, s.waiters[w].ch, Holding(r))
    ensures WaiterEnabled(s2, w, Store) && s3 == WaiterMoves(s2, w, Store)
    ensures s3.maxSeq == Max(s.maxSeq, r.seqNum) && w < |s3.waiters| && s3.waiters[w].phase == Gone
  {
    assert WaiterGood(s, s.waiters[w]);
    s1 := Deliver(s, r, false);
    s2 := WaiterMoves(s1, w, Take);
    s3 := WaiterMoves(s2, w, Store);
  }

  /** A goroutine that gives up, or finds its channel closed and empty, is over and moves no more; a chunk
      that was sent is waited for. */
  lemma WaiterEnds(s: Channels, w: nat, a: WaiterStep, b: WaiterStep)
    requires WaiterEnabled(s, w, a)
    ensures var s' := WaiterMoves(s, w, a);
      && w < |s'.waiters|
      && (a == Sent ==> s'.waiters[w].phase == Waiting)
      && (a == Leave || (a == Take && s.chans[s.waiters[w].ch].buf == []) ==>
            s'.waiters[w].phase == Gone && !WaiterEnabled(s', w, b))
      && (a != Store ==> s'.maxSeq == s.maxSeq)
  {}

  ghost predicate Listed(s: Channels, order: seq<U32>, c: int) {
    exists n :: n in order && n in s.table && s.table[n] == c
  }

  /** After closing the channels of `order`, exactly those are closed and nothing else changed. */
  lemma {:induction false} CloseAllEffect(s: Channels, order: seq<U32>)
    requires s.fault == NoFault && TableFresh(s)
    requires forall n :: n in order ==> n in s.table
    requires forall i, j :: 0 <= i < j < |order| ==> order[i] != order[j]
    ensures forall n :: n in order ==> n in s.table && 0 <= s.table[n] < |s.chans|
    ensures var s' := CloseAll(s, order);
      && s' == s.(chans := s'.chans)
      && (forall c :: 0 <= c < |s.chans| ==>
            s'.chans[c] == if Listed(s, order, c) then s.chans[c].(closed := true) else s.chans[c])
  {
    if order != [] {
      var k := |order| - 1;
      var rest, n := order[..k], order[k];
      CloseAllEffect(s, rest);
      assert order == rest + [n] && n in order;
      assert !Listed(s, rest, s.table[n]);
      forall c | 0 <= c < |s.chans| ensures Listed(s, order, c) <==> Listed(s, rest, c) || c == s.table[n] {}
    }
  }

  /** The teardown loop, after i channels: the next one is still open, so closing it is safe. */
  lemma NextStillOpen(s: Channels, order: seq<U32>, i: nat)
    requires s.fault == NoFault && TableFresh(s)
    requires Enumerates(order, s.table.Keys) && i < |order|
    ensures forall n :: n in order ==> n in s.table && 0 <= s.table[n] < |s.chans|
    ensures forall n :: n in order[..i] ==> n in order
    ensures forall n :: n in order[..i + 1] ==> n in order
    ensures order[i] in s.table && 0 <= s.table[order[i]] < |s.chans|
    ensures var mid := CloseAll(s, order[..i]);
      && |mid.chans| == |s.chans| && mid.table == s.table
      && !mid.chans[s.table[order[i]]].closed
      && CloseAll(s, order[..i + 1]) == Close(mid, s.table[order[i]])
  {
    assert order[i] in order;
    assert order[..i + 1][..i] == order[..i];
    CloseAllEffect(s, order[..i]);
    assert !Listed(s, order[..i], s.table[order[i]]);
  }

  lemma TeardownInv(s: Channels, order: seq<U32>)
    requires Inv(s) && Enumerates(order, s.table.Keys)
    ensures forall n :: n in order ==> n in s.table && 0 <= s.table[n] < |s.chans|
    ensures Inv(Teardown(s, order))
    ensures forall n :: n in s.table ==> Teardown(s, order).chans[s.table[n]].closed
  {
    CloseAllEffect(s, order);
    var s' := Teardown(s, order);
    forall w | 0 <= w < |s'.waiters| ensures WaiterGood(s', s'.waiters[w]) { assert WaiterGood(s, s.waiters[w]); }
    forall c | 0 <= c < |s'.chans| ensures ChanGood(s', s'.chans[c]) { assert ChanGood(s, s.chans[c]); }
  }

  lemma WaiterInv(s: Channels, w: nat, a: WaiterStep)
    requires Inv(s) && WaiterEnabled(s, w, a)
    ensures Inv(WaiterMoves(s, w, a))
    ensures WaiterMoves(s, w, a).maxSeq >= s.maxSeq
  {
    var s' := WaiterMoves(s, w, a);
    assert WaiterGood(s, s.waiters[w]);
    assert ChanGood(s, s.chans[s.waiters[w].ch]);
    forall v | 0 <= v < |s'.waiters| ensures WaiterGood(s', s'.waiters[v]) { assert WaiterGood(s, s.waiters[v]); }
    forall c | 0 <= c < |s'.chans| ensures ChanGood(s', s'.chans[c]) { assert ChanGood(s, s.chans[c]); }
  }
}
