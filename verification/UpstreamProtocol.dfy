/**
 The upstream as a state machine (iscp/upstream.go): every action is one region the code runs
 under a lock or one atomic operation, and actions of the flush loop, the result loop, the
 waiters, the alias loop, the resend loop, the closing paths and the draining Close interleave
 freely. The peer and the network are unrestricted: results may be late, repeated, out of order
 or for numbers never issued; sends may fail; any waiter may time out at any moment.
 */
module UpstreamProtocol {
  import opened Prelude
  import opened DataPoints
  import D = UpstreamDelivery
  import C = ResultChannels

  /** A chunk as handed to the wire, first time or resent; `rev` is the table it was built with. */
  datatype WireChunk = WireChunk(seqNum: U32, groups: seq<WireGroup>, ids: seq<DataID>, rev: RevTable)

  function ChunkFor(n: U32, gs: seq<Group>, rev: RevTable): WireChunk {
    WireChunk(n, Compress(gs, rev), UnaliasedIDs(gs, rev), rev)
  }

  // ---- what the upstream stores ----

  datatype Store = Store(
    d: D.Delivery,
    c: C.Channels,
    t: Tables,                       // dataIDAliases and revDataIDAliases
    rebound: bool,                   // the server has reused an alias
    handling: Option<C.ChunkResult>, // processResult, between removeSent and its lock
    wire: seq<WireChunk>)            // every chunk handed to the wire

  datatype StoreAction =
    | Accept(g: Group)                                // flush loop
    | Flush(order: seq<DataID>)
    | RemoveSent(r: C.ChunkResult)                    // result loop
    | Deliver(dropped: bool)
    | Teardown(nums: seq<U32>)
    | WaiterMoves(w: nat, step: C.WaiterStep)         // sendChunkAndWaitAck
    | LearnAliases(batch: seq<(U32, DataID)>)      // alias loop
    | ClearSent                                       // resuming a stream that is not Reliable

  ghost predicate StoreEnabled(s: Store, a: StoreAction) {
    match a
    case Accept(g) => s.d.pointCount + |g.points| < 0x8000_0000_0000_0000
    case Flush(order) => Enumerates(order, s.d.sendBuffer.Keys)
    case RemoveSent(r) => s.handling == None
    case Deliver(dropped) => s.handling.Some?
    case Teardown(nums) => Enumerates(nums, s.c.table.Keys) && s.handling == None
    case WaiterMoves(w, step) => C.WaiterEnabled(s.c, w, step)
    case LearnAliases(batch) => true
    case ClearSent => !s.d.reliable
  }

  ghost function StoreStep(s: Store, a: StoreAction): Store
    requires C.WellFormed(s.c) && StoreEnabled(s, a)
  {
    match a
    case Accept(g) => s.(d := D.Accept(s.d, g))
    case Flush(order) =>
      if !D.Issues(s.d) then s
      else
        var n := Inc32(s.d.sequence);
        s.(d := D.Flush(s.d, order),
           c := C.Register(s.c, n),
           wire := s.wire + [ChunkFor(n, D.GroupsOf(s.d.sendBuffer, order), s.t.rev)])
    case RemoveSent(r) => s.(d := D.RemoveSent(s.d, r.seqNum), handling := Some(r))
    case Deliver(dropped) => s.(c := C.Deliver(s.c, s.handling.value, dropped), handling := None)
    case Teardown(nums) => s.(c := C.Teardown(s.c, nums))
    case WaiterMoves(w, step) => s.(c := C.WaiterMoves(s.c, w, step))
    case LearnAliases(batch) =>
      s.(t := BindAll(s.t, batch), rebound := s.rebound || RebindsSome(s.t, batch))
    case ClearSent => s.(d := D.ClearSent(s.d))
  }

  /** Channels belong to issued chunks, and processed results are acknowledged or premature ones. */
  ghost predicate ChannelsMatch(d: D.Delivery, c: C.Channels, handling: Option<C.ChunkResult>) {
    && c.maxSeq <= d.sequence
    && (forall i :: 0 <= i < |c.chans| ==> 1 <= c.chans[i].seqNum <= d.sequence)
    && (forall n :: n in c.processed ==> n in d.acked || n in d.premature)
    && (handling.Some? ==> handling.value.seqNum in d.acked || handling.value.seqNum in d.premature)
  }

  ghost predicate Core(d: D.Delivery, c: C.Channels, handling: Option<C.ChunkResult>) {
    && D.Inv(d)
    && d.pointCount < 0x8000_0000_0000_0000
    && C.Inv(c)
    && ChannelsMatch(d, c, handling)
  }

  /** A chunk on the wire carries an issued number and the groups issued under that number. */
  ghost predicate Faithful(issued: seq<seq<Group>>, t: Tables, w: WireChunk) {
    && 1 <= w.seqNum <= |issued|
    && w == ChunkFor(w.seqNum, issued[w.seqNum - 1], w.rev)
    && (forall id :: id in w.rev ==> id in t.rev && t.rev[id] == w.rev[id])
  }

  ghost predicate WireGood(issued: seq<seq<Group>>, t: Tables, rebound: bool, wire: seq<WireChunk>) {
    && (Inverse(t.rev, t.fwd) <==> !rebound)
    && (forall k :: 0 <= k < |wire| ==> Faithful(issued, t, wire[k]))
  }

  ghost predicate StoreInv(s: Store) {
    && Core(s.d, s.c, s.handling)
    && WireGood(s.d.issued, s.t, s.rebound, s.wire)
  }

  /** What the other goroutines rely on in any step: histories, maxSeq and bindings only grow. */
  ghost predicate Extends(s: Store, s': Store) {
    && s.d.issued <= s'.d.issued
    && s.d.sequence <= s'.d.sequence
    && s.d.acked <= s'.d.acked
    && s.d.reliable == s'.d.reliable
    && s.c.maxSeq <= s'.c.maxSeq
    && (forall id :: id in s.t.rev ==> id in s'.t.rev && s'.t.rev[id] == s.t.rev[id])
  }

  lemma AcceptCore(s: Store, g: Group)
    requires Core(s.d, s.c, s.handling) && StoreEnabled(s, Accept(g))
    ensures Core(D.Accept(s.d, g), s.c, s.handling)
  {
    D.AcceptInv(s.d, g);
  }

  lemma FlushMatch(d: D.Delivery, c: C.Channels, handling: Option<C.ChunkResult>, order: seq<DataID>)
    requires ChannelsMatch(d, c, handling) && D.Issues(d) && d.sequence >= 0
    ensures ChannelsMatch(D.Flush(d, order), C.Register(c, Inc32(d.sequence)), handling)
  {}

  lemma FlushCore(s: Store, order: seq<DataID>)
    requires Core(s.d, s.c, s.handling) && Enumerates(order, s.d.sendBuffer.Keys) && D.Issues(s.d)
    ensures Core(D.Flush(s.d, order), C.Register(s.c, Inc32(s.d.sequence)), s.handling)
  {
    D.FlushInv(s.d, order);
    C.RegisterInv(s.c, Inc32(s.d.sequence));
    FlushMatch(s.d, s.c, s.handling, order);
  }

  lemma RemoveSentCore(s: Store, r: C.ChunkResult)
    requires Core(s.d, s.c, s.handling)
    ensures Core(D.RemoveSent(s.d, r.seqNum), s.c, Some(r))
  {
    D.RemoveSentInv(s.d, r.seqNum);
  }

  lemma DeliverCore(s: Store, dropped: bool)
    requires Core(s.d, s.c, s.handling) && C.WellFormed(s.c) && s.handling.Some?
    ensures var c' := C.Deliver(s.c, s.handling.value, dropped);
            Core(s.d, c', None) && c'.maxSeq == s.c.maxSeq
  {
    C.DeliverInv(s.c, s.handling.value, dropped);
  }

  lemma TeardownCore(s: Store, nums: seq<U32>)
    requires Core(s.d, s.c, s.handling) && C.WellFormed(s.c) && Enumerates(nums, s.c.table.Keys)
    ensures var c' := C.Teardown(s.c, nums);
            Core(s.d, c', s.handling) && c'.maxSeq == s.c.maxSeq
  {
    C.TeardownInv(s.c, nums);
    C.CloseAllEffect(s.c, nums);
  }

  lemma WaiterCore(s: Store, w: nat, step: C.WaiterStep)
    requires Core(s.d, s.c, s.handling) && C.WaiterEnabled(s.c, w, step)
    ensures var c' := C.WaiterMoves(s.c, w, step);
            Core(s.d, c', s.handling) && c'.maxSeq >= s.c.maxSeq
  {
    C.WaiterInv(s.c, w, step);
    assert C.WaiterGood(s.c, s.c.waiters[w]);
  }

  lemma ClearSentCore(s: Store)
    requires Core(s.d, s.c, s.handling) && !s.d.reliable
    ensures Core(D.ClearSent(s.d), s.c, s.handling)
  {
    D.ClearSentInv(s.d);
  }

  lemma CoreOfResults(s: Store, a: StoreAction)
    requires Core(s.d, s.c, s.handling) && C.WellFormed(s.c) && StoreEnabled(s, a)
    requires a.RemoveSent? || a.Deliver? || a.Teardown? || a.WaiterMoves?
    ensures var s' := StoreStep(s, a); Core(s'.d, s'.c, s'.handling) && s'.c.maxSeq >= s.c.maxSeq
  {
    match a
    case RemoveSent(r) => RemoveSentCore(s, r);
    case Deliver(dropped) => DeliverCore(s, dropped);
    case Teardown(nums) => TeardownCore(s, nums);
    case WaiterMoves(w, step) => WaiterCore(s, w, step);
  }

  lemma CoreOfBuffer(s: Store, a: StoreAction)
    requires Core(s.d, s.c, s.handling) && C.WellFormed(s.c) && StoreEnabled(s, a)
    requires a.Accept? || a.LearnAliases? || a.ClearSent?
    ensures var s' := StoreStep(s, a); Core(s'.d, s'.c, s'.handling) && s'.c.maxSeq == s.c.maxSeq
  {
    match a
    case Accept(g) => AcceptCore(s, g);
    case LearnAliases(batch) =>
    case ClearSent => ClearSentCore(s);
  }

  lemma CoreStep(s: Store, a: StoreAction)
    requires Core(s.d, s.c, s.handling) && C.WellFormed(s.c) && StoreEnabled(s, a)
    ensures var s' := StoreStep(s, a); Core(s'.d, s'.c, s'.handling) && s'.c.maxSeq >= s.c.maxSeq
  {
    if a.Flush? {
      if D.Issues(s.d) { FlushCore(s, a.order); }
    } else if a.Accept? || a.LearnAliases? || a.ClearSent? {
      CoreOfBuffer(s, a);
    } else {
      CoreOfResults(s, a);
    }
  }

  lemma StoreExtends(s: Store, a: StoreAction)
    requires C.WellFormed(s.c) && StoreEnabled(s, a) && StoreStep(s, a).c.maxSeq >= s.c.maxSeq
    ensures Extends(s, StoreStep(s, a))
  {
    if a.LearnAliases? { BindAllGrows(s.t, a.batch); }
  }

  lemma WireStep(s: Store, a: StoreAction)
    requires WireGood(s.d.issued, s.t, s.rebound, s.wire) && s.d.sequence == |s.d.issued|
    requires C.WellFormed(s.c) && StoreEnabled(s, a) && Extends(s, StoreStep(s, a))
    ensures var s' := StoreStep(s, a); WireGood(s'.d.issued, s'.t, s'.rebound, s'.wire)
  {
    var s' := StoreStep(s, a);
    forall k | 0 <= k < |s.wire| ensures Faithful(s'.d.issued, s'.t, s.wire[k]) {
      assert Faithful(s.d.issued, s.t, s.wire[k]);
    }
    if a.LearnAliases? {
      if s.rebound { RebindsForever(s.t, a.batch); } else { BindAllKeepsInverseIff(s.t, a.batch); }
    }
  }

  lemma StoreStepInv(s: Store, a: StoreAction)
    requires StoreInv(s) && C.WellFormed(s.c) && StoreEnabled(s, a)
    ensures StoreInv(StoreStep(s, a)) && Extends(s, StoreStep(s, a))
  {
    CoreStep(s, a);
    StoreExtends(s, a);
    WireStep(s, a);
  }

  // ---- the resend goroutine of a resumed Reliable stream ----

  /** At rest, choosing the next chunk, holding a built chunk, or waiting for the one it sent.
      `done` lists the chunks resent so far. */
  datatype Resend =
    | NoResend
    | Choosing(snapshot: map<U32, seq<Group>>, pending: set<U32>, done: seq<WireChunk>)
    | Built(snapshot: map<U32, seq<Group>>, pending: set<U32>, done: seq<WireChunk>, chunk: WireChunk)
    | InFlight(snapshot: map<U32, seq<Group>>, pending: set<U32>, done: seq<WireChunk>, chunk: WireChunk)

  datatype ResendAction = Start | Build(n: U32) | Register | End(failed: bool) | Finish

  predicate ResendEnabled(s: Store, x: Resend, a: ResendAction) {
    match a
    case Start => s.d.reliable && x == NoResend
    case Build(n) => x.Choosing? && n in x.pending && n in x.snapshot
    case Register => x.Built?
    case End(failed) => x.InFlight?
    case Finish => x.Choosing? && x.pending == {}
  }

  function ResendStore(s: Store, x: Resend, a: ResendAction): Store
    requires ResendEnabled(s, x, a)
  {
    match a
    case Register => s.(c := C.Register(s.c, x.chunk.seqNum), wire := s.wire + [x.chunk])
    case End(failed) => s.(c := if failed then C.Unregister(s.c, x.chunk.seqNum) else s.c)
    case _ => s
  }

  function ResendStep(s: Store, x: Resend, a: ResendAction): Resend
    requires ResendEnabled(s, x, a)
  {
    match a
    case Start => Choosing(s.d.sentBuf, s.d.sentBuf.Keys, [])
    case Build(n) => Built(x.snapshot, x.pending, x.done, ChunkFor(n, x.snapshot[n], s.t.rev))
    case Register => InFlight(x.snapshot, x.pending, x.done, x.chunk)
    case End(failed) => Choosing(x.snapshot, x.pending - {x.chunk.seqNum}, x.done + [x.chunk])
    case Finish => NoResend
  }

  ghost predicate SnapshotGood(d: D.Delivery, snapshot: map<U32, seq<Group>>) {
    && d.reliable
    && forall n :: n in snapshot ==> 1 <= n <= |d.issued| && snapshot[n] == d.issued[n - 1]
  }

  predicate Resent(done: seq<WireChunk>, n: U32) {
    exists i :: 0 <= i < |done| && done[i].seqNum == n
  }

  /** `done` and `pending` split the snapshot: no number twice, none missing, none new. */
  ghost predicate Splits(snapshot: map<U32, seq<Group>>, pending: set<U32>, done: seq<WireChunk>) {
    && (forall n :: n in snapshot <==> n in pending || Resent(done, n))
    && (forall n :: n in pending ==> !Resent(done, n))
    && (forall i, j :: 0 <= i < j < |done| ==> done[i].seqNum != done[j].seqNum)
  }

  ghost predicate ResendGood(d: D.Delivery, t: Tables, x: Resend) {
    && (!x.NoResend? ==>
          && SnapshotGood(d, x.snapshot)
          && Splits(x.snapshot, x.pending, x.done)
          && forall i :: 0 <= i < |x.done| ==> Faithful(d.issued, t, x.done[i]))
    && (x.Built? || x.InFlight? ==> x.chunk.seqNum in x.pending && Faithful(d.issued, t, x.chunk))
  }

  lemma ResendCore(s: Store, n: U32)
    requires Core(s.d, s.c, s.handling) && 1 <= n <= s.d.sequence
    ensures Core(s.d, C.Register(s.c, n), s.handling)
    ensures Core(s.d, C.Unregister(s.c, n), s.handling)
  {
    C.RegisterInv(s.c, n);
    C.UnregisterInv(s.c, n);
  }

  lemma ResendStoreInv(s: Store, x: Resend, a: ResendAction)
    requires StoreInv(s) && ResendGood(s.d, s.t, x) && ResendEnabled(s, x, a)
    ensures StoreInv(ResendStore(s, x, a)) && Extends(s, ResendStore(s, x, a))
  {
    assert s.d.sequence == |s.d.issued|;
    match a
    case Register => ResendCore(s, x.chunk.seqNum);
    case End(failed) => ResendCore(s, x.chunk.seqNum);
    case _ =>
  }

  lemma SplitsAfter(snapshot: map<U32, seq<Group>>, pending: set<U32>, done: seq<WireChunk>, w: WireChunk)
    requires Splits(snapshot, pending, done) && w.seqNum in pending
    ensures Splits(snapshot, pending - {w.seqNum}, done + [w])
  {
    var more := done + [w];
    forall n ensures Resent(more, n) <==> Resent(done, n) || n == w.seqNum {
      if Resent(done, n) { var i :| 0 <= i < |done| && done[i].seqNum == n; assert more[i].seqNum == n; }
      assert more[|done|].seqNum == w.seqNum;
    }
    forall i | 0 <= i < |done| ensures more[i].seqNum != w.seqNum { assert Resent(done, done[i].seqNum); }
  }

  lemma ResendStepGood(s: Store, x: Resend, a: ResendAction)
    requires D.Partitioned(s.d) && s.d.sequence == |s.d.issued|
    requires ResendGood(s.d, s.t, x) && ResendEnabled(s, x, a)
    ensures ResendGood(s.d, s.t, ResendStep(s, x, a))
  {
    if a.End? { SplitsAfter(x.snapshot, x.pending, x.done, x.chunk); }
  }

  // ---- closeWithError ----

  datatype CloseRequest = CloseRequest(total: U64, final: U32)

  /** The one caller that wins the compare-and-swap on closeRequested. */
  datatype Winner = NoWinner | Won | Snapped(req: CloseRequest) | Finished

  datatype Closing = Closing(closeRequested: bool, winner: Winner, requests: seq<CloseRequest>, cancelled: bool)

  /** Enter is taken by every caller (Close, a failed resume, a refused flush), any number of times. */
  datatype CloseAction = Enter | Snap | SendRequest | Leave

  predicate CloseEnabled(x: Closing, a: CloseAction) {
    match a
    case Enter => true
    case Snap => x.winner == Won
    case SendRequest => x.winner.Snapped?
    case Leave => x.winner == Finished
  }

  function CloseStep(d: D.Delivery, x: Closing, a: CloseAction): Closing
    requires CloseEnabled(x, a)
  {
    match a
    case Enter => if x.closeRequested then x else x.(closeRequested := true, winner := Won)
    case Snap => x.(winner := Snapped(CloseRequest(d.total, d.sequence)))
    case SendRequest => x.(requests := x.requests + [x.winner.req], winner := Finished)
    case Leave => x.(cancelled := true)
  }

  ghost predicate ExactRequest(issued: seq<seq<Group>>, req: CloseRequest) {
    0 <= req.final <= |issued| && req.total == D.ShippedCount(issued[..req.final])
  }

  ghost predicate CloseGood(issued: seq<seq<Group>>, x: Closing) {
    && (x.winner != NoWinner <==> x.closeRequested)
    && |x.requests| == (if x.winner == Finished then 1 else 0)
    && (x.winner.Snapped? ==> ExactRequest(issued, x.winner.req))
    && (forall k :: 0 <= k < |x.requests| ==> ExactRequest(issued, x.requests[k]))
  }

  lemma CloseStepGood(d: D.Delivery, x: Closing, a: CloseAction)
    requires D.Counted(d) && CloseGood(d.issued, x) && CloseEnabled(x, a)
    ensures CloseGood(d.issued, CloseStep(d, x, a))
  {
    assert d.issued[..d.sequence] == d.issued;
  }

  // ---- waitToSendAllDataPointsAndReceiveAllAck, after its Flush ----

  /** `upTo` is the last number issued at the moment sentBuf was seen empty. */
  datatype Drain =
    | NotDraining
    | ComparedMax(max: U32)
    | Looking
    | SawNothingSent(upTo: U32)
    | DrainedFast
    | DrainedSlow(upTo: U32)

  datatype DrainAction = ReadMax | CompareMax | ListSent | CheckBuffer

  predicate DrainEnabled(x: Drain, a: DrainAction) {
    match a
    case ReadMax => x == NotDraining
    case CompareMax => x.ComparedMax?
    case ListSent => x == Looking
    case CheckBuffer => x.SawNothingSent?
  }

  function DrainStep(s: Store, x: Drain, a: DrainAction): Drain
    requires DrainEnabled(x, a)
  {
    match a
    case ReadMax => ComparedMax(s.c.maxSeq)
    case CompareMax => if x.max == s.d.sequence then DrainedFast else Looking
    case ListSent => if s.d.sentBuf == map[] then SawNothingSent(s.d.sequence) else Looking
    case CheckBuffer => if |s.d.sendBuffer| == 0 then DrainedSlow(x.upTo) else Looking
  }

  ghost predicate AckedUpTo(d: D.Delivery, k: U32) {
    k <= d.sequence && (d.reliable ==> forall n :: 1 <= n <= k ==> n in d.acked)
  }

  ghost predicate DrainGood(d: D.Delivery, maxSeq: U32, x: Drain) {
    && (x.ComparedMax? ==> x.max <= maxSeq)
    && (x.SawNothingSent? || x.DrainedSlow? ==> AckedUpTo(d, x.upTo))
  }

  // ---- the whole upstream ----

  datatype State = State(store: Store, resend: Resend, closing: Closing, drain: Drain)

  function Initial(reliable: bool, t: Tables): State {
    State(Store(D.Initial(reliable), C.Initial(), t, false, None, []),
          NoResend, Closing(false, NoWinner, [], false), NotDraining)
  }

  datatype Action =
    | OnStore(sa: StoreAction)
    | OnResend(ra: ResendAction)
    | OnClose(ca: CloseAction)
    | OnDrain(da: DrainAction)

  ghost predicate Enabled(s: State, a: Action) {
    match a
    case OnStore(sa) => C.WellFormed(s.store.c) && StoreEnabled(s.store, sa)
    case OnResend(ra) => ResendEnabled(s.store, s.resend, ra)
    case OnClose(ca) => CloseEnabled(s.closing, ca)
    case OnDrain(da) => DrainEnabled(s.drain, da)
  }

  ghost function Step(s: State, a: Action): State
    requires Enabled(s, a)
  {
    match a
    case OnStore(sa) => s.(store := StoreStep(s.store, sa))
    case OnResend(ra) =>
      s.(store := ResendStore(s.store, s.resend, ra), resend := ResendStep(s.store, s.resend, ra))
    case OnClose(ca) => s.(closing := CloseStep(s.store.d, s.closing, ca))
    case OnDrain(da) => s.(drain := DrainStep(s.store, s.drain, da))
  }

  ghost predicate Threads(s: Store, resend: Resend, closing: Closing, drain: Drain) {
    && ResendGood(s.d, s.t, resend)
    && CloseGood(s.d.issued, closing)
    && DrainGood(s.d, s.c.maxSeq, drain)
  }

  ghost predicate Inv(s: State) {
    StoreInv(s.store) && Threads(s.store, s.resend, s.closing, s.drain)
  }

  lemma ThreadsExtend(s: Store, s': Store, resend: Resend, closing: Closing, drain: Drain)
    requires Extends(s, s') && Threads(s, resend, closing, drain)
    ensures Threads(s', resend, closing, drain)
  {
    forall req | ExactRequest(s.d.issued, req) ensures ExactRequest(s'.d.issued, req) {
      assert s'.d.issued[..req.final] == s.d.issued[..req.final];
    }
  }

  lemma InitialInv(reliable: bool, t: Tables)
    requires Inverse(t.rev, t.fwd)
    ensures Inv(Initial(reliable, t))
  {
    D.InitialInv(reliable);
  }

  lemma StepInv(s: State, a: Action)
    requires Inv(s) && Enabled(s, a)
    ensures Inv(Step(s, a)) && Extends(s.store, Step(s, a).store)
  {
    match a
    case OnStore(sa) =>
      StoreStepInv(s.store, sa);
      ThreadsExtend(s.store, StoreStep(s.store, sa), s.resend, s.closing, s.drain);
    case OnResend(ra) =>
      ResendStoreInv(s.store, s.resend, ra);
      ResendStepGood(s.store, s.resend, ra);
      var store' := ResendStore(s.store, s.resend, ra);
      ThreadsExtend(s.store, store', ResendStep(s.store, s.resend, ra), s.closing, s.drain);
    case OnClose(ca) => CloseStepGood(s.store.d, s.closing, ca);
    case OnDrain(da) =>
  }
}
