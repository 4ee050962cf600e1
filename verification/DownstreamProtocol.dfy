/**
 The downstream (iscp/downstream.go): any number of ReadDataPoints calls, each a chain of critical
 sections on d.mu, interleaved with the flushes of the one flushAckLoop. A call is known by the
 order in which it took its chunk from dataPointsCh.
 */
module DownstreamProtocol {
  import opened Prelude
  import opened DataPoints
  import L = AliasLedger

  /** An upstream info; assignUpstreamInfoAlias compares the pointers. */
  datatype Info = Info(ptr: int, streamID: int)
  datatype InfoRef = GivenInfo(info: Info) | InfoAlias(alias: U32)
  datatype Chunk = Chunk(sequenceNumber: U32, upstream: InfoRef, groups: seq<WireGroup>)

  datatype Result = Result(sequenceNumber: U32, streamID: int)
  datatype Ack = Ack(id: U32, infos: map<U32, Info>, ids: map<U32, DataID>, results: seq<Result>)

  /** Where a read stands; pos is the number of its result among all results pushed. */
  datatype Phase =
    | Received
    | InfoAssigned
    | InfoPushed
    | IDsAssigned
    | IDsPushed
    | Converting(info: Info, done: seq<Group>)
    | Failed
    | Done(info: Info, done: seq<Group>, pos: int)

  datatype Reader = Reader(chunk: Chunk, phase: Phase)

  datatype State = State(
    ids: L.Ledger<DataID>,   // dataIDAliases, its generator and dataIDAckBuffer
    rev: RevTable,           // revDataIDAliases
    infos: L.Ledger<Info>,   // upstreamInfos, its generator and upstreamInfoAckBuffer
    readers: seq<Reader>,
    results: seq<Result>,    // resultAckBuffer
    ackSequence: U32,        // chunkAckIDSequence
    acks: seq<Ack>,          // every ack flushAck has built
    order: seq<nat>)         // the reads in the order they pushed their results

  /** The IDs a chunk gives in full (filterDataID). */
  function FilterDataID(gs: seq<WireGroup>): seq<DataID> {
    if gs == [] then []
    else
      var ref := gs[|gs| - 1].ref;
      FilterDataID(gs[..|gs| - 1]) + (if ref.ByID? then [ref.id] else [])
  }

  datatype Assigned = Assigned(rev: RevTable, gen: U32, total: nat, added: map<U32, DataID>)

  /** assignDataIDAlias: every ID without an alias gets the next one. */
  function AssignAll(ids: seq<DataID>, start: Assigned): Assigned {
    if ids == [] then start
    else
      var k := AssignAll(ids[..|ids| - 1], start);
      var id := ids[|ids| - 1];
      if id in k.rev then k
      else
        var a := L.NextAlias(k.gen);
        Assigned(k.rev[id := a], a, k.total + 1, k.added[a := id])
  }

  predicate SamePointer(table: map<U32, Info>, ptr: int) {
    exists a :: a in table && table[a].ptr == ptr
  }

  function ResultOf(r: Reader): Result
    requires r.phase.Done?
  {
    Result(r.chunk.sequenceNumber, r.phase.info.streamID)
  }

  // ---- opening ----

  /** OpenDownstream's two tables for the configured IDs. */
  function OpenedRev(ids: seq<DataID>): RevTable {
    if ids == [] then map[] else OpenedRev(ids[..|ids| - 1])[ids[|ids| - 1] := |ids|]
  }

  function OpenedTable(ids: seq<DataID>): FwdTable {
    if ids == [] then map[] else OpenedTable(ids[..|ids| - 1])[|ids| := ids[|ids| - 1]]
  }

  function Initial(ids: seq<DataID>): State {
    State(L.Opened(OpenedTable(ids), |ids|), OpenedRev(ids), L.Opened(map[], 0), [], [], 0, [], [])
  }

  // ---- steps ----

  datatype Action =
    | Receive(chunk: Chunk)
    | AssignInfo(i: nat) | PushInfo(i: nat)
    | AssignIDs(i: nat) | PushIDs(i: nat)
    | LookupInfo(i: nat) | LookupID(i: nat)
    | PushResult(i: nat)
    | FlushAck

  predicate Enabled(s: State, a: Action) {
    match a
    case Receive(_) => true
    case AssignInfo(i) => At(s, i) && s.readers[i].phase == Received
    case PushInfo(i) => At(s, i) && s.readers[i].phase == InfoAssigned
    case AssignIDs(i) => At(s, i) && s.readers[i].phase == InfoPushed
    case PushIDs(i) => At(s, i) && s.readers[i].phase == IDsAssigned
    case LookupInfo(i) => At(s, i) && s.readers[i].phase == IDsPushed
    case LookupID(i) =>
      At(s, i) && s.readers[i].phase.Converting? && |s.readers[i].phase.done| < |s.readers[i].chunk.groups|
    case PushResult(i) =>
      At(s, i) && s.readers[i].phase.Converting? && |s.readers[i].phase.done| == |s.readers[i].chunk.groups|
    case FlushAck => true
  }

  predicate At(s: State, i: nat) {
    i < |s.readers| && i < |s.ids.hands| && i < |s.ids.born| && i < |s.infos.hands| && i < |s.infos.born|
  }

  function Goto(s: State, i: nat, p: Phase): State
    requires i < |s.readers|
  {
    s.(readers := s.readers[i := s.readers[i].(phase := p)])
  }

  function DoReceive(s: State, chunk: Chunk): State {
    s.(readers := s.readers + [Reader(chunk, Received)], ids := L.NewRead(s.ids), infos := L.NewRead(s.infos))
  }

  function DoPushInfo(s: State, i: nat): State
    requires At(s, i)
  {
    Goto(s.(infos := L.Push(s.infos, i)), i, InfoPushed)
  }

  function DoPushIDs(s: State, i: nat): State
    requires At(s, i)
  {
    Goto(s.(ids := L.Push(s.ids, i)), i, IDsPushed)
  }

  function DoAssignInfo(s: State, i: nat): State
    requires At(s, i)
  {
    match s.readers[i].chunk.upstream
    case InfoAlias(_) => Goto(s, i, InfoAssigned)
    case GivenInfo(info) =>
      if SamePointer(s.infos.table, info.ptr) then Goto(s, i, InfoAssigned)
      else
        var a := L.NextAlias(s.infos.gen);
        Goto(s.(infos := L.Assign(s.infos, i, map[a := info], a, s.infos.total + 1)), i, InfoAssigned)
  }

  function DoAssignIDs(s: State, i: nat): State
    requires At(s, i)
  {
    var k := AssignAll(FilterDataID(s.readers[i].chunk.groups), Assigned(s.rev, s.ids.gen, s.ids.total, map[]));
    Goto(s.(rev := k.rev, ids := L.Assign(s.ids, i, k.added, k.gen, k.total)), i, IDsAssigned)
  }

  function DoLookupInfo(s: State, i: nat): State
    requires At(s, i)
  {
    match s.readers[i].chunk.upstream
    case GivenInfo(info) => Goto(s, i, Converting(info, []))
    case InfoAlias(a) =>
      if a in s.infos.table then Goto(s, i, Converting(s.infos.table[a], [])) else Goto(s, i, Failed)
  }

  function DoLookupID(s: State, i: nat): State
    requires Enabled(s, LookupID(i))
  {
    var r := s.readers[i];
    var w := r.chunk.groups[|r.phase.done|];
    match ResolveRef(w.ref, s.ids.table)
    case None => Goto(s, i, Failed)
    case Some(id) => Goto(s, i, Converting(r.phase.info, r.phase.done + [Group(id, w.points)]))
  }

  function DoPushResult(s: State, i: nat): State
    requires Enabled(s, PushResult(i))
  {
    var r := s.readers[i];
    Goto(s, i, Done(r.phase.info, r.phase.done, |s.order|)).(
      results := s.results + [Result(r.chunk.sequenceNumber, r.phase.info.streamID)],
      order := s.order + [i])
  }

  function DoFlush(s: State): State {
    if |s.ids.buffer| == 0 && |s.results| == 0 && |s.infos.buffer| == 0 then s
    else
      var n := Inc32(s.ackSequence);
      s.(ids := L.Flush(s.ids), infos := L.Flush(s.infos), results := [], ackSequence := n,
         acks := s.acks + [Ack(n, s.infos.buffer, s.ids.buffer, s.results)])
  }

  function Step(s: State, a: Action): State
    requires Enabled(s, a)
  {
    match a
    case Receive(chunk) => DoReceive(s, chunk)
    case AssignInfo(i) => DoAssignInfo(s, i)
    case PushInfo(i) => DoPushInfo(s, i)
    case AssignIDs(i) => DoAssignIDs(s, i)
    case PushIDs(i) => DoPushIDs(s, i)
    case LookupInfo(i) => DoLookupInfo(s, i)
    case LookupID(i) => DoLookupID(s, i)
    case PushResult(i) => DoPushResult(s, i)
    case FlushAck => DoFlush(s)
  }

  // ---- results and acks ----

  function Sent(acks: seq<Ack>): seq<Result> {
    if acks == [] then [] else Sent(acks[..|acks| - 1]) + acks[|acks| - 1].results
  }

  /** Per position, how many results left in the acks before it. */
  function Counts(acks: seq<Ack>): (c: seq<int>)
    ensures |c| == |acks| + 1 && c[|acks|] == |Sent(acks)|
    ensures forall j :: 0 <= j < |c| ==> c[j] <= |Sent(acks)|
  {
    if acks == [] then [0] else Counts(acks[..|acks| - 1]) + [|Sent(acks)|]
  }

  function Positions(readers: seq<Reader>): seq<Option<int>> {
    seq(|readers|, i requires 0 <= i < |readers| =>
      if readers[i].phase.Done? then Some(readers[i].phase.pos) else None)
  }

  /** A count kept in uint32. */
  function Wrapped(n: nat): U32 { n % 0x1_0000_0000 }

  lemma WrappedNext(n: nat)
    ensures Inc32(Wrapped(n)) == Wrapped(n + 1)
  {}

  ghost predicate AcksInv(s: State) {
    && |s.acks| == |s.ids.sent| == |s.infos.sent|
    && s.ackSequence == Wrapped(|s.acks|)
    && (forall j :: 0 <= j < |s.acks| ==>
          && s.acks[j].id == Wrapped(j + 1)
          && s.acks[j].ids == s.ids.sent[j] && s.acks[j].infos == s.infos.sent[j])
  }

  /** The results sent and buffered are those of the finished reads, in the order pushed. */
  ghost predicate Conserved(all: seq<Result>, readers: seq<Reader>, order: seq<nat>) {
    && |all| == |order|
    && (forall k :: 0 <= k < |order| ==>
          && order[k] < |readers| && readers[order[k]].phase.Done? && readers[order[k]].phase.pos == k
          && all[k] == ResultOf(readers[order[k]]))
    && (forall i :: 0 <= i < |readers| && readers[i].phase.Done? ==>
          0 <= readers[i].phase.pos < |order| && order[readers[i].phase.pos] == i)
  }

  ghost predicate ResultsInv(s: State) { Conserved(Sent(s.acks) + s.results, s.readers, s.order) }

  function Stage(p: Phase): int {
    match p
    case Received => 0
    case InfoAssigned => 1
    case InfoPushed => 2
    case IDsAssigned => 3
    case _ => 4
  }

  function Stages(readers: seq<Reader>): seq<int> {
    seq(|readers|, i requires 0 <= i < |readers| => Stage(readers[i].phase))
  }

  ghost predicate HandsInv(s: State) {
    L.Held(s.infos, Stages(s.readers), 1) && L.Held(s.ids, Stages(s.readers), 3)
  }

  ghost predicate Always(s: State) { AcksInv(s) && ResultsInv(s) && HandsInv(s) }

  lemma {:induction false} SentSnoc(acks: seq<Ack>, a: Ack)
    ensures Sent(acks + [a]) == Sent(acks) + a.results
    ensures Counts(acks + [a]) == Counts(acks) + [|Sent(acks) + a.results|]
  {
    assert (acks + [a])[..|acks|] == acks;
  }

  lemma StagesMove(readers: seq<Reader>, i: nat, r: Reader)
    requires i < |readers|
    ensures Stages(readers[i := r]) == Stages(readers)[i := Stage(r.phase)]
  {}

  lemma HandsAssignInfo(s: State, i: nat)
    requires HandsInv(s) && Enabled(s, AssignInfo(i))
    ensures HandsInv(DoAssignInfo(s, i))
  {
    var s', st := DoAssignInfo(s, i), Stages(s.readers);
    StagesMove(s.readers, i, s'.readers[i]);
    L.HeldMove(s.ids, st, 3, i, 1);
    L.HeldMove(s.infos, st, 1, i, 1);
    if s'.infos != s.infos { L.HeldAssign(s.infos, st, 1, i, s'.infos.born[i], s'.infos.gen, s'.infos.total); }
  }

  lemma HandsPushInfo(s: State, i: nat)
    requires HandsInv(s) && Enabled(s, PushInfo(i))
    ensures HandsInv(DoPushInfo(s, i))
  {
    var st := Stages(s.readers);
    StagesMove(s.readers, i, s.readers[i].(phase := InfoPushed));
    L.HeldMove(s.ids, st, 3, i, 2);
    L.HeldPush(s.infos, st, 1, i);
  }

  lemma HandsAssignIDs(s: State, i: nat)
    requires HandsInv(s) && Enabled(s, AssignIDs(i))
    ensures HandsInv(DoAssignIDs(s, i))
  {
    var s', st := DoAssignIDs(s, i), Stages(s.readers);
    StagesMove(s.readers, i, s'.readers[i]);
    L.HeldMove(s.infos, st, 1, i, 3);
    L.HeldAssign(s.ids, st, 3, i, s'.ids.born[i], s'.ids.gen, s'.ids.total);
  }

  lemma HandsPushIDs(s: State, i: nat)
    requires HandsInv(s) && Enabled(s, PushIDs(i))
    ensures HandsInv(DoPushIDs(s, i))
  {
    var st := Stages(s.readers);
    StagesMove(s.readers, i, s.readers[i].(phase := IDsPushed));
    L.HeldMove(s.infos, st, 1, i, 4);
    L.HeldPush(s.ids, st, 3, i);
  }

  /** Past its pushes a read changes no ledger. */
  lemma HandsConvert(s: State, i: nat, r: Reader)
    requires HandsInv(s) && i < |s.readers| && Stage(s.readers[i].phase) == 4 == Stage(r.phase)
    ensures Stages(s.readers[i := r]) == Stages(s.readers)
  {
    StagesMove(s.readers, i, r);
  }

  lemma HandsReceive(s: State, chunk: Chunk)
    requires HandsInv(s)
    ensures HandsInv(DoReceive(s, chunk))
  {
    var st := Stages(s.readers);
    assert Stages(DoReceive(s, chunk).readers) == st + [0];
    L.HeldNewRead(s.infos, st, 1);
    L.HeldNewRead(s.ids, st, 3);
  }

  lemma HandsStep(s: State, a: Action)
    requires HandsInv(s) && Enabled(s, a)
    ensures HandsInv(Step(s, a))
  {
    match a {
      case Receive(chunk) => HandsReceive(s, chunk);
      case FlushAck =>
      case AssignInfo(i) => HandsAssignInfo(s, i);
      case PushInfo(i) => HandsPushInfo(s, i);
      case AssignIDs(i) => HandsAssignIDs(s, i);
      case PushIDs(i) => HandsPushIDs(s, i);
      case LookupInfo(i) => HandsConvert(s, i, DoLookupInfo(s, i).readers[i]);
      case LookupID(i) => HandsConvert(s, i, DoLookupID(s, i).readers[i]);
      case PushResult(i) => HandsConvert(s, i, DoPushResult(s, i).readers[i]);
    }
  }

  lemma AcksFlush(s: State)
    requires AcksInv(s)
    ensures AcksInv(DoFlush(s))
  {
    WrappedNext(|s.acks|);
    var s' := DoFlush(s);
    if s'.acks != s.acks {
      var n := |s.acks|;
      forall j | 0 <= j < |s'.acks|
        ensures s'.acks[j].id == Wrapped(j + 1)
        ensures s'.acks[j].ids == s'.ids.sent[j] && s'.acks[j].infos == s'.infos.sent[j]
      {
        if j < n { assert s'.acks[j] == s.acks[j]; }
      }
    }
  }

  lemma AcksFrame(s: State, s': State)
    requires AcksInv(s) && s'.acks == s.acks && s'.ackSequence == s.ackSequence
    requires s'.ids.sent == s.ids.sent && s'.infos.sent == s.infos.sent
    ensures AcksInv(s')
  {}

  lemma AcksStep(s: State, a: Action)
    requires AcksInv(s) && Enabled(s, a)
    ensures AcksInv(Step(s, a))
  {
    if a.FlushAck? { AcksFlush(s); } else { AcksFrame(s, Step(s, a)); }
  }

  lemma MoveConserves(all: seq<Result>, readers: seq<Reader>, order: seq<nat>, i: nat, r: Reader)
    requires Conserved(all, readers, order) && i < |readers| && !readers[i].phase.Done? && !r.phase.Done?
    ensures Conserved(all, readers[i := r], order)
  {}

  lemma PushConserves(all: seq<Result>, readers: seq<Reader>, order: seq<nat>, i: nat, r: Reader)
    requires Conserved(all, readers, order) && i < |readers| && !readers[i].phase.Done?
    requires r.phase.Done? && r.phase.pos == |order|
    ensures Conserved(all + [ResultOf(r)], readers[i := r], order + [i])
  {}

  /** One read moves on without finishing. */
  lemma ResultsMove(s: State, s': State, i: nat)
    requires ResultsInv(s) && i < |s.readers| == |s'.readers| && s'.readers == s.readers[i := s'.readers[i]]
    requires !s.readers[i].phase.Done? && !s'.readers[i].phase.Done?
    requires s'.acks == s.acks && s'.results == s.results && s'.order == s.order
    ensures ResultsInv(s')
  {
    MoveConserves(Sent(s.acks) + s.results, s.readers, s.order, i, s'.readers[i]);
  }

  lemma ResultsPush(s: State, i: nat)
    requires ResultsInv(s) && Enabled(s, PushResult(i))
    ensures ResultsInv(DoPushResult(s, i))
  {
    var s', all := DoPushResult(s, i), Sent(s.acks) + s.results;
    PushConserves(all, s.readers, s.order, i, s'.readers[i]);
    assert Sent(s.acks) + s'.results == all + [ResultOf(s'.readers[i])];
  }

  lemma ResultsReceive(s: State, chunk: Chunk)
    requires ResultsInv(s)
    ensures ResultsInv(DoReceive(s, chunk))
  {}

  lemma ResultsStep(s: State, a: Action)
    requires ResultsInv(s) && Enabled(s, a)
    ensures ResultsInv(Step(s, a))
  {
    match a {
      case Receive(chunk) => ResultsReceive(s, chunk);
      case FlushAck => FlushConserves(s);
      case PushResult(i) => ResultsPush(s, i);
      case AssignInfo(i) => ResultsMove(s, DoAssignInfo(s, i), i);
      case PushInfo(i) => ResultsMove(s, DoPushInfo(s, i), i);
      case AssignIDs(i) => ResultsMove(s, DoAssignIDs(s, i), i);
      case PushIDs(i) => ResultsMove(s, DoPushIDs(s, i), i);
      case LookupInfo(i) => ResultsMove(s, DoLookupInfo(s, i), i);
      case LookupID(i) => ResultsMove(s, DoLookupID(s, i), i);
    }
  }

  lemma FlushConserves(s: State)
    ensures Sent(DoFlush(s).acks) + DoFlush(s).results == Sent(s.acks) + s.results
  {
    var s' := DoFlush(s);
    if s'.acks != s.acks { SentSnoc(s.acks, s'.acks[|s.acks|]); }
  }
}
