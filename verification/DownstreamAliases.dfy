/**
 The aliases of a downstream, as long as neither of its two generators has wrapped around: where
 each alias is, what it means, and how it relates to the results of the reads.
 */
module DownstreamAliases {
  import opened Prelude
  import opened DataPoints
  import L = AliasLedger
  import opened DownstreamProtocol

  ghost predicate Small(s: State) { s.ids.total <= MAX_UINT32 && s.infos.total <= MAX_UINT32 }

  ghost predicate PointersDistinct(table: map<U32, Info>) {
    forall a, b :: a in table && b in table && table[a].ptr == table[b].ptr ==> a == b
  }

  /** What a converting read has produced is what the tables say. */
  ghost predicate ReadOK(r: Reader, infos: map<U32, Info>, ids: FwdTable) {
    r.phase.Converting? || r.phase.Done? ==>
      && |r.phase.done| <= |r.chunk.groups|
      && (r.phase.Done? ==> |r.phase.done| == |r.chunk.groups|)
      && Resolve(r.chunk.groups[..|r.phase.done|], ids) == Some(r.phase.done)
      && match r.chunk.upstream {
           case GivenInfo(info) => r.phase.info == info
           case InfoAlias(a) => a in infos && r.phase.info == infos[a]
         }
  }

  ghost predicate ReadsInv(s: State) {
    forall i :: 0 <= i < |s.readers| ==> ReadOK(s.readers[i], s.infos.table, s.ids.table)
  }

  /** Every ID a read was given in full has an alias from then on. */
  ghost predicate Learnt(r: Reader, rev: RevTable) {
    r.phase.Received? || r.phase.InfoAssigned? || r.phase.InfoPushed?
    || forall id :: id in FilterDataID(r.chunk.groups) ==> id in rev
  }

  ghost predicate AllLearnt(readers: seq<Reader>, rev: RevTable) {
    forall i :: 0 <= i < |readers| ==> Learnt(readers[i], rev)
  }

  ghost predicate AliasInv(s: State) {
    && L.Inv(s.ids) && L.Inv(s.infos) && s.infos.first == 0
    && Inverse(s.rev, s.ids.table)
    && PointersDistinct(s.infos.table)
    && AllLearnt(s.readers, s.rev)
  }


  // ---- assigning ----

  /** The IDs of `ids` get the next aliases, each once; nothing already bound changes. */
  lemma {:induction false} AssignAllSpec(ids: seq<DataID>, start: Assigned)
    requires start.gen == start.total && start.added == map[]
    ensures var k := AssignAll(ids, start);
      && start.total <= k.total
      && (forall id :: id in start.rev ==> id in k.rev && k.rev[id] == start.rev[id])
      && (forall id :: id in ids ==> id in k.rev)
      && (k.total <= MAX_UINT32 ==>
            && k.gen == k.total
            && (forall a :: a in k.added <==> start.gen < a <= k.gen)
            && (forall a :: a in k.added ==> k.added[a] in k.rev && k.rev[k.added[a]] == a)
            && (forall id :: id in k.rev ==>
                  id in start.rev || (k.rev[id] in k.added && k.added[k.rev[id]] == id)))
  {
    if ids != [] { AssignAllSpec(ids[..|ids| - 1], start); }
  }

  lemma {:induction false} AssignAllOnly(ids: seq<DataID>, start: Assigned)
    ensures forall id :: id in AssignAll(ids, start).rev ==> id in start.rev || id in ids
  {
    if ids != [] { AssignAllOnly(ids[..|ids| - 1], start); }
  }

  /** Of two IDs without an alias, the one given first gets the smaller one. */
  lemma {:induction false} NewAliasesInOrder(ids: seq<DataID>, start: Assigned, i: nat, j: nat)
    requires start.gen == start.total && start.added == map[] && AssignAll(ids, start).total <= MAX_UINT32
    requires i < j < |ids| && ids[i] !in start.rev && ids[j] !in start.rev && ids[j] !in ids[..j]
    ensures ids[i] in AssignAll(ids, start).rev && ids[j] in AssignAll(ids, start).rev
    ensures AssignAll(ids, start).rev[ids[i]] < AssignAll(ids, start).rev[ids[j]]
  {
    var n := |ids| - 1;
    var before := ids[..n];
    if j < n {
      assert before[..j] == ids[..j] && before[i] == ids[i] && before[j] == ids[j];
      NewAliasesInOrder(before, start, i, j);
    } else {
      assert before[i] == ids[i] && ids[i] in before;
      AssignAllOnly(before, start);
      LastAliasIsLargest(before, ids[n], start, ids[i]);
    }
  }

  lemma LastAliasIsLargest(before: seq<DataID>, last: DataID, start: Assigned, id: DataID)
    requires start.gen == start.total && start.added == map[]
    requires AssignAll(before, start).total < MAX_UINT32
    requires last !in start.rev && last !in before && id !in start.rev && id in before
    ensures var k := AssignAll(before, start);
      last !in k.rev && id in k.rev && k.rev[id] < L.NextAlias(k.gen)
  {
    AssignAllSpec(before, start);
    AssignAllOnly(before, start);
  }

  lemma {:induction false} ResolveGrows(ws: seq<WireGroup>, t: FwdTable, t': FwdTable)
    requires Resolve(ws, t).Some? && forall a :: a in t ==> a in t' && t'[a] == t[a]
    ensures Resolve(ws, t') == Resolve(ws, t)
  {
    if ws != [] { ResolveGrows(ws[..|ws| - 1], t, t'); }
  }

  lemma {:induction false} OpenedSpec(ids: seq<DataID>)
    ensures forall a: U32 :: a in OpenedTable(ids) <==> 1 <= a <= |ids|
    ensures forall a :: a in OpenedTable(ids) ==> OpenedTable(ids)[a] == ids[a - 1]
    ensures forall id :: id in OpenedRev(ids) <==> id in ids
    ensures Inverse(OpenedRev(ids), OpenedTable(ids))
  {
    if ids != [] {
      OpenedSpec(ids[..|ids| - 1]);
      assert ids == ids[..|ids| - 1] + [ids[|ids| - 1]];
    }
  }

  lemma InitialAliasInv(ids: seq<DataID>)
    requires |ids| <= MAX_UINT32
    ensures AliasInv(Initial(ids))
  {
    OpenedSpec(ids);
    L.OpenedInv(OpenedTable(ids), |ids|);
    var none: map<U32, Info> := map[];
    L.OpenedInv(none, 0);
  }

  // ---- the steps that touch the tables ----

  lemma LearntMove(readers: seq<Reader>, rev: RevTable, rev': RevTable, i: nat, r: Reader)
    requires AllLearnt(readers, rev)
    requires forall id :: id in rev ==> id in rev'
    requires i < |readers| && Learnt(r, rev')
    ensures AllLearnt(readers[i := r], rev')
  {}

  /** A new pointer at a new alias leaves pointers distinct. */
  lemma AddPointer(table: map<U32, Info>, a: U32, info: Info)
    requires PointersDistinct(table) && !SamePointer(table, info.ptr)
    ensures PointersDistinct(table + map[a := info])
  {}

  lemma AssignInfoKeeps(s: State, i: nat)
    requires AliasInv(s) && HandsInv(s) && Enabled(s, AssignInfo(i)) && Small(DoAssignInfo(s, i))
    ensures AliasInv(DoAssignInfo(s, i))
  {
    var r := s.readers[i];
    var s0 := Goto(s, i, InfoAssigned);
    MoveKeeps(s, i, InfoAssigned);
    if r.chunk.upstream.GivenInfo? && !SamePointer(s.infos.table, r.chunk.upstream.info.ptr) {
      assert Stages(s.readers)[i] == 0;
      var a := L.NextAlias(s.infos.gen);
      L.AssignInv(s.infos, i, map[a := r.chunk.upstream.info], a);
      AddPointer(s.infos.table, a, r.chunk.upstream.info);
    }
  }

  lemma AssignIDsKeeps(s: State, i: nat)
    requires AliasInv(s) && HandsInv(s) && Enabled(s, AssignIDs(i)) && Small(DoAssignIDs(s, i))
    ensures AliasInv(DoAssignIDs(s, i))
  {
    var s' := DoAssignIDs(s, i);
    AssignAllSpec(FilterDataID(s.readers[i].chunk.groups), Assigned(s.rev, s.ids.gen, s.ids.total, map[]));
    LearntMove(s.readers, s.rev, s'.rev, i, s'.readers[i]);
    assert Stages(s.readers)[i] == 2;
    L.AssignInv(s.ids, i, s'.ids.born[i], s'.ids.gen);
  }

  lemma FlushKeeps(s: State)
    requires AliasInv(s)
    ensures AliasInv(DoFlush(s))
  {
    L.FlushInv(s.ids);
    L.FlushInv(s.infos);
  }

  lemma MoveKeeps(s: State, i: nat, p: Phase)
    requires AliasInv(s) && i < |s.readers| && Stage(p) <= 2
    ensures AliasInv(Goto(s, i, p))
  {
    LearntMove(s.readers, s.rev, s.rev, i, s.readers[i].(phase := p));
  }

  lemma ConvertKeeps(s: State, i: nat, p: Phase)
    requires AliasInv(s) && i < |s.readers| && Stage(s.readers[i].phase) >= 3
    ensures AliasInv(Goto(s, i, p))
  {
    LearntMove(s.readers, s.rev, s.rev, i, s.readers[i].(phase := p));
  }

  lemma AliasFrame(s: State, s': State)
    requires AliasInv(s)
    requires s'.ids == s.ids && s'.infos == s.infos && s'.rev == s.rev && s'.readers == s.readers
    ensures AliasInv(s')
  {}

  lemma PushInfoKeeps(s: State, i: nat)
    requires AliasInv(s) && Enabled(s, PushInfo(i))
    ensures AliasInv(DoPushInfo(s, i))
  {
    L.PushInv(s.infos, i);
    MoveKeeps(s.(infos := L.Push(s.infos, i)), i, InfoPushed);
  }

  lemma PushIDsKeeps(s: State, i: nat)
    requires AliasInv(s) && Enabled(s, PushIDs(i))
    ensures AliasInv(DoPushIDs(s, i))
  {
    L.PushInv(s.ids, i);
    ConvertKeeps(s.(ids := L.Push(s.ids, i)), i, IDsPushed);
  }

  lemma ReceiveKeeps(s: State, chunk: Chunk)
    requires AliasInv(s)
    ensures AliasInv(DoReceive(s, chunk))
  {
    L.NewReadInv(s.ids);
    L.NewReadInv(s.infos);
  }

  lemma PushResultKeeps(s: State, i: nat)
    requires AliasInv(s) && Enabled(s, PushResult(i))
    ensures AliasInv(DoPushResult(s, i))
  {
    var p := DoPushResult(s, i).readers[i].phase;
    ConvertKeeps(s, i, p);
    AliasFrame(Goto(s, i, p), DoPushResult(s, i));
  }

  lemma AnnounceStep(s: State, a: Action)
    requires AliasInv(s) && HandsInv(s) && Enabled(s, a) && Small(Step(s, a))
    requires a.AssignInfo? || a.PushInfo? || a.AssignIDs? || a.PushIDs?
    ensures AliasInv(Step(s, a))
  {
    match a {
      case AssignInfo(i) => AssignInfoKeeps(s, i);
      case PushInfo(i) => PushInfoKeeps(s, i);
      case AssignIDs(i) => AssignIDsKeeps(s, i);
      case PushIDs(i) => PushIDsKeeps(s, i);
    }
  }

  lemma ConvertStep(s: State, a: Action)
    requires AliasInv(s) && Enabled(s, a) && (a.LookupInfo? || a.LookupID? || a.PushResult?)
    ensures AliasInv(Step(s, a))
  {
    match a {
      case LookupInfo(i) => ConvertKeeps(s, i, DoLookupInfo(s, i).readers[i].phase);
      case LookupID(i) => ConvertKeeps(s, i, DoLookupID(s, i).readers[i].phase);
      case PushResult(i) => PushResultKeeps(s, i);
    }
  }

  lemma AliasStep(s: State, a: Action)
    requires AliasInv(s) && HandsInv(s) && Enabled(s, a) && Small(Step(s, a))
    ensures AliasInv(Step(s, a))
  {
    if a.Receive? {
      ReceiveKeeps(s, a.chunk);
    } else if a.FlushAck? {
      FlushKeeps(s);
    } else if a.LookupInfo? || a.LookupID? || a.PushResult? {
      ConvertStep(s, a);
    } else {
      AnnounceStep(s, a);
    }
  }

  // ---- results behind aliases ----

  ghost predicate TimeInv(s: State) {
    && L.InTime(s.ids, Counts(s.acks), Positions(s.readers))
    && L.InTime(s.infos, Counts(s.acks), Positions(s.readers))
  }

  lemma PositionsMove(readers: seq<Reader>, i: nat, r: Reader)
    requires i < |readers| && !readers[i].phase.Done?
    ensures Positions(readers[i := r]) == Positions(readers)[i := if r.phase.Done? then Some(r.phase.pos) else None]
    ensures Positions(readers)[i] == None
    ensures !r.phase.Done? ==> Positions(readers[i := r]) == Positions(readers)
  {}

  lemma CountsBelow(acks: seq<Ack>, results: seq<Result>, order: seq<nat>, readers: seq<Reader>)
    requires Conserved(Sent(acks) + results, readers, order)
    ensures forall j :: 0 <= j < |Counts(acks)| ==> Counts(acks)[j] <= |order|
  {}

  lemma TimeAssignInfo(s: State, i: nat)
    requires TimeInv(s) && Enabled(s, AssignInfo(i))
    ensures TimeInv(DoAssignInfo(s, i))
  {
    var s' := DoAssignInfo(s, i);
    PositionsMove(s.readers, i, s'.readers[i]);
    if s'.infos != s.infos {
      var a := L.NextAlias(s.infos.gen);
      L.AssignInTime(s.infos, i, s'.infos.born[i], a, s.infos.total + 1, Counts(s.acks), Positions(s.readers));
    }
  }

  lemma TimeAssignIDs(s: State, i: nat)
    requires TimeInv(s) && Enabled(s, AssignIDs(i))
    ensures TimeInv(DoAssignIDs(s, i))
  {
    var s' := DoAssignIDs(s, i);
    PositionsMove(s.readers, i, s'.readers[i]);
    L.AssignInTime(s.ids, i, s'.ids.born[i], s'.ids.gen, s'.ids.total, Counts(s.acks), Positions(s.readers));
  }

  lemma TimePushInfo(s: State, i: nat)
    requires TimeInv(s) && L.Inv(s.infos) && Enabled(s, PushInfo(i))
    ensures TimeInv(DoPushInfo(s, i))
  {
    PositionsMove(s.readers, i, s.readers[i].(phase := InfoPushed));
    L.PushInTime(s.infos, i, Counts(s.acks), Positions(s.readers));
  }

  lemma TimePushIDs(s: State, i: nat)
    requires TimeInv(s) && L.Inv(s.ids) && Enabled(s, PushIDs(i))
    ensures TimeInv(DoPushIDs(s, i))
  {
    PositionsMove(s.readers, i, s.readers[i].(phase := IDsPushed));
    L.PushInTime(s.ids, i, Counts(s.acks), Positions(s.readers));
  }

  lemma TimePushResult(s: State, i: nat)
    requires TimeInv(s) && ResultsInv(s) && HandsInv(s) && Enabled(s, PushResult(i))
    ensures TimeInv(DoPushResult(s, i))
  {
    PositionsMove(s.readers, i, DoPushResult(s, i).readers[i]);
    CountsBelow(s.acks, s.results, s.order, s.readers);
    assert Stages(s.readers)[i] == 4;
    L.ResultInTime(s.ids, i, |s.order|, Counts(s.acks), Positions(s.readers));
    L.ResultInTime(s.infos, i, |s.order|, Counts(s.acks), Positions(s.readers));
  }

  lemma TimeFlush(s: State)
    requires TimeInv(s)
    ensures TimeInv(DoFlush(s))
  {
    var s' := DoFlush(s);
    if s'.acks != s.acks {
      SentSnoc(s.acks, s'.acks[|s.acks|]);
      L.FlushInTime(s.ids, |Sent(s'.acks)|, Counts(s.acks), Positions(s.readers));
      L.FlushInTime(s.infos, |Sent(s'.acks)|, Counts(s.acks), Positions(s.readers));
    }
  }

  lemma TimeReceive(s: State, chunk: Chunk)
    requires TimeInv(s)
    ensures TimeInv(DoReceive(s, chunk))
  {
    assert Positions(DoReceive(s, chunk).readers) == Positions(s.readers) + [None];
    L.NewReadInTime(s.ids, Counts(s.acks), Positions(s.readers));
    L.NewReadInTime(s.infos, Counts(s.acks), Positions(s.readers));
  }

  lemma TimeConvert(s: State, i: nat, p: Phase)
    requires TimeInv(s) && i < |s.readers| && !s.readers[i].phase.Done? && !p.Done?
    ensures TimeInv(Goto(s, i, p))
  {
    PositionsMove(s.readers, i, s.readers[i].(phase := p));
  }

  lemma TimeAnnounce(s: State, a: Action)
    requires TimeInv(s) && L.Inv(s.ids) && L.Inv(s.infos) && Enabled(s, a)
    requires a.AssignInfo? || a.PushInfo? || a.AssignIDs? || a.PushIDs?
    ensures TimeInv(Step(s, a))
  {
    match a {
      case AssignInfo(i) => TimeAssignInfo(s, i);
      case PushInfo(i) => TimePushInfo(s, i);
      case AssignIDs(i) => TimeAssignIDs(s, i);
      case PushIDs(i) => TimePushIDs(s, i);
    }
  }

  lemma TimeStep(s: State, a: Action)
    requires TimeInv(s) && L.Inv(s.ids) && L.Inv(s.infos) && ResultsInv(s) && HandsInv(s) && Enabled(s, a)
    ensures TimeInv(Step(s, a))
  {
    match a {
      case Receive(chunk) => TimeReceive(s, chunk);
      case FlushAck => TimeFlush(s);
      case LookupInfo(i) => TimeConvert(s, i, DoLookupInfo(s, i).readers[i].phase);
      case LookupID(i) => TimeConvert(s, i, DoLookupID(s, i).readers[i].phase);
      case PushResult(i) => TimePushResult(s, i);
      case _ => TimeAnnounce(s, a);
    }
  }

  // ---- what reads return ----

  lemma ReadGrows(r: Reader, infos: map<U32, Info>, infos': map<U32, Info>, ids: FwdTable, ids': FwdTable)
    requires ReadOK(r, infos, ids)
    requires forall a :: a in infos ==> a in infos' && infos'[a] == infos[a]
    requires forall a :: a in ids ==> a in ids' && ids'[a] == ids[a]
    ensures ReadOK(r, infos', ids')
  {
    if r.phase.Converting? || r.phase.Done? { ResolveGrows(r.chunk.groups[..|r.phase.done|], ids, ids'); }
  }

  lemma LookupOK(s: State, i: nat)
    requires ReadsInv(s) && Enabled(s, LookupID(i))
    ensures var s' := DoLookupID(s, i); ReadOK(s'.readers[i], s.infos.table, s.ids.table)
  {
    var gs, n := s.readers[i].chunk.groups, |s.readers[i].phase.done|;
    assert ReadOK(s.readers[i], s.infos.table, s.ids.table);
    assert gs[..n + 1][..n] == gs[..n];
  }

  /** The tables only grow. */
  ghost predicate TablesGrow(s: State, s': State) {
    && (forall a :: a in s.infos.table ==> a in s'.infos.table && s'.infos.table[a] == s.infos.table[a])
    && (forall a :: a in s.ids.table ==> a in s'.ids.table && s'.ids.table[a] == s.ids.table[a])
  }

  lemma AssignIDsGrows(s: State, i: nat)
    requires L.Inv(s.ids) && Enabled(s, AssignIDs(i)) && DoAssignIDs(s, i).ids.total <= MAX_UINT32
    ensures TablesGrow(s, DoAssignIDs(s, i))
  {
    AssignAllSpec(FilterDataID(s.readers[i].chunk.groups), Assigned(s.rev, s.ids.gen, s.ids.total, map[]));
  }

  lemma AssignInfoGrows(s: State, i: nat)
    requires L.Inv(s.infos) && Enabled(s, AssignInfo(i)) && DoAssignInfo(s, i).infos.total <= MAX_UINT32
    ensures TablesGrow(s, DoAssignInfo(s, i))
  {}

  lemma TablesStep(s: State, a: Action)
    requires L.Inv(s.ids) && L.Inv(s.infos) && Enabled(s, a) && Small(Step(s, a))
    ensures TablesGrow(s, Step(s, a))
  {
    if a.AssignIDs? {
      AssignIDsGrows(s, a.i);
    } else if a.AssignInfo? {
      AssignInfoGrows(s, a.i);
    } else {
      assert Step(s, a).ids.table == s.ids.table && Step(s, a).infos.table == s.infos.table;
    }
  }

  lemma ReadsMove(s: State, s': State, i: nat)
    requires ReadsInv(s) && TablesGrow(s, s') && i < |s.readers| == |s'.readers|
    requires s'.readers == s.readers[i := s'.readers[i]]
    requires ReadOK(s'.readers[i], s'.infos.table, s'.ids.table)
    ensures ReadsInv(s')
  {
    forall k | 0 <= k < |s.readers| ensures ReadOK(s'.readers[k], s'.infos.table, s'.ids.table) {
      if k != i { ReadGrows(s.readers[k], s.infos.table, s'.infos.table, s.ids.table, s'.ids.table); }
    }
  }

  lemma ReadsAnnounce(s: State, a: Action)
    requires ReadsInv(s) && Enabled(s, a) && TablesGrow(s, Step(s, a))
    requires a.AssignInfo? || a.PushInfo? || a.AssignIDs? || a.PushIDs?
    ensures ReadsInv(Step(s, a))
  {
    match a {
      case AssignInfo(i) => ReadsMove(s, DoAssignInfo(s, i), i);
      case PushInfo(i) => ReadsMove(s, DoPushInfo(s, i), i);
      case AssignIDs(i) => ReadsMove(s, DoAssignIDs(s, i), i);
      case PushIDs(i) => ReadsMove(s, DoPushIDs(s, i), i);
    }
  }

  lemma ReadsConvert(s: State, a: Action)
    requires ReadsInv(s) && Enabled(s, a) && TablesGrow(s, Step(s, a))
    requires a.LookupInfo? || a.LookupID? || a.PushResult?
    ensures ReadsInv(Step(s, a))
  {
    match a {
      case LookupInfo(i) => ReadsMove(s, DoLookupInfo(s, i), i);
      case LookupID(i) => LookupOK(s, i); ReadsMove(s, DoLookupID(s, i), i);
      case PushResult(i) => ReadsMove(s, DoPushResult(s, i), i);
    }
  }

  lemma ReadsStep(s: State, a: Action)
    requires ReadsInv(s) && L.Inv(s.ids) && L.Inv(s.infos) && Enabled(s, a) && Small(Step(s, a))
    ensures ReadsInv(Step(s, a))
  {
    TablesStep(s, a);
    if a.LookupInfo? || a.LookupID? || a.PushResult? {
      ReadsConvert(s, a);
    } else if !a.Receive? && !a.FlushAck? {
      ReadsAnnounce(s, a);
    }
  }

  // ---- runs ----

  ghost predicate Possible(s: State, run: seq<Action>)
    decreases |run|
  {
    run != [] ==> Enabled(s, run[0]) && Possible(Step(s, run[0]), run[1..])
  }

  ghost function After(s: State, run: seq<Action>): State
    requires Possible(s, run)
    decreases |run|
  {
    if run == [] then s else After(Step(s, run[0]), run[1..])
  }

  lemma AlwaysStep(s: State, a: Action)
    requires Always(s) && Enabled(s, a)
    ensures Always(Step(s, a))
  {
    AcksStep(s, a);
    ResultsStep(s, a);
    HandsStep(s, a);
  }

  /** What holds while the generators have not wrapped. */
  ghost predicate Good(s: State) { Always(s) && AliasInv(s) && TimeInv(s) && ReadsInv(s) }

  lemma GoodStep(s: State, a: Action)
    requires Good(s) && Enabled(s, a) && Small(Step(s, a))
    ensures Good(Step(s, a))
  {
    AlwaysStep(s, a);
    AliasStep(s, a);
    TimeStep(s, a);
    ReadsStep(s, a);
  }

  lemma {:induction false} AssignAllCounts(ids: seq<DataID>, start: Assigned)
    ensures start.total <= AssignAll(ids, start).total
  {
    if ids != [] { AssignAllCounts(ids[..|ids| - 1], start); }
  }

  lemma TotalsStep(s: State, a: Action)
    requires Enabled(s, a)
    ensures s.ids.total <= Step(s, a).ids.total && s.infos.total <= Step(s, a).infos.total
  {
    if a.AssignIDs? {
      AssignAllCounts(FilterDataID(s.readers[a.i].chunk.groups), Assigned(s.rev, s.ids.gen, s.ids.total, map[]));
    }
  }

  lemma {:induction false} TotalsGrow(s: State, run: seq<Action>)
    requires Possible(s, run)
    ensures s.ids.total <= After(s, run).ids.total && s.infos.total <= After(s, run).infos.total
    decreases |run|
  {
    if run != [] {
      TotalsStep(s, run[0]);
      TotalsGrow(Step(s, run[0]), run[1..]);
    }
  }

  lemma {:induction false} RunsKeepAlways(s: State, run: seq<Action>)
    requires Always(s) && Possible(s, run)
    ensures Always(After(s, run))
    decreases |run|
  {
    if run != [] {
      AlwaysStep(s, run[0]);
      RunsKeepAlways(Step(s, run[0]), run[1..]);
    }
  }

  lemma {:induction false} RunsKeepGood(s: State, run: seq<Action>)
    requires Good(s) && Possible(s, run) && Small(After(s, run))
    ensures Good(After(s, run))
    decreases |run|
  {
    if run != [] {
      TotalsGrow(Step(s, run[0]), run[1..]);
      GoodStep(s, run[0]);
      RunsKeepGood(Step(s, run[0]), run[1..]);
    }
  }

  lemma InitialAlways(ids: seq<DataID>)
    ensures Always(Initial(ids))
  {}

  lemma InitialTime(ids: seq<DataID>)
    ensures TimeInv(Initial(ids)) && ReadsInv(Initial(ids))
  {}

  lemma InitialGood(ids: seq<DataID>)
    requires |ids| <= MAX_UINT32
    ensures Good(Initial(ids))
  {
    InitialAlways(ids);
    InitialTime(ids);
    InitialAliasInv(ids);
  }
}
