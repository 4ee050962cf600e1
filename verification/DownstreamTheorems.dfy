/**
 What every run of a downstream guarantees. The results about acks and results hold without bound;
 those about aliases hold until one of the two alias generators has been asked 2^32 times.
 */
module DownstreamTheorems {
  import opened Prelude
  import opened DataPoints
  import L = AliasLedger
  import opened DownstreamProtocol
  import opened DownstreamAliases

  // ---- acks and results ----

  function ResultsOf(readers: seq<Reader>, order: seq<nat>): seq<Result>
    requires forall k :: 0 <= k < |order| ==> order[k] < |readers| && readers[order[k]].phase.Done?
  {
    seq(|order|, k requires 0 <= k < |order| => ResultOf(readers[order[k]]))
  }

  /** The results of all acks so far, followed by the buffered ones, are those of the successful
      reads in the order they pushed them: none is lost, repeated, or out of order. */
  lemma ResultsConserved(ids: seq<DataID>, run: seq<Action>)
    requires Possible(Initial(ids), run)
    ensures var s := After(Initial(ids), run);
      && (forall k :: 0 <= k < |s.order| ==>
            s.order[k] < |s.readers| && s.readers[s.order[k]].phase.Done?)
      && (forall i :: 0 <= i < |s.readers| && s.readers[i].phase.Done? ==> i in s.order)
      && (forall k, l :: 0 <= k < l < |s.order| ==> s.order[k] != s.order[l])
      && Sent(s.acks) + s.results == ResultsOf(s.readers, s.order)
  {
    InitialAlways(ids);
    RunsKeepAlways(Initial(ids), run);
    var s := After(Initial(ids), run);
    ConservedMeans(Sent(s.acks) + s.results, s.readers, s.order);
  }

  lemma ConservedMeans(all: seq<Result>, readers: seq<Reader>, order: seq<nat>)
    requires Conserved(all, readers, order)
    ensures forall k :: 0 <= k < |order| ==> order[k] < |readers| && readers[order[k]].phase.Done?
    ensures forall i :: 0 <= i < |readers| && readers[i].phase.Done? ==> i in order
    ensures forall k, l :: 0 <= k < l < |order| ==> order[k] != order[l]
    ensures all == ResultsOf(readers, order)
  {}

  /** A flush builds an ack exactly when something is buffered, with exactly what is; it leaves nothing
      buffered and changes no read. */
  lemma FlushTakesAll(s: State)
    ensures var s' := Step(s, FlushAck);
      && s'.ids.buffer == map[] && s'.infos.buffer == map[] && s'.results == []
      && s'.readers == s.readers && s'.order == s.order
      && if s.ids.buffer == map[] && s.infos.buffer == map[] && s.results == [] then s' == s
         else
           && |s'.acks| == |s.acks| + 1 && s'.acks[..|s.acks|] == s.acks
           && s'.acks[|s.acks|].ids == s.ids.buffer && s'.acks[|s.acks|].infos == s.infos.buffer
           && s'.acks[|s.acks|].results == s.results
  {
    assert s.ids.buffer == map[] <==> |s.ids.buffer| == 0;
    assert s.infos.buffer == map[] <==> |s.infos.buffer| == 0;
  }

  /** So after any run, one more flush has sent the result of every successful read so far. */
  lemma FlushSendsAllResults(ids: seq<DataID>, run: seq<Action>)
    requires Possible(Initial(ids), run)
    ensures var s := After(Initial(ids), run); var s' := Step(s, FlushAck);
      && (forall k :: 0 <= k < |s.order| ==> s.order[k] < |s.readers| && s.readers[s.order[k]].phase.Done?)
      && (forall i :: 0 <= i < |s.readers| && s.readers[i].phase.Done? ==> i in s.order)
      && Sent(s'.acks) == ResultsOf(s.readers, s.order)
  {
    var s := After(Initial(ids), run);
    ResultsConserved(ids, run);
    FlushTakesAll(s);
    FlushConserves(s);
    assert Sent(Step(s, FlushAck).acks) + [] == Sent(Step(s, FlushAck).acks);
  }

  /** Alias `a` is in some ack. */
  ghost predicate InSomeAck(acks: seq<Ack>, a: U32, ofInfo: bool) {
    exists j :: 0 <= j < |acks| && if ofInfo then a in acks[j].infos else a in acks[j].ids
  }

  lemma IDInSomeAck(s: State, a: U32)
    requires AcksInv(s) && L.Inv(s.ids) && s.ids.buffer == map[]
    requires s.ids.first < a <= s.ids.gen && !InHand(s.ids.hands, a)
    ensures InSomeAck(s.acks, a, false)
  {
    LedgerOnePlace(s.ids, a);
    var j :| 0 <= j < |s.ids.sent| && a in s.ids.sent[j];
    assert a in s.acks[j].ids;
  }

  lemma InfoInSomeAck(s: State, a: U32)
    requires AcksInv(s) && L.Inv(s.infos) && s.infos.buffer == map[]
    requires s.infos.first < a <= s.infos.gen && !InHand(s.infos.hands, a)
    ensures InSomeAck(s.acks, a, true)
  {
    LedgerOnePlace(s.infos, a);
    var j :| 0 <= j < |s.infos.sent| && a in s.infos.sent[j];
    assert a in s.acks[j].infos;
  }

  lemma FlushKeepsGood(ids: seq<DataID>, run: seq<Action>)
    requires Unwrapped(ids, run)
    ensures var s' := Step(After(Initial(ids), run), FlushAck);
      && AcksInv(s') && L.Inv(s'.ids) && L.Inv(s'.infos)
      && s'.ids.first == |ids| && s'.infos.first == 0 && s'.ids.buffer == map[] && s'.infos.buffer == map[]
  {
    ReachableGood(ids, run);
    FirstIsFixed(Initial(ids), run);
    GoodStep(After(Initial(ids), run), FlushAck);
    FlushTakesAll(After(Initial(ids), run));
  }

  /** And has announced every alias that is in no read's hand. */
  lemma FlushAnnouncesAll(ids: seq<DataID>, run: seq<Action>)
    requires Unwrapped(ids, run)
    ensures var s' := Step(After(Initial(ids), run), FlushAck);
      && (forall a :: |ids| < a <= s'.ids.gen && !InHand(s'.ids.hands, a) ==> InSomeAck(s'.acks, a, false))
      && (forall a :: 0 < a <= s'.infos.gen && !InHand(s'.infos.hands, a) ==> InSomeAck(s'.acks, a, true))
  {
    FlushKeepsGood(ids, run);
    var s' := Step(After(Initial(ids), run), FlushAck);
    forall a | |ids| < a <= s'.ids.gen && !InHand(s'.ids.hands, a) ensures InSomeAck(s'.acks, a, false) {
      IDInSomeAck(s', a);
    }
    forall a | 0 < a <= s'.infos.gen && !InHand(s'.infos.hands, a) ensures InSomeAck(s'.acks, a, true) {
      InfoInSomeAck(s', a);
    }
  }

  /** Ack IDs are 1, 2, 3, ..., modulo 2^32. */
  lemma AckIDsCountUp(ids: seq<DataID>, run: seq<Action>, j: nat)
    requires Possible(Initial(ids), run) && j < |After(Initial(ids), run).acks|
    ensures After(Initial(ids), run).acks[j].id == (j + 1) % 0x1_0000_0000
  {
    InitialAlways(ids);
    RunsKeepAlways(Initial(ids), run);
  }

  // ---- aliases ----

  ghost predicate Unwrapped(ids: seq<DataID>, run: seq<Action>) {
    Possible(Initial(ids), run) && Small(After(Initial(ids), run))
  }

  lemma ReachableGood(ids: seq<DataID>, run: seq<Action>)
    requires Unwrapped(ids, run)
    ensures Good(After(Initial(ids), run))
  {
    TotalsGrow(Initial(ids), run);
    InitialGood(ids);
    RunsKeepGood(Initial(ids), run);
  }

  ghost predicate InHand<V(!new)>(hands: seq<map<U32, V>>, a: U32) {
    exists i :: 0 <= i < |hands| && a in hands[i]
  }

  /** `a` is in exactly one place: one read's hand, the ack buffer, or one ack. */
  ghost predicate OnePlace<V(!new)>(l: L.Ledger<V>, a: U32) {
    && (InHand(l.hands, a) || a in l.buffer || InHand(l.sent, a))
    && !(InHand(l.hands, a) && (a in l.buffer || InHand(l.sent, a)))
    && !(a in l.buffer && InHand(l.sent, a))
    && (forall i, j :: 0 <= i < j < |l.hands| ==> !(a in l.hands[i] && a in l.hands[j]))
    && (forall i, j :: 0 <= i < j < |l.sent| ==> !(a in l.sent[i] && a in l.sent[j]))
  }

  lemma LedgerOnePlace<V(!new)>(l: L.Ledger<V>, a: U32)
    requires L.Inv(l) && l.first < a <= l.gen
    ensures OnePlace(l, a)
  {
    assert L.Born(l, a);
    var i :| 0 <= i < |l.born| && a in l.born[i];
    if L.Announced(l, a) { var j :| 0 <= j < |l.sent| && a in l.sent[j]; }
  }

  /** Every alias assigned since the open is in one place only, and is announced in at most one ack;
      acks announce nothing else. */
  lemma AliasesAnnouncedOnce(ids: seq<DataID>, run: seq<Action>)
    requires Unwrapped(ids, run)
    ensures var s := After(Initial(ids), run);
      && (forall a :: |ids| < a <= s.ids.gen ==> OnePlace(s.ids, a))
      && (forall a :: 0 < a <= s.infos.gen ==> OnePlace(s.infos, a))
      && (forall j, a :: 0 <= j < |s.acks| && a in s.acks[j].ids ==> |ids| < a <= s.ids.gen)
      && (forall j, a :: 0 <= j < |s.acks| && a in s.acks[j].infos ==> 0 < a <= s.infos.gen)
  {
    ReachableGood(ids, run);
    FirstIsFixed(Initial(ids), run);
    var s := After(Initial(ids), run);
    forall a | |ids| < a <= s.ids.gen ensures OnePlace(s.ids, a) { LedgerOnePlace(s.ids, a); }
    forall a | 0 < a <= s.infos.gen ensures OnePlace(s.infos, a) { LedgerOnePlace(s.infos, a); }
  }

  lemma {:induction false} FirstIsFixed(s: State, run: seq<Action>)
    requires Possible(s, run)
    ensures After(s, run).ids.first == s.ids.first && After(s, run).infos.first == s.infos.first
    decreases |run|
  {
    if run != [] { FirstIsFixed(Step(s, run[0]), run[1..]); }
  }

  lemma {:induction false} CountsArePrefixes(acks: seq<Ack>, j: nat)
    requires j <= |acks|
    ensures Counts(acks)[j] == |Sent(acks[..j])|
  {
    if j < |acks| {
      CountsArePrefixes(acks[..|acks| - 1], j);
      assert acks[..|acks| - 1][..j] == acks[..j];
    } else {
      assert acks[..j] == acks;
    }
  }

  /** A finished read's aliases are in nobody's hand. */
  lemma NotInHand<V(!new)>(l: L.Ledger<V>, i: nat, a: U32)
    requires L.Inv(l) && i < |l.born| && a in l.born[i] && a !in l.hands[i]
    ensures !InHand(l.hands, a)
  {
    assert a in l.buffer || L.Announced(l, a);
    if L.Announced(l, a) { var j :| 0 <= j < |l.sent| && a in l.sent[j]; }
  }

  /** Read i was assigned alias `a`, of a data ID or of an upstream info. */
  ghost predicate Introduced<V(!new)>(l: L.Ledger<V>, i: nat, a: U32) { i < |l.born| && a in l.born[i] }

  /** The result of a read never leaves before the aliases the read introduced: once the result is
      pushed no such alias is still in a hand; when ack j announces one of them the result is not in an
      earlier ack; and while one is buffered so is the result. */
  lemma ResultsNeverOvertakeAliases(ids: seq<DataID>, run: seq<Action>, i: nat, a: U32)
    requires Unwrapped(ids, run)
    requires var s := After(Initial(ids), run); i < |s.readers| && s.readers[i].phase.Done?
    ensures var s := After(Initial(ids), run);
      && |s.ids.born| == |s.infos.born| == |s.readers|
      && (Introduced(s.ids, i, a) ==>
            && !InHand(s.ids.hands, a)
            && (a in s.ids.buffer ==> |Sent(s.acks)| <= s.readers[i].phase.pos)
            && (forall j :: 0 <= j < |s.acks| && a in s.acks[j].ids ==>
                  |Sent(s.acks[..j])| <= s.readers[i].phase.pos))
      && (Introduced(s.infos, i, a) ==>
            && !InHand(s.infos.hands, a)
            && (a in s.infos.buffer ==> |Sent(s.acks)| <= s.readers[i].phase.pos)
            && (forall j :: 0 <= j < |s.acks| && a in s.acks[j].infos ==>
                  |Sent(s.acks[..j])| <= s.readers[i].phase.pos))
  {
    ReachableGood(ids, run);
    var s := After(Initial(ids), run);
    var p := s.readers[i].phase.pos;
    assert Positions(s.readers)[i] == Some(p);
    forall j | 0 <= j <= |s.acks| ensures Counts(s.acks)[j] == |Sent(s.acks[..j])| {
      CountsArePrefixes(s.acks, j);
    }
    if Introduced(s.ids, i, a) {
      assert L.NotBefore(s.ids, Counts(s.acks), a, p);
      NotInHand(s.ids, i, a);
    }
    if Introduced(s.infos, i, a) {
      assert L.NotBefore(s.infos, Counts(s.acks), a, p);
      NotInHand(s.infos, i, a);
    }
  }

  /** What an ack announced stays true: the server may use the alias from then on. */
  lemma AnnouncedAliasesResolve(ids: seq<DataID>, run: seq<Action>, j: nat)
    requires Unwrapped(ids, run) && j < |After(Initial(ids), run).acks|
    ensures var s := After(Initial(ids), run);
      && (forall a :: a in s.acks[j].ids ==> a in s.ids.table && s.ids.table[a] == s.acks[j].ids[a])
      && (forall a :: a in s.acks[j].infos ==> a in s.infos.table && s.infos.table[a] == s.acks[j].infos[a])
  {
    ReachableGood(ids, run);
  }

  ghost predicate GivenInFull(gs: seq<WireGroup>, id: DataID) {
    exists k :: 0 <= k < |gs| && gs[k].ref == ByID(id)
  }

  lemma GivenInFullSnoc(gs: seq<WireGroup>, id: DataID)
    requires gs != []
    ensures GivenInFull(gs, id) <==> GivenInFull(gs[..|gs| - 1], id) || gs[|gs| - 1].ref == ByID(id)
  {
    var n := |gs| - 1;
    if GivenInFull(gs[..n], id) { var k :| 0 <= k < n && gs[..n][k].ref == ByID(id); assert gs[k].ref == ByID(id); }
    if GivenInFull(gs, id) {
      var k :| 0 <= k < |gs| && gs[k].ref == ByID(id);
      assert k < n ==> gs[..n][k].ref == ByID(id);
    }
  }

  /** filterDataID keeps every ID given in full, and nothing else. */
  lemma {:induction false} FilterKeepsFullIDs(gs: seq<WireGroup>, id: DataID)
    ensures id in FilterDataID(gs) <==> GivenInFull(gs, id)
  {
    if gs != [] {
      FilterKeepsFullIDs(gs[..|gs| - 1], id);
      GivenInFullSnoc(gs, id);
    }
  }

  /** A successful read returns its chunk with every alias replaced by what it stands for, and every
      ID the chunk gave in full has an alias. */
  lemma ReadsAreFaithful(ids: seq<DataID>, run: seq<Action>, i: nat)
    requires Unwrapped(ids, run)
    requires var s := After(Initial(ids), run); i < |s.readers| && s.readers[i].phase.Done?
    ensures var s := After(Initial(ids), run); var r := s.readers[i];
      && Resolve(r.chunk.groups, s.ids.table) == Some(r.phase.done)
      && (match r.chunk.upstream
          case GivenInfo(info) => r.phase.info == info
          case InfoAlias(a) => a in s.infos.table && r.phase.info == s.infos.table[a])
      && (forall k :: 0 <= k < |r.chunk.groups| && r.chunk.groups[k].ref.ByID? ==>
            r.chunk.groups[k].ref.id in s.rev)
  {
    ReachableGood(ids, run);
    var s := After(Initial(ids), run);
    var gs := s.readers[i].chunk.groups;
    assert ReadOK(s.readers[i], s.infos.table, s.ids.table) && Learnt(s.readers[i], s.rev);
    forall k | 0 <= k < |gs| && gs[k].ref.ByID? ensures gs[k].ref.id in s.rev {
      FilterKeepsFullIDs(gs, gs[k].ref.id);
    }
    assert gs[..|gs|] == gs;
  }

  /** Every alias the chunk uses is in the tables. */
  ghost predicate Known(chunk: Chunk, infos: map<U32, Info>, ids: FwdTable) {
    && (chunk.upstream.InfoAlias? ==> chunk.upstream.alias in infos)
    && (forall k :: 0 <= k < |chunk.groups| ==> ResolveRef(chunk.groups[k].ref, ids).Some?)
  }

  /** Read i is reading `chunk`, whose aliases are known, and has not failed. */
  ghost predicate ReadsKnown(s: State, i: nat, chunk: Chunk) {
    && i < |s.readers| && s.readers[i].chunk == chunk && !s.readers[i].phase.Failed?
    && Known(chunk, s.infos.table, s.ids.table)
  }

  lemma KnownStays(s: State, s': State, chunk: Chunk)
    requires Known(chunk, s.infos.table, s.ids.table) && TablesGrow(s, s')
    ensures Known(chunk, s'.infos.table, s'.ids.table)
  {
    forall k | 0 <= k < |chunk.groups| ensures ResolveRef(chunk.groups[k].ref, s'.ids.table).Some? {
      assert ResolveRef(chunk.groups[k].ref, s.ids.table).Some?;
    }
  }

  /** No step makes it fail. */
  lemma KnownNeverFails(s: State, i: nat, chunk: Chunk, a: Action)
    requires ReadsKnown(s, i, chunk) && Enabled(s, a)
    ensures var s' := Step(s, a);
      i < |s'.readers| && s'.readers[i].chunk == chunk && !s'.readers[i].phase.Failed?
  {
    if a.LookupID? && a.i == i {
      assert ResolveRef(chunk.groups[|s.readers[i].phase.done|].ref, s.ids.table).Some?;
    }
  }

  lemma {:induction false} StaysKnown(s: State, i: nat, chunk: Chunk, more: seq<Action>)
    requires Good(s) && ReadsKnown(s, i, chunk) && Possible(s, more) && Small(After(s, more))
    ensures ReadsKnown(After(s, more), i, chunk)
    decreases |more|
  {
    if more != [] {
      TotalsGrow(Step(s, more[0]), more[1..]);
      GoodStep(s, more[0]);
      TablesStep(s, more[0]);
      KnownNeverFails(s, i, chunk, more[0]);
      KnownStays(s, Step(s, more[0]), chunk);
      StaysKnown(Step(s, more[0]), i, chunk, more[1..]);
    }
  }

  /** A read never fails when every alias of its chunk was in the tables at the moment it was received,
      whatever other reads and flushes come before each of its lookups. */
  lemma KnownAliasesNeverFail(ids: seq<DataID>, run: seq<Action>, chunk: Chunk, more: seq<Action>)
    requires Possible(Initial(ids), run)
    requires var s := After(Initial(ids), run); Known(chunk, s.infos.table, s.ids.table)
    requires var s' := Step(After(Initial(ids), run), Receive(chunk)); Possible(s', more) && Small(After(s', more))
    ensures var s := After(Initial(ids), run);
      var e := After(Step(s, Receive(chunk)), more);
      |s.readers| < |e.readers| && e.readers[|s.readers|].chunk == chunk && !e.readers[|s.readers|].phase.Failed?
  {
    var s := After(Initial(ids), run);
    var s' := Step(s, Receive(chunk));
    TotalsGrow(s', more);
    ReachableGood(ids, run);
    GoodStep(s, Receive(chunk));
    StaysKnown(s', |s.readers|, chunk, more);
  }

  /** Upstream infos are told apart by pointer: no pointer has two aliases. */
  lemma OneAliasPerPointer(ids: seq<DataID>, run: seq<Action>)
    requires Unwrapped(ids, run)
    ensures PointersDistinct(After(Initial(ids), run).infos.table)
  {
    ReachableGood(ids, run);
  }

  ghost predicate HasAlias(table: map<U32, Info>, ptr: int) { exists a :: a in table && table[a].ptr == ptr }

  /** Every info a read was given in full has an alias from then on. */
  ghost predicate InfoLearnt(r: Reader, table: map<U32, Info>) {
    Stage(r.phase) >= 1 && r.chunk.upstream.GivenInfo? ==> HasAlias(table, r.chunk.upstream.info.ptr)
  }

  ghost predicate InfosLearnt(s: State) {
    forall i :: 0 <= i < |s.readers| ==> InfoLearnt(s.readers[i], s.infos.table)
  }

  lemma HasAliasGrows(table: map<U32, Info>, table': map<U32, Info>, ptr: int)
    requires HasAlias(table, ptr) && forall a :: a in table ==> a in table' && table'[a] == table[a]
    ensures HasAlias(table', ptr)
  {
    var a :| a in table && table[a].ptr == ptr;
    assert a in table' && table'[a].ptr == ptr;
  }

  lemma AssignInfoLearns(s: State, i: nat)
    requires Enabled(s, AssignInfo(i)) && s.readers[i].chunk.upstream.GivenInfo?
    ensures HasAlias(DoAssignInfo(s, i).infos.table, s.readers[i].chunk.upstream.info.ptr)
  {
    var info := s.readers[i].chunk.upstream.info;
    if SamePointer(s.infos.table, info.ptr) {
      assert DoAssignInfo(s, i).infos.table == s.infos.table;
    } else {
      var a := L.NextAlias(s.infos.gen);
      assert a in DoAssignInfo(s, i).infos.table && DoAssignInfo(s, i).infos.table[a] == info;
    }
  }

  /** A step that is not an AssignInfo of a read leaves what the read needs learnt as it was. */
  lemma StageFrame(s: State, a: Action, k: nat)
    requires Enabled(s, a) && k < |s.readers| && a != AssignInfo(k)
    ensures k < |Step(s, a).readers| && Step(s, a).readers[k].chunk == s.readers[k].chunk
    ensures Stage(Step(s, a).readers[k].phase) >= 1 ==> Stage(s.readers[k].phase) >= 1
  {}

  lemma InfosLearntStep(s: State, a: Action)
    requires InfosLearnt(s) && Enabled(s, a) && TablesGrow(s, Step(s, a))
    ensures InfosLearnt(Step(s, a))
  {
    var s' := Step(s, a);
    forall k | 0 <= k < |s'.readers| ensures InfoLearnt(s'.readers[k], s'.infos.table) {
      if k < |s.readers| {
        if a == AssignInfo(k) {
          if s.readers[k].chunk.upstream.GivenInfo? { AssignInfoLearns(s, k); }
        } else {
          StageFrame(s, a, k);
          assert InfoLearnt(s.readers[k], s.infos.table);
          if Stage(s'.readers[k].phase) >= 1 && s.readers[k].chunk.upstream.GivenInfo? {
            HasAliasGrows(s.infos.table, s'.infos.table, s.readers[k].chunk.upstream.info.ptr);
          }
        }
      }
    }
  }

  lemma {:induction false} RunsLearnInfos(s: State, run: seq<Action>)
    requires Good(s) && InfosLearnt(s) && Possible(s, run) && Small(After(s, run))
    ensures InfosLearnt(After(s, run))
    decreases |run|
  {
    if run != [] {
      TotalsGrow(Step(s, run[0]), run[1..]);
      GoodStep(s, run[0]);
      TablesStep(s, run[0]);
      InfosLearntStep(s, run[0]);
      RunsLearnInfos(Step(s, run[0]), run[1..]);
    }
  }

  lemma ReachableInfosLearnt(ids: seq<DataID>, run: seq<Action>)
    requires Unwrapped(ids, run)
    ensures InfosLearnt(After(Initial(ids), run)) && PointersDistinct(After(Initial(ids), run).infos.table)
  {
    TotalsGrow(Initial(ids), run);
    InitialGood(ids);
    RunsLearnInfos(Initial(ids), run);
    OneAliasPerPointer(ids, run);
  }

  ghost predicate OneAliasFor(table: map<U32, Info>, ptr: int) {
    && (exists a :: a in table && table[a].ptr == ptr)
    && (forall a, b :: a in table && b in table && table[a].ptr == ptr == table[b].ptr ==> a == b)
  }

  lemma LearntOnce(s: State, i: nat)
    requires InfosLearnt(s) && PointersDistinct(s.infos.table)
    requires i < |s.readers| && s.readers[i].phase.Done? && s.readers[i].chunk.upstream.GivenInfo?
    ensures OneAliasFor(s.infos.table, s.readers[i].chunk.upstream.info.ptr)
  {
    assert InfoLearnt(s.readers[i], s.infos.table);
  }

  /** In every run an upstream info that a successful read was given in full has exactly one alias. */
  lemma GivenInfosHaveOneAlias(ids: seq<DataID>, run: seq<Action>, i: nat)
    requires Unwrapped(ids, run)
    requires var s := After(Initial(ids), run);
      i < |s.readers| && s.readers[i].phase.Done? && s.readers[i].chunk.upstream.GivenInfo?
    ensures var s := After(Initial(ids), run);
      OneAliasFor(s.infos.table, s.readers[i].chunk.upstream.info.ptr)
  {
    ReachableInfosLearnt(ids, run);
    LearntOnce(After(Initial(ids), run), i);
  }

  // ---- the two data ID tables ----

  ghost predicate RevGrows(rev: RevTable, rev': RevTable) {
    forall id :: id in rev ==> id in rev' && rev'[id] == rev[id]
  }

  lemma RevStep(s: State, a: Action)
    requires L.Inv(s.ids) && Enabled(s, a)
    ensures RevGrows(s.rev, Step(s, a).rev)
  {
    if a.AssignIDs? {
      AssignAllSpec(FilterDataID(s.readers[a.i].chunk.groups), Assigned(s.rev, s.ids.gen, s.ids.total, map[]));
    } else {
      TablesFrame(s, a);
    }
  }

  lemma {:induction false} BindingsStay(s: State, more: seq<Action>)
    requires Good(s) && Possible(s, more) && Small(After(s, more))
    ensures TablesGrow(s, After(s, more)) && RevGrows(s.rev, After(s, more).rev)
    decreases |more|
  {
    if more != [] {
      TotalsGrow(Step(s, more[0]), more[1..]);
      TablesStep(s, more[0]);
      RevStep(s, more[0]);
      GoodStep(s, more[0]);
      BindingsStay(Step(s, more[0]), more[1..]);
    }
  }

  /** Once bound, an alias keeps its meaning and an ID its alias for the rest of every run. */
  lemma BindingsNeverChange(ids: seq<DataID>, run: seq<Action>, more: seq<Action>)
    requires Possible(Initial(ids), run) && Possible(After(Initial(ids), run), more)
    requires Small(After(After(Initial(ids), run), more))
    ensures var s := After(Initial(ids), run); var s' := After(s, more);
      TablesGrow(s, s') && RevGrows(s.rev, s'.rev)
  {
    var s := After(Initial(ids), run);
    TotalsGrow(s, more);
    ReachableGood(ids, run);
    BindingsStay(s, more);
  }

  /** Every alias is the one its ID is known by. */
  ghost predicate Onto(rev: RevTable, table: FwdTable) {
    forall a :: a in table ==> table[a] in rev && rev[table[a]] == a
  }

  lemma {:induction false} OpenedRevIsLast(ids: seq<DataID>)
    ensures forall id :: id in OpenedRev(ids) ==>
      && 1 <= OpenedRev(ids)[id] <= |ids| && ids[OpenedRev(ids)[id] - 1] == id
      && forall k :: OpenedRev(ids)[id] <= k < |ids| ==> ids[k] != id
  {
    if ids != [] {
      OpenedRevIsLast(ids[..|ids| - 1]);
      assert ids == ids[..|ids| - 1] + [ids[|ids| - 1]];
    }
  }

  ghost predicate Distinct(ids: seq<DataID>) {
    forall i, j :: 0 <= i < j < |ids| ==> ids[i] != ids[j]
  }

  lemma OpenedOntoIff(ids: seq<DataID>)
    ensures Onto(OpenedRev(ids), OpenedTable(ids)) <==> Distinct(ids)
  {
    if Onto(OpenedRev(ids), OpenedTable(ids)) { OntoIsDistinct(ids); }
    if Distinct(ids) { DistinctIsOnto(ids); }
  }

  lemma OntoIsDistinct(ids: seq<DataID>)
    requires Onto(OpenedRev(ids), OpenedTable(ids))
    ensures Distinct(ids)
  {
    OpenedSpec(ids);
    var table := OpenedTable(ids);
    forall i, j | 0 <= i < j < |ids| ensures ids[i] != ids[j] {
      assert i + 1 in table && j + 1 in table && table[i + 1] == ids[i] && table[j + 1] == ids[j];
    }
  }

  lemma DistinctIsOnto(ids: seq<DataID>)
    requires Distinct(ids)
    ensures Onto(OpenedRev(ids), OpenedTable(ids))
  {
    OpenedSpec(ids);
    OpenedRevIsLast(ids);
    var rev, table := OpenedRev(ids), OpenedTable(ids);
    forall a | a in table ensures table[a] in rev && rev[table[a]] == a {
      assert ids[a - 1] in ids && ids[rev[ids[a - 1]] - 1] == ids[a - 1];
    }
  }

  lemma OntoAssign(s: State, i: nat)
    requires L.Inv(s.ids) && Inverse(s.rev, s.ids.table) && Enabled(s, AssignIDs(i))
    requires DoAssignIDs(s, i).ids.total <= MAX_UINT32
    ensures var s' := DoAssignIDs(s, i); Onto(s'.rev, s'.ids.table) <==> Onto(s.rev, s.ids.table)
  {
    AssignAllSpec(FilterDataID(s.readers[i].chunk.groups), Assigned(s.rev, s.ids.gen, s.ids.total, map[]));
    AssignIDsGrows(s, i);
  }

  lemma OntoStep(s: State, a: Action)
    requires L.Inv(s.ids) && Inverse(s.rev, s.ids.table) && Enabled(s, a) && Step(s, a).ids.total <= MAX_UINT32
    ensures Onto(Step(s, a).rev, Step(s, a).ids.table) <==> Onto(s.rev, s.ids.table)
  {
    if a.AssignIDs? { OntoAssign(s, a.i); } else { TablesFrame(s, a); }
  }

  lemma TablesFrame(s: State, a: Action)
    requires Enabled(s, a) && !a.AssignIDs?
    ensures Step(s, a).rev == s.rev && Step(s, a).ids.table == s.ids.table
  {}

  lemma {:induction false} OntoRuns(s: State, run: seq<Action>)
    requires Good(s) && Possible(s, run) && Small(After(s, run))
    ensures Onto(After(s, run).rev, After(s, run).ids.table) <==> Onto(s.rev, s.ids.table)
    decreases |run|
  {
    if run != [] {
      TotalsGrow(Step(s, run[0]), run[1..]);
      GoodStep(s, run[0]);
      OntoStep(s, run[0]);
      OntoRuns(Step(s, run[0]), run[1..]);
    }
  }

  /** The reverse table never lies, and the two tables are inverse to each other exactly when the
      data IDs the stream was opened with are distinct. */
  lemma TablesAreInverseIffDistinct(ids: seq<DataID>, run: seq<Action>)
    requires Unwrapped(ids, run)
    ensures var s := After(Initial(ids), run);
      Inverse(s.rev, s.ids.table) && (Onto(s.rev, s.ids.table) <==> Distinct(ids))
  {
    ReachableGood(ids, run);
    TotalsGrow(Initial(ids), run);
    InitialGood(ids);
    OntoRuns(Initial(ids), run);
    OpenedOntoIff(ids);
  }
}
