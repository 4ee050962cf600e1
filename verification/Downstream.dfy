/**
 The Downstream object. Its methods are the critical sections of d.mu; `view` follows them in the
 state machine of DownstreamProtocol, so the results proved there of every run cover the object.
 */
module DownstreamObject {
  import opened Prelude
  import opened DataPoints
  import L = AliasLedger
  import opened DownstreamProtocol

  class AliasGenerator {
    var currentValue: U32

    constructor (initial: U32)
      ensures currentValue == initial
    {
      currentValue := initial;
    }

    method Next() returns (n: U32)
      requires 0 <= currentValue <= MAX_UINT32
      modifies this
      ensures currentValue == L.NextAlias(old(currentValue))
      ensures n == currentValue && 0 < n <= MAX_UINT32
      ensures n == if old(currentValue) == MAX_UINT32 then 1 else old(currentValue) + 1
    {
      while true
        invariant 0 <= currentValue <= MAX_UINT32
        invariant currentValue == old(currentValue) || (currentValue == 0 && old(currentValue) == MAX_UINT32)
        decreases currentValue
      {
        currentValue := Inc32(currentValue);
        n := currentValue;
        if n != 0 { return; }
      }
    }
  }

  method FilterIDs(gs: seq<WireGroup>) returns (res: seq<DataID>)
    ensures res == FilterDataID(gs)
  {
    res := [];
    for i := 0 to |gs|
      invariant res == FilterDataID(gs[..i])
    {
      assert gs[..i + 1][..i] == gs[..i];
      match gs[i].ref {
      case ByID(id) => res := res + [id];
      case ByAlias(_) =>
      }
    }
    assert gs[..|gs|] == gs;
  }

  class Downstream {
    var dataIDAliases: FwdTable
    var revDataIDAliases: RevTable
    var upstreamInfos: map<U32, Info>
    const dataIDAliasGenerator: AliasGenerator
    const upstreamInfoAliasGenerator: AliasGenerator
    var upstreamInfoAckBuffer: map<U32, Info>
    var dataIDAckBuffer: map<U32, DataID>
    var resultAckBuffer: seq<Result>
    var chunkAckIDSequence: U32
    ghost var view: State

    ghost predicate Valid()
      reads this, dataIDAliasGenerator, upstreamInfoAliasGenerator
    {
      && dataIDAliasGenerator != upstreamInfoAliasGenerator
      && view.ids.table == dataIDAliases && view.ids.buffer == dataIDAckBuffer
      && view.ids.gen == dataIDAliasGenerator.currentValue && view.rev == revDataIDAliases
      && view.infos.table == upstreamInfos && view.infos.buffer == upstreamInfoAckBuffer
      && view.infos.gen == upstreamInfoAliasGenerator.currentValue
      && view.results == resultAckBuffer && view.ackSequence == chunkAckIDSequence
      && 0 <= dataIDAliasGenerator.currentValue <= MAX_UINT32
      && 0 <= upstreamInfoAliasGenerator.currentValue <= MAX_UINT32
    }

    /** OpenDownstream's tables and the object it builds. */
    constructor (dataIDs: seq<DataID>)
      requires |dataIDs| <= MAX_UINT32
      ensures Valid() && fresh(dataIDAliasGenerator) && fresh(upstreamInfoAliasGenerator)
      ensures view == Initial(dataIDs)
    {
      var aliasGenerator := new AliasGenerator(0);
      var aliases: FwdTable, revAliases: RevTable := map[], map[];
      for i := 0 to |dataIDs|
        invariant fresh(aliasGenerator) && aliasGenerator.currentValue == i
        invariant aliases == OpenedTable(dataIDs[..i]) && revAliases == OpenedRev(dataIDs[..i])
      {
        assert dataIDs[..i + 1][..i] == dataIDs[..i];
        var a := aliasGenerator.Next();
        aliases := aliases[a := dataIDs[i]];
        revAliases := revAliases[dataIDs[i] := aliasGenerator.currentValue];
      }
      assert dataIDs[..|dataIDs|] == dataIDs;
      dataIDAliases, revDataIDAliases, upstreamInfos := aliases, revAliases, map[];
      dataIDAliasGenerator := aliasGenerator;
      upstreamInfoAliasGenerator := new AliasGenerator(0);
      upstreamInfoAckBuffer, dataIDAckBuffer, resultAckBuffer, chunkAckIDSequence := map[], map[], [], 0;
      view := Initial(dataIDs);
    }

    method AssignDataIDAlias(ids: seq<DataID>, ghost i: nat) returns (res: map<U32, DataID>)
      requires Valid() && Enabled(view, AssignIDs(i)) && ids == FilterDataID(view.readers[i].chunk.groups)
      modifies this`dataIDAliases, this`revDataIDAliases, this`view, dataIDAliasGenerator
      ensures Valid() && view == Step(old(view), AssignIDs(i)) && res == view.ids.hands[i]
    {
      ghost var total := view.ids.total;
      res := AssignEach(ids, total);
      view := DoAssignIDs(view, i);
    }

    /** The loop of assignDataIDAlias; `total` is what the generator has given out so far. */
    method AssignEach(ids: seq<DataID>, ghost total: nat) returns (res: map<U32, DataID>)
      requires 0 <= dataIDAliasGenerator.currentValue <= MAX_UINT32
      modifies this`dataIDAliases, this`revDataIDAliases, dataIDAliasGenerator
      ensures var k := AssignAll(ids, old(Assigned(revDataIDAliases, dataIDAliasGenerator.currentValue, total, map[])));
        && dataIDAliasGenerator.currentValue == k.gen && revDataIDAliases == k.rev && res == k.added
        && dataIDAliases == old(dataIDAliases) + k.added
      ensures 0 <= dataIDAliasGenerator.currentValue <= MAX_UINT32
    {
      res := map[];
      ghost var start := Assigned(revDataIDAliases, dataIDAliasGenerator.currentValue, total, map[]);
      for k := 0 to |ids|
        invariant 0 <= dataIDAliasGenerator.currentValue <= MAX_UINT32
        invariant dataIDAliasGenerator.currentValue == AssignAll(ids[..k], start).gen
        invariant revDataIDAliases == AssignAll(ids[..k], start).rev
        invariant res == AssignAll(ids[..k], start).added
        invariant dataIDAliases == old(dataIDAliases) + res
      {
        assert ids[..k + 1][..k] == ids[..k];
        var id := ids[k];
        if id !in revDataIDAliases {
          var a := dataIDAliasGenerator.Next();
          dataIDAliases := dataIDAliases[a := id];
          revDataIDAliases := revDataIDAliases[id := a];
          res := res[a := id];
        }
      }
      assert ids[..|ids|] == ids;
    }

    /** The search of assignUpstreamInfoAlias; `order` is the order in which Go walks the map. */
    method KnowsPointer(info: Info, order: seq<U32>) returns (found: bool)
      requires Enumerates(order, upstreamInfos.Keys)
      ensures found == SamePointer(upstreamInfos, info.ptr)
    {
      for k := 0 to |order|
        invariant forall l :: 0 <= l < k ==> upstreamInfos[order[l]].ptr != info.ptr
      {
        if upstreamInfos[order[k]].ptr == info.ptr { return true; }
      }
      return false;
    }

    method AssignUpstreamInfoAlias(info: Info, order: seq<U32>, ghost i: nat) returns (res: map<U32, Info>)
      requires Valid() && Enabled(view, AssignInfo(i)) && view.readers[i].chunk.upstream == GivenInfo(info)
      requires Enumerates(order, upstreamInfos.Keys) && view.infos.hands[i] == map[]
      modifies this`upstreamInfos, this`view, upstreamInfoAliasGenerator
      ensures Valid() && view == Step(old(view), AssignInfo(i)) && res == view.infos.hands[i]
    {
      var found := KnowsPointer(info, order);
      if found {
        view := DoAssignInfo(view, i);
        return map[];
      }
      res := AddUpstreamInfo(info);
      view := DoAssignInfo(view, i);
    }

    method AddUpstreamInfo(info: Info) returns (res: map<U32, Info>)
      requires 0 <= upstreamInfoAliasGenerator.currentValue <= MAX_UINT32
      modifies this`upstreamInfos, upstreamInfoAliasGenerator
      ensures upstreamInfoAliasGenerator.currentValue == L.NextAlias(old(upstreamInfoAliasGenerator.currentValue))
      ensures 0 <= upstreamInfoAliasGenerator.currentValue <= MAX_UINT32
      ensures res == map[upstreamInfoAliasGenerator.currentValue := info] && upstreamInfos == old(upstreamInfos) + res
    {
      var a := upstreamInfoAliasGenerator.Next();
      upstreamInfos := upstreamInfos[a := info];
      res := map[a := info];
    }

    method PushUpstreamInfoAckBuffer(m: map<U32, Info>, ghost i: nat)
      requires Valid() && Enabled(view, PushInfo(i)) && m == view.infos.hands[i]
      modifies this`upstreamInfoAckBuffer, this`view
      ensures Valid() && view == Step(old(view), PushInfo(i))
    {
      upstreamInfoAckBuffer := upstreamInfoAckBuffer + m;
      view := DoPushInfo(view, i);
    }

    method PushDataIDAckBuffer(m: map<U32, DataID>, ghost i: nat)
      requires Valid() && Enabled(view, PushIDs(i)) && m == view.ids.hands[i]
      modifies this`dataIDAckBuffer, this`view
      ensures Valid() && view == Step(old(view), PushIDs(i))
    {
      dataIDAckBuffer := dataIDAckBuffer + m;
      view := DoPushIDs(view, i);
    }

    method PushResultAckBuffer(res: Result, ghost i: nat)
      requires Valid() && Enabled(view, PushResult(i))
      requires res == Result(view.readers[i].chunk.sequenceNumber, view.readers[i].phase.info.streamID)
      modifies this`resultAckBuffer, this`view
      ensures Valid() && view == Step(old(view), PushResult(i))
    {
      resultAckBuffer := resultAckBuffer + [res];
      view := DoPushResult(view, i);
    }

    function LookupUpstream(ref: InfoRef): Option<Info>
      reads this`upstreamInfos
    {
      match ref
      case GivenInfo(info) => Some(info)
      case InfoAlias(a) => if a in upstreamInfos then Some(upstreamInfos[a]) else None
    }

    /** The first critical section of wireToDownstreamChunk; without one for an info given in full. */
    method FindUpstreamInfo(ref: InfoRef, ghost i: nat) returns (info: Option<Info>)
      requires Valid() && Enabled(view, LookupInfo(i)) && view.readers[i].chunk.upstream == ref
      modifies this`view
      ensures Valid() && view == Step(old(view), LookupInfo(i))
      ensures info == LookupUpstream(ref)
    {
      info := LookupUpstream(ref);
      view := DoLookupInfo(view, i);
    }

    /** The critical section of wireToDownstreamChunk for the next group of the chunk. */
    method FindDataID(w: WireGroup, ghost i: nat) returns (id: Option<DataID>)
      requires Valid() && Enabled(view, LookupID(i))
      requires w == view.readers[i].chunk.groups[|view.readers[i].phase.done|]
      modifies this`view
      ensures Valid() && view == Step(old(view), LookupID(i))
      ensures id == ResolveRef(w.ref, dataIDAliases)
    {
      match w.ref {
      case ByID(given) => id := Some(given);
      case ByAlias(a) => id := if a in dataIDAliases then Some(dataIDAliases[a]) else None;
      }
      view := DoLookupID(view, i);
    }

    /** wireToDownstreamChunk with nothing between its critical sections. */
    method WireToDownstreamChunk(dps: Chunk, ghost i: nat) returns (groups: Option<seq<Group>>, info: Option<Info>)
      requires Valid() && Enabled(view, LookupInfo(i)) && dps == view.readers[i].chunk
      modifies this`view
      ensures Valid()
      ensures info == LookupUpstream(dps.upstream)
      ensures groups == if info.None? then None else Resolve(dps.groups, dataIDAliases)
      ensures At(view, i) && view.readers[i].chunk == dps
      ensures groups.Some? ==> |groups.value| == |dps.groups|
      ensures view.readers[i].phase == if groups.None? then Failed else Converting(info.value, groups.value)
    {
      info := FindUpstreamInfo(dps.upstream, i);
      if info.None? { return None, None; }
      groups := ConvertGroups(dps, info.value, i);
    }

    method ConvertGroups(dps: Chunk, info: Info, ghost i: nat) returns (groups: Option<seq<Group>>)
      requires Valid() && At(view, i) && view.readers[i] == Reader(dps, Converting(info, []))
      modifies this`view
      ensures Valid() && At(view, i)
      ensures groups.Some? ==> |groups.value| == |dps.groups|
      ensures groups == Resolve(dps.groups, dataIDAliases)
      ensures i < |view.readers| && view.readers[i].chunk == dps
      ensures view.readers[i].phase == if groups.None? then Failed else Converting(info, groups.value)
    {
      var dpgs := [];
      for k := 0 to |dps.groups|
        invariant Valid() && At(view, i) && view.readers[i] == Reader(dps, Converting(info, dpgs)) && |dpgs| == k
        invariant Resolve(dps.groups[..k], dataIDAliases) == Some(dpgs)
      {
        assert dps.groups[..k + 1][..k] == dps.groups[..k];
        var id := FindDataID(dps.groups[k], i);
        if id.None? {
          NoneStaysNone(dps.groups, k + 1, dataIDAliases);
          return None;
        }
        dpgs := dpgs + [Group(id.value, dps.groups[k].points)];
      }
      assert dps.groups[..|dps.groups|] == dps.groups;
      groups := Some(dpgs);
    }

    /** processUpstreamAlias: only a chunk that gives its info in full has anything to announce. */
    method ProcessUpstreamAlias(ref: InfoRef, order: seq<U32>, ghost i: nat)
      requires Valid() && Enabled(view, AssignInfo(i)) && view.readers[i].chunk.upstream == ref
      requires Enumerates(order, upstreamInfos.Keys) && view.infos.hands[i] == map[]
      modifies this`upstreamInfos, this`upstreamInfoAckBuffer, this`view, upstreamInfoAliasGenerator
      ensures Valid() && view == DoPushInfo(DoAssignInfo(old(view), i), i)
    {
      match ref {
      case GivenInfo(info) =>
        var m := AssignUpstreamInfoAlias(info, order, i);
        PushUpstreamInfoAckBuffer(m, i);
      case InfoAlias(_) =>
        view := DoAssignInfo(view, i);
        PushUpstreamInfoAckBuffer(map[], i);
      }
    }

    method ProcessDataPoints(gs: seq<WireGroup>, ghost i: nat)
      requires Valid() && Enabled(view, AssignIDs(i)) && view.readers[i].chunk.groups == gs
      modifies this`dataIDAliases, this`revDataIDAliases, this`dataIDAckBuffer, this`view, dataIDAliasGenerator
      ensures Valid() && view == DoPushIDs(DoAssignIDs(old(view), i), i)
    {
      var ids := FilterIDs(gs);
      var m := AssignDataIDAlias(ids, i);
      PushDataIDAckBuffer(m, i);
    }

    /** The read takes its chunk from dataPointsCh. */
    ghost method TakeChunk(dps: Chunk) returns (i: nat)
      requires Valid() && HandsInv(view)
      modifies this`view
      ensures Valid() && Enabled(view, AssignInfo(i)) && view.readers[i].chunk == dps
      ensures view.infos.hands[i] == map[] && i == |old(view).readers| && view == DoReceive(old(view), dps)
    {
      i := |view.readers|;
      HandsReceive(view, dps);
      view := DoReceive(view, dps);
    }

    /** Both announcements of a read. */
    method Announce(dps: Chunk, order: seq<U32>, ghost i: nat)
      requires Valid() && Enabled(view, AssignInfo(i)) && view.readers[i].chunk == dps
      requires Enumerates(order, upstreamInfos.Keys) && view.infos.hands[i] == map[]
      modifies this`upstreamInfos, this`upstreamInfoAckBuffer, this`dataIDAliases, this`revDataIDAliases
      modifies this`dataIDAckBuffer, this`view, dataIDAliasGenerator, upstreamInfoAliasGenerator
      ensures Valid() && Enabled(view, LookupInfo(i)) && view.readers[i].chunk == dps
      ensures view == DoPushIDs(DoAssignIDs(DoPushInfo(DoAssignInfo(old(view), i), i), i), i)
    {
      ProcessUpstreamAlias(dps.upstream, order, i);
      ProcessDataPoints(dps.groups, i);
    }

    /** ReadDataPoints with nothing in between: announce the info, announce the data IDs, convert, and
        only then record a result, for a successful read. */
    method ReadDataPoints(dps: Chunk, order: seq<U32>) returns (groups: Option<seq<Group>>, info: Option<Info>)
      requires Valid() && HandsInv(view) && Enumerates(order, upstreamInfos.Keys)
      modifies this, dataIDAliasGenerator, upstreamInfoAliasGenerator
      ensures Valid()
      ensures info == LookupUpstream(dps.upstream)
      ensures groups == if info.None? then None else Resolve(dps.groups, dataIDAliases)
      ensures resultAckBuffer == old(resultAckBuffer) +
        if groups.Some? then [Result(dps.sequenceNumber, info.value.streamID)] else []
    {
      ghost var i := TakeChunk(dps);
      Announce(dps, order, i);
      groups, info := Finish(dps, i);
    }

    /** The conversion, and the result of a successful one. */
    method Finish(dps: Chunk, ghost i: nat) returns (groups: Option<seq<Group>>, info: Option<Info>)
      requires Valid() && Enabled(view, LookupInfo(i)) && dps == view.readers[i].chunk
      modifies this`view, this`resultAckBuffer
      ensures Valid()
      ensures info == LookupUpstream(dps.upstream)
      ensures groups == if info.None? then None else Resolve(dps.groups, dataIDAliases)
      ensures resultAckBuffer == old(resultAckBuffer) +
        if groups.Some? then [Result(dps.sequenceNumber, info.value.streamID)] else []
    {
      groups, info := WireToDownstreamChunk(dps, i);
      if groups.Some? {
        PushResultAckBuffer(Result(dps.sequenceNumber, info.value.streamID), i);
      }
    }

    method FlushAck() returns (ack: Option<Ack>)
      requires Valid()
      modifies this`upstreamInfoAckBuffer, this`dataIDAckBuffer, this`resultAckBuffer, this`chunkAckIDSequence
      modifies this`view
      ensures Valid() && view == Step(old(view), Action.FlushAck)
      ensures view.acks == old(view).acks + (if ack.Some? then [ack.value] else [])
      ensures upstreamInfoAckBuffer == map[] && dataIDAckBuffer == map[] && resultAckBuffer == []
      ensures ack.None? <==>
        old(upstreamInfoAckBuffer) == map[] && old(dataIDAckBuffer) == map[] && old(resultAckBuffer) == []
      ensures ack.Some? ==>
        && ack.value.infos == old(upstreamInfoAckBuffer) && ack.value.ids == old(dataIDAckBuffer)
        && ack.value.results == old(resultAckBuffer)
    {
      assert dataIDAckBuffer == map[] <==> |dataIDAckBuffer| == 0;
      assert upstreamInfoAckBuffer == map[] <==> |upstreamInfoAckBuffer| == 0;
      if |dataIDAckBuffer| == 0 && |resultAckBuffer| == 0 && |upstreamInfoAckBuffer| == 0 {
        return None;
      }
      chunkAckIDSequence := Inc32(chunkAckIDSequence);
      ack := Some(Ack(chunkAckIDSequence, upstreamInfoAckBuffer, dataIDAckBuffer, resultAckBuffer));
      upstreamInfoAckBuffer, dataIDAckBuffer, resultAckBuffer := map[], map[], [];
      view := DoFlush(view);
    }
  }

  lemma {:induction false} NoneStaysNone(ws: seq<WireGroup>, n: nat, t: FwdTable)
    requires n <= |ws| && Resolve(ws[..n], t) == None
    ensures Resolve(ws, t) == None
    decreases |ws| - n
  {
    if n < |ws| {
      assert ws[..n + 1][..n] == ws[..n];
      NoneStaysNone(ws, n + 1, t);
    } else {
      assert ws[..n] == ws;
    }
  }
}
