/** Data point groups, alias compression and alias resolution (iscp/data.go). */
module DataPoints {
  import opened Prelude

  datatype DataID = DataID(name: string, typ: string)
  datatype DataPoint = DataPoint(elapsed: int, payload: seq<U8>)
  datatype Group = Group(id: DataID, points: seq<DataPoint>)

  /** A data ID on the wire: its alias when one is known, the ID itself otherwise. */
  datatype Ref = ByAlias(alias: U32) | ByID(id: DataID)
  datatype WireGroup = WireGroup(ref: Ref, points: seq<DataPoint>)

  /** All points written for `id`, in order. */
  function PointsOf(gs: seq<Group>, id: DataID): seq<DataPoint> {
    if gs == [] then []
    else
      var g := gs[|gs| - 1];
      PointsOf(gs[..|gs| - 1], id) + (if g.id == id then g.points else [])
  }

  function CountPoints(gs: seq<Group>): nat {
    if gs == [] then 0 else CountPoints(gs[..|gs| - 1]) + |gs[|gs| - 1].points|
  }

  function PayloadSize(ps: seq<DataPoint>): nat {
    if ps == [] then 0 else PayloadSize(ps[..|ps| - 1]) + |ps[|ps| - 1].payload|
  }

  function StripPoints(ps: seq<DataPoint>): seq<DataPoint> {
    seq(|ps|, i requires 0 <= i < |ps| => DataPoint(ps[i].elapsed, []))
  }

  function WithoutPayload(gs: seq<Group>): seq<Group> {
    seq(|gs|, i requires 0 <= i < |gs| => Group(gs[i].id, StripPoints(gs[i].points)))
  }

  // ---- alias tables ----

  type RevTable = map<DataID, U32>
  type FwdTable = map<U32, DataID>

  /** Every ID with an alias is what its alias stands for. */
  ghost predicate Inverse(rev: RevTable, fwd: FwdTable) {
    forall id :: id in rev ==> rev[id] in fwd && fwd[rev[id]] == id
  }

  function RefOf(id: DataID, rev: RevTable): Ref {
    if id in rev then ByAlias(rev[id]) else ByID(id)
  }

  function Compress(gs: seq<Group>, rev: RevTable): (ws: seq<WireGroup>) {
    seq(|gs|, i requires 0 <= i < |gs| => WireGroup(RefOf(gs[i].id, rev), gs[i].points))
  }

  /** The IDs sent in full, each once, in order of first occurrence. */
  function UnaliasedIDs(gs: seq<Group>, rev: RevTable): seq<DataID> {
    if gs == [] then []
    else
      var ids := UnaliasedIDs(gs[..|gs| - 1], rev);
      var id := gs[|gs| - 1].id;
      if id in rev || id in ids then ids else ids + [id]
  }

  function ResolveRef(ref: Ref, fwd: FwdTable): Option<DataID> {
    match ref
    case ByID(id) => Some(id)
    case ByAlias(a) => if a in fwd then Some(fwd[a]) else None
  }

  /** What a receiver holding `fwd` reads, or None when an alias is unknown. */
  function Resolve(ws: seq<WireGroup>, fwd: FwdTable): Option<seq<Group>> {
    if ws == [] then Some([])
    else
      var w := ws[|ws| - 1];
      match Resolve(ws[..|ws| - 1], fwd)
      case None => None
      case Some(gs) =>
        match ResolveRef(w.ref, fwd)
        case None => None
        case Some(id) => Some(gs + [Group(id, w.points)])
  }

  /** Compression loses nothing: the receiver reads back the groups that were sent. */
  lemma {:induction false} CompressResolves(gs: seq<Group>, rev: RevTable, fwd: FwdTable)
    requires Inverse(rev, fwd)
    ensures Resolve(Compress(gs, rev), fwd) == Some(gs)
  {
    if gs != [] {
      var n := |gs| - 1;
      CompressResolves(gs[..n], rev, fwd);
      assert Compress(gs, rev)[..n] == Compress(gs[..n], rev);
      assert gs == gs[..n] + [gs[n]];
    }
  }

  ghost predicate ReadsBack(gs: seq<Group>, rev: RevTable, fwd: FwdTable) {
    Resolve(Compress(gs, rev), fwd) == Some(gs)
  }

  /** All chunks are read back exactly when the tables are inverse: an ID whose alias means something
      else, or nothing, is already misread in a chunk of its own. */
  lemma AllReadBackIffInverse(rev: RevTable, fwd: FwdTable)
    ensures (forall gs :: ReadsBack(gs, rev, fwd)) <==> Inverse(rev, fwd)
  {
    if Inverse(rev, fwd) {
      forall gs ensures ReadsBack(gs, rev, fwd) { CompressResolves(gs, rev, fwd); }
    } else {
      var id :| id in rev && !(rev[id] in fwd && fwd[rev[id]] == id);
      var ws := Compress([Group(id, [])], rev);
      assert ws[..0] == [] && ws[0].ref == ByAlias(rev[id]);
      assert !ReadsBack([Group(id, [])], rev, fwd);
    }
  }

  /** Position of the first group for `id`, or |gs| when there is none. */
  function FirstIndex(gs: seq<Group>, id: DataID): (k: nat)
    ensures k <= |gs|
    ensures k < |gs| ==> gs[k].id == id
    ensures forall i :: 0 <= i < k ==> gs[i].id != id
  {
    if gs == [] then 0
    else
      var k := FirstIndex(gs[..|gs| - 1], id);
      if k < |gs| - 1 || gs[|gs| - 1].id == id then k else |gs|
  }

  ghost predicate ByFirstOccurrence(gs: seq<Group>, ids: seq<DataID>) {
    forall i, j :: 0 <= i < j < |ids| ==> FirstIndex(gs, ids[i]) < FirstIndex(gs, ids[j])
  }

  /** The ID list of a chunk is the set of un-aliased IDs, without repeats, by first occurrence. */
  lemma {:induction false} UnaliasedIDsAreFirstOccurrences(gs: seq<Group>, rev: RevTable)
    ensures forall id :: id in UnaliasedIDs(gs, rev) <==> id !in rev && FirstIndex(gs, id) < |gs|
    ensures ByFirstOccurrence(gs, UnaliasedIDs(gs, rev))
  {
    if gs != [] {
      var n := |gs| - 1;
      UnaliasedIDsAreFirstOccurrences(gs[..n], rev);
      var known, ids := UnaliasedIDs(gs[..n], rev), UnaliasedIDs(gs, rev);
      forall i, j | 0 <= i < j < |ids| ensures FirstIndex(gs, ids[i]) < FirstIndex(gs, ids[j]) {
        assert ids[i] == known[i] && ids[i] in known;
        assert j < |known| ==> ids[j] == known[j] && ids[j] in known;
      }
    }
  }

  /** The ID list of a chunk lists exactly the IDs its groups give in full; every other group goes by the
      alias of its ID. */
  lemma ListedIDsAreThoseInFull(gs: seq<Group>, rev: RevTable)
    ensures forall id :: id in UnaliasedIDs(gs, rev) <==>
      exists i :: 0 <= i < |gs| && Compress(gs, rev)[i].ref == ByID(id)
    ensures forall i :: 0 <= i < |gs| && Compress(gs, rev)[i].ref.ByAlias? ==>
      gs[i].id in rev && rev[gs[i].id] == Compress(gs, rev)[i].ref.alias
  {
    UnaliasedIDsAreFirstOccurrences(gs, rev);
    forall id ensures id in UnaliasedIDs(gs, rev) <==>
      exists i :: 0 <= i < |gs| && Compress(gs, rev)[i].ref == ByID(id)
    {
      var k := FirstIndex(gs, id);
      if k < |gs| && id !in rev { assert Compress(gs, rev)[k].ref == ByID(id); }
    }
  }

  /** toUpstreamDataPointGroups: one pass over the groups with a set of IDs already listed. */
  method ToUpstreamDataPointGroups(gs: seq<Group>, rev: RevTable)
    returns (res: seq<WireGroup>, resIDs: seq<DataID>)
    ensures res == Compress(gs, rev)
    ensures resIDs == UnaliasedIDs(gs, rev)
  {
    res, resIDs := [], [];
    var alreadyAppended: set<DataID> := {};
    for i := 0 to |gs|
      invariant res == Compress(gs[..i], rev)
      invariant resIDs == UnaliasedIDs(gs[..i], rev)
      invariant forall id :: id in alreadyAppended <==> id in resIDs
    {
      assert gs[..i + 1][..i] == gs[..i];
      var dpg := gs[i];
      var ref := ByID(dpg.id);
      if dpg.id in rev {
        ref := ByAlias(rev[dpg.id]);
      } else if dpg.id !in alreadyAppended {
        resIDs := resIDs + [dpg.id];
        alreadyAppended := alreadyAppended + {dpg.id};
      }
      res := res + [WireGroup(ref, dpg.points)];
    }
    assert gs[..|gs|] == gs;
  }

  /** OpenUpstream reverses the server's table, whichever way its map iteration goes. */
  function Reversed(fwd: FwdTable, order: seq<U32>): RevTable
    requires forall a :: a in order ==> a in fwd
  {
    if order == [] then map[]
    else
      assert forall a :: a in order[..|order| - 1] ==> a in order;
      var last := order[|order| - 1];
      assert last in order;
      Reversed(fwd, order[..|order| - 1])[fwd[last] := last]
  }

  lemma {:induction false} ReversedIsInverse(fwd: FwdTable, order: seq<U32>)
    requires Enumerates(order, fwd.Keys)
    ensures Inverse(Reversed(fwd, order), fwd)
    ensures forall a :: a in fwd ==> fwd[a] in Reversed(fwd, order)
  {
    ReversedPrefix(fwd, order, |order|);
    assert order[..|order|] == order;
  }

  lemma {:induction false} ReversedPrefix(fwd: FwdTable, order: seq<U32>, n: nat)
    requires n <= |order| && forall a :: a in order ==> a in fwd
    ensures Inverse(Reversed(fwd, order[..n]), fwd)
    ensures forall a :: a in order[..n] ==> fwd[a] in Reversed(fwd, order[..n])
  {
    if n > 0 {
      ReversedPrefix(fwd, order, n - 1);
      assert order[..n][..n - 1] == order[..n - 1];
      assert order[..n] == order[..n - 1] + [order[n - 1]];
    }
  }

  // ---- learning aliases ----

  datatype Tables = Tables(rev: RevTable, fwd: FwdTable)

  /** One entry of an acknowledgement's alias map: the first alias learnt for an ID is kept. */
  function Bind(t: Tables, alias: U32, id: DataID): Tables {
    if id in t.rev then t else Tables(t.rev[id := alias], t.fwd[alias := id])
  }

  /** The server gives an alias that already stands for some ID to a further ID. */
  ghost predicate Rebinds(t: Tables, alias: U32, id: DataID) {
    id !in t.rev && exists other :: other in t.rev && t.rev[other] == alias
  }

  /** A binding keeps the tables inverse exactly when it reuses no alias. */
  lemma BindKeepsInverseIff(t: Tables, alias: U32, id: DataID)
    requires Inverse(t.rev, t.fwd)
    ensures var t' := Bind(t, alias, id); Inverse(t'.rev, t'.fwd) <==> !Rebinds(t, alias, id)
  {
    var t' := Bind(t, alias, id);
    if Rebinds(t, alias, id) {
      var other :| other in t.rev && t.rev[other] == alias;
      assert t'.rev[other] == alias && t'.fwd[alias] == id && other != id;
    } else if id !in t.rev {
      forall x | x in t'.rev ensures t'.rev[x] in t'.fwd && t'.fwd[t'.rev[x]] == x {
        if x != id { assert t.rev[x] != alias; }
      }
    }
  }

  /** The whole alias map of one acknowledgement, in one iteration order. */
  function BindAll(t: Tables, batch: seq<(U32, DataID)>): Tables {
    if batch == [] then t
    else
      var last := batch[|batch| - 1];
      Bind(BindAll(t, batch[..|batch| - 1]), last.0, last.1)
  }

  ghost predicate RebindsSome(t: Tables, batch: seq<(U32, DataID)>) {
    exists k :: 0 <= k < |batch| && Rebinds(BindAll(t, batch[..k]), batch[k].0, batch[k].1)
  }

  lemma BindAllFirst(t: Tables, batch: seq<(U32, DataID)>, n: nat)
    requires |batch| == n + 1
    ensures RebindsSome(t, batch) <==>
            RebindsSome(t, batch[..n]) || Rebinds(BindAll(t, batch[..n]), batch[n].0, batch[n].1)
  {
    assert forall k :: 0 <= k <= n ==> batch[..n][..k] == batch[..k];
    if RebindsSome(t, batch) {
      var k :| 0 <= k < |batch| && Rebinds(BindAll(t, batch[..k]), batch[k].0, batch[k].1);
      assert k < n ==> batch[..n][k] == batch[k];
    }
    if RebindsSome(t, batch[..n]) {
      var k :| 0 <= k < n && Rebinds(BindAll(t, batch[..n][..k]), batch[..n][k].0, batch[..n][k].1);
      assert batch[..n][k] == batch[k];
    }
  }

  lemma {:induction false} BindAllGrows(t: Tables, batch: seq<(U32, DataID)>)
    ensures forall id :: id in t.rev ==> id in BindAll(t, batch).rev && BindAll(t, batch).rev[id] == t.rev[id]
  {
    if batch != [] { BindAllGrows(t, batch[..|batch| - 1]); }
  }

  /** An ID whose alias was taken over never gets it back. */
  lemma BrokenStaysBroken(t: Tables, alias: U32, id: DataID)
    requires !Inverse(t.rev, t.fwd)
    ensures var t' := Bind(t, alias, id); !Inverse(t'.rev, t'.fwd)
  {
    var x :| x in t.rev && !(t.rev[x] in t.fwd && t.fwd[t.rev[x]] == x);
    var t' := Bind(t, alias, id);
    assert x in t'.rev && !(t'.rev[x] in t'.fwd && t'.fwd[t'.rev[x]] == x);
  }

  /** After any batch the tables are inverse exactly when no entry of it reused an alias. */
  lemma {:induction false} BindAllKeepsInverseIff(t: Tables, batch: seq<(U32, DataID)>)
    requires Inverse(t.rev, t.fwd)
    ensures Inverse(BindAll(t, batch).rev, BindAll(t, batch).fwd) <==> !RebindsSome(t, batch)
  {
    if batch != [] {
      var n := |batch| - 1;
      BindAllKeepsInverseIff(t, batch[..n]);
      BindAllFirst(t, batch, n);
      var mid := BindAll(t, batch[..n]);
      if Inverse(mid.rev, mid.fwd) {
        BindKeepsInverseIff(mid, batch[n].0, batch[n].1);
      } else {
        BrokenStaysBroken(mid, batch[n].0, batch[n].1);
      }
    }
  }

  /** The first place of `id` in the batch, or |batch|. */
  function FirstEntry(batch: seq<(U32, DataID)>, id: DataID): (k: nat)
    ensures k <= |batch|
    ensures k < |batch| ==> batch[k].1 == id
    ensures forall j :: 0 <= j < k ==> batch[j].1 != id
  {
    if batch == [] then 0
    else
      var k := FirstEntry(batch[..|batch| - 1], id);
      if k < |batch| - 1 || batch[|batch| - 1].1 == id then k else |batch|
  }

  /** After a batch an ID has an alias exactly when it had one or the batch gives it one: the alias it had,
      or else the first one given. */
  lemma {:induction false} BindAllLearns(t: Tables, batch: seq<(U32, DataID)>, id: DataID)
    ensures var rev := BindAll(t, batch).rev; var k := FirstEntry(batch, id);
      && (id in rev <==> id in t.rev || k < |batch|)
      && (id in rev ==> rev[id] == if id in t.rev then t.rev[id] else batch[k].0)
  {
    if batch != [] { BindAllLearns(t, batch[..|batch| - 1], id); }
  }

  /** For instance, right after opening: the server gives an alias that stands for one ID to another. */
  lemma RebindInstance(alias: U32, a: DataID, b: DataID)
    requires a != b
    ensures Inverse(map[a := alias], map[alias := a])
    ensures var t := BindAll(Tables(map[a := alias], map[alias := a]), [(alias, b)]); !Inverse(t.rev, t.fwd)
  {
    var t, batch := Tables(map[a := alias], map[alias := a]), [(alias, b)];
    BindAllKeepsInverseIff(t, batch);
    assert t.rev[a] == alias && Rebinds(BindAll(t, batch[..0]), batch[0].0, batch[0].1);
  }

  lemma {:induction false} RebindsForever(t: Tables, batch: seq<(U32, DataID)>)
    requires !Inverse(t.rev, t.fwd)
    ensures !Inverse(BindAll(t, batch).rev, BindAll(t, batch).fwd)
  {
    if batch != [] {
      var n := |batch| - 1;
      RebindsForever(t, batch[..n]);
      BrokenStaysBroken(BindAll(t, batch[..n]), batch[n].0, batch[n].1);
    }
  }
}
