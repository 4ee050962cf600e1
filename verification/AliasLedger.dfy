/**
 Aliases a downstream hands out and announces to the server (iscp/downstream.go). Data IDs and
 upstream infos are handled the same way: a read assigns fresh aliases under one lock, keeps them
 in hand, adds them to an ack buffer under a second lock, and flushAck swaps the buffer into an
 ack. A ledger follows every alias through these places.
 */
module AliasLedger {
  import opened Prelude

  datatype Ledger<V> = Ledger(
    table: map<U32, V>,        // every alias and what it stands for
    first: U32,                // generator value when the stream was opened
    gen: U32,                  // AliasGenerator.currentValue
    total: nat,                // how often the generator was asked, without wrap-around
    born: seq<map<U32, V>>,    // per read, all it was assigned
    hands: seq<map<U32, V>>,   // per read, assigned and not yet in the ack buffer
    buffer: map<U32, V>,       // the ack buffer
    sent: seq<map<U32, V>>)    // per ack, what it announced

  /** AliasGenerator.Next: one atomic increment, repeated when it wraps to 0. */
  function NextAlias(n: U32): U32 { if n == MAX_UINT32 then 1 else n + 1 }

  function Opened<V>(table: map<U32, V>, n: nat): Ledger<V> { Ledger(table, n, n, n, [], [], map[], []) }

  function NewRead<V>(l: Ledger<V>): Ledger<V> { l.(born := l.born + [map[]], hands := l.hands + [map[]]) }

  /** Read i keeps what it has just been assigned; `gen` and `total` describe the generator afterwards. */
  function Assign<V>(l: Ledger<V>, i: nat, m: map<U32, V>, gen: U32, total: nat): Ledger<V>
    requires i < |l.hands| && i < |l.born|
  {
    l.(table := l.table + m, gen := gen, total := total, born := l.born[i := m], hands := l.hands[i := m])
  }

  function Push<V>(l: Ledger<V>, i: nat): Ledger<V>
    requires i < |l.hands|
  {
    l.(buffer := l.buffer + l.hands[i], hands := l.hands[i := map[]])
  }

  function Flush<V>(l: Ledger<V>): Ledger<V> { l.(sent := l.sent + [l.buffer], buffer := map[]) }

  // ---- where aliases are ----

  /** Aliases in use are 1 .. gen, and those assigned since the open start after `first`. */
  ghost predicate InRange<V(!new)>(l: Ledger<V>) {
    && 0 <= l.first <= l.gen <= MAX_UINT32 && l.gen == l.total
    && |l.born| == |l.hands|
    && (forall a :: a in l.table ==> 1 <= a <= l.gen)
  }

  /** Wherever an alias is, it is a post-open alias and still means what the table says. */
  ghost predicate Meant<V(!new)>(l: Ledger<V>, m: map<U32, V>) {
    forall a :: a in m ==> l.first < a && a in l.table && l.table[a] == m[a]
  }

  ghost predicate AllMeant<V(!new)>(l: Ledger<V>) {
    && (forall i :: 0 <= i < |l.hands| ==> Meant(l, l.hands[i]))
    && Meant(l, l.buffer)
    && (forall j :: 0 <= j < |l.sent| ==> Meant(l, l.sent[j]))
  }

  /** No alias is in two places. */
  ghost predicate Apart<V(!new)>(l: Ledger<V>) {
    && (forall i, j, a :: 0 <= i < j < |l.hands| && a in l.hands[i] ==> a !in l.hands[j])
    && (forall i, a :: 0 <= i < |l.hands| && a in l.hands[i] ==> a !in l.buffer)
    && (forall i, j, a :: 0 <= i < |l.hands| && 0 <= j < |l.sent| && a in l.hands[i] ==> a !in l.sent[j])
    && (forall j, a :: 0 <= j < |l.sent| && a in l.sent[j] ==> a !in l.buffer)
    && (forall i, j, a :: 0 <= i < j < |l.sent| && a in l.sent[i] ==> a !in l.sent[j])
  }

  ghost predicate Announced<V(!new)>(l: Ledger<V>, a: U32) {
    exists j :: 0 <= j < |l.sent| && a in l.sent[j]
  }

  /** What read i was assigned is still in its hand, buffered, or announced. */
  ghost predicate Traced<V(!new)>(l: Ledger<V>) {
    forall i, a :: 0 <= i < |l.born| && i < |l.hands| && a in l.born[i] ==>
      a in l.hands[i] || a in l.buffer || Announced(l, a)
  }

  /** Every alias assigned since the open was assigned to some read. */
  ghost predicate Born<V(!new)>(l: Ledger<V>, a: U32) {
    exists i :: 0 <= i < |l.born| && a in l.born[i]
  }

  ghost predicate AllBorn<V(!new)>(l: Ledger<V>) {
    && (forall a :: l.first < a <= l.gen ==> Born(l, a))
    && (forall i, a :: 0 <= i < |l.born| && a in l.born[i] ==> l.first < a <= l.gen)
  }

  ghost predicate Inv<V(!new)>(l: Ledger<V>) {
    InRange(l) && AllMeant(l) && Apart(l) && Traced(l) && AllBorn(l)
  }

  /** The assigned map holds exactly the next aliases, before the generator wraps. */
  ghost predicate Fresh<V(!new)>(l: Ledger<V>, m: map<U32, V>, gen: U32) {
    && l.gen <= gen <= MAX_UINT32
    && (forall a :: a in m <==> l.gen < a <= gen)
  }

  lemma OpenedInv<V(!new)>(table: map<U32, V>, n: nat)
    requires n <= MAX_UINT32 && forall a :: a in table ==> 1 <= a <= n
    ensures Inv(Opened(table, n))
  {}

  lemma NewReadInv<V(!new)>(l: Ledger<V>)
    requires Inv(l)
    ensures Inv(NewRead(l))
  {
    var l' := NewRead(l);
    forall a | l.first < a <= l.gen ensures Born(l', a) {
      assert Born(l, a);
      var i :| 0 <= i < |l.born| && a in l.born[i];
      assert a in l'.born[i];
    }
    SameAnnounced(l, l');
  }

  lemma SameAnnounced<V(!new)>(l: Ledger<V>, l': Ledger<V>)
    requires l.sent == l'.sent
    ensures forall a :: Announced(l, a) <==> Announced(l', a)
  {}

  lemma AssignInv<V(!new)>(l: Ledger<V>, i: nat, m: map<U32, V>, gen: U32)
    requires Inv(l) && i < |l.hands| && l.hands[i] == map[] && l.born[i] == map[]
    requires Fresh(l, m, gen)
    ensures Inv(Assign(l, i, m, gen, gen))
  {
    var l' := Assign(l, i, m, gen, gen);
    SameAnnounced(l, l');
    forall a | l.first < a <= gen ensures Born(l', a) {
      if a in m {
        assert a in l'.born[i];
      } else {
        assert Born(l, a);
        var k :| 0 <= k < |l.born| && a in l.born[k];
        assert a in l'.born[k];
      }
    }
  }

  lemma PushInv<V(!new)>(l: Ledger<V>, i: nat)
    requires Inv(l) && i < |l.hands|
    ensures Inv(Push(l, i))
  {
    var l' := Push(l, i);
    SameAnnounced(l, l');
    SameBorn(l, l');
  }

  lemma SameBorn<V(!new)>(l: Ledger<V>, l': Ledger<V>)
    requires l.born == l'.born
    ensures forall a :: Born(l, a) <==> Born(l', a)
  {}

  lemma FlushInv<V(!new)>(l: Ledger<V>)
    requires Inv(l)
    ensures Inv(Flush(l))
  {
    var l' := Flush(l);
    SameBorn(l, l');
    forall i, a | 0 <= i < |l.born| && a in l.born[i]
      ensures a in l'.hands[i] || a in l'.buffer || Announced(l', a)
    {
      if a in l.buffer { assert a in l'.sent[|l.sent|]; }
      if Announced(l, a) { var j :| 0 <= j < |l.sent| && a in l.sent[j]; assert a in l'.sent[j]; }
    }
  }

  // ---- aliases against results ----

  /** Result number p is in no ack before the one announcing `a`; counts[j] results left in the
      acks before ack j. */
  ghost predicate NotBefore<V(!new)>(l: Ledger<V>, counts: seq<int>, a: U32, p: int) {
    && (a in l.buffer ==> counts != [] && counts[|counts| - 1] <= p)
    && (forall j :: 0 <= j < |l.sent| && a in l.sent[j] ==> j < |counts| && counts[j] <= p)
  }

  /** The result of read i is result number pos[i] once it is pushed: it is not in an ack before the
      one announcing its aliases. */
  ghost predicate InTime<V(!new)>(l: Ledger<V>, counts: seq<int>, pos: seq<Option<int>>) {
    && |counts| == |l.sent| + 1 && |pos| == |l.born| == |l.hands|
    && (forall i, a :: 0 <= i < |pos| && pos[i].Some? && a in l.born[i] ==>
          a !in l.hands[i] && NotBefore(l, counts, a, pos[i].value))
  }

  lemma AssignInTime<V(!new)>(l: Ledger<V>, i: nat, m: map<U32, V>, gen: U32, total: nat,
    counts: seq<int>, pos: seq<Option<int>>)
    requires InTime(l, counts, pos) && i < |pos| && pos[i].None?
    ensures InTime(Assign(l, i, m, gen, total), counts, pos)
  {
    var l' := Assign(l, i, m, gen, total);
    forall k, a | 0 <= k < |pos| && pos[k].Some? && a in l'.born[k]
      ensures a !in l'.hands[k] && NotBefore(l', counts, a, pos[k].value)
    {
      assert a in l.born[k] && NotBefore(l, counts, a, pos[k].value);
    }
  }

  /** Needs that no finished read owns what read i holds. */
  lemma PushInTime<V(!new)>(l: Ledger<V>, i: nat, counts: seq<int>, pos: seq<Option<int>>)
    requires Inv(l) && InTime(l, counts, pos) && i < |pos| && pos[i].None?
    ensures InTime(Push(l, i), counts, pos)
  {
    var l' := Push(l, i);
    forall k, a | 0 <= k < |pos| && pos[k].Some? && a in l.born[k]
      ensures a !in l'.hands[k] && NotBefore(l', counts, a, pos[k].value)
    {
      assert NotBefore(l, counts, a, pos[k].value);
      assert a in l.buffer || Announced(l, a);
      assert a !in l.hands[i];
    }
  }

  lemma ResultInTime<V(!new)>(l: Ledger<V>, i: nat, p: int, counts: seq<int>, pos: seq<Option<int>>)
    requires InTime(l, counts, pos) && i < |pos| && l.hands[i] == map[]
    requires forall j :: 0 <= j < |counts| ==> counts[j] <= p
    ensures InTime(l, counts, pos[i := Some(p)])
  {
    var pos' := pos[i := Some(p)];
    forall k, a | 0 <= k < |pos'| && pos'[k].Some? && a in l.born[k]
      ensures a !in l.hands[k] && NotBefore(l, counts, a, pos'[k].value)
    {
      if k != i { assert NotBefore(l, counts, a, pos[k].value); }
    }
  }

  lemma FlushInTime<V(!new)>(l: Ledger<V>, n: int, counts: seq<int>, pos: seq<Option<int>>)
    requires InTime(l, counts, pos)
    ensures InTime(Flush(l), counts + [n], pos)
  {
    var l' := Flush(l);
    forall k, a | 0 <= k < |pos| && pos[k].Some? && a in l.born[k]
      ensures a !in l'.hands[k] && NotBefore(l', counts + [n], a, pos[k].value)
    {
      assert NotBefore(l, counts, a, pos[k].value);
    }
  }

  lemma NewReadInTime<V(!new)>(l: Ledger<V>, counts: seq<int>, pos: seq<Option<int>>)
    requires InTime(l, counts, pos)
    ensures InTime(NewRead(l), counts, pos + [None])
  {
    var l' := NewRead(l);
    forall k, a | 0 <= k < |pos| && pos[k].Some? && a in l'.born[k]
      ensures a !in l'.hands[k] && NotBefore(l', counts, a, pos[k].value)
    {
      assert NotBefore(l, counts, a, pos[k].value);
    }
  }

  // ---- what a read holds, by how far it is ----

  /** Reads pass their stages in order; the ledger's aliases are assigned on reaching stage k and
      pushed on leaving it. */
  ghost predicate Held<V(!new)>(l: Ledger<V>, stages: seq<int>, k: int) {
    && |stages| == |l.hands| == |l.born|
    && (forall i :: 0 <= i < |stages| ==>
          (stages[i] < k ==> l.born[i] == map[]) && (stages[i] != k ==> l.hands[i] == map[]))
  }

  lemma HeldMove<V(!new)>(l: Ledger<V>, stages: seq<int>, k: int, i: nat, stage: int)
    requires Held(l, stages, k) && i < |stages|
    requires stages[i] <= stage && (stages[i] == k ==> stage == k)
    ensures Held(l, stages[i := stage], k)
  {}

  lemma HeldAssign<V(!new)>(l: Ledger<V>, stages: seq<int>, k: int, i: nat, m: map<U32, V>, gen: U32, total: nat)
    requires Held(l, stages, k) && i < |stages|
    ensures Held(Assign(l, i, m, gen, total), stages[i := k], k)
  {}

  lemma HeldPush<V(!new)>(l: Ledger<V>, stages: seq<int>, k: int, i: nat)
    requires Held(l, stages, k) && i < |stages| && stages[i] == k
    ensures Held(Push(l, i), stages[i := k + 1], k)
  {}

  lemma HeldNewRead<V(!new)>(l: Ledger<V>, stages: seq<int>, k: int)
    requires Held(l, stages, k)
    ensures Held(NewRead(l), stages + [0], k)
  {}
}
