/**
 Matching responses to requests on one wire connection (wire/client_conn.go:775-806,
 wire/req_id_generator.go). Any number of sendRequest calls interleave with readRequestLoop; a step
 is one critical section on c.mu, one channel operation or one write. Calls are numbered in the
 order in which they took their request IDs.
 */
module RequestReply {
  import opened Prelude

  // ---- request IDs ----

  const HALF := 0x8000_0000

  /** atomic.AddUint32(&n, 2). */
  function NextID(n: U32): U32 { (n + 2) % 0x1_0000_0000 }

  /** The ID of the k-th request after `initial`. */
  function RequestID(initial: U32, k: nat): U32 { (initial + 2 * k) % 0x1_0000_0000 }

  class IDGenerator {
    var currentValue: U32

    constructor (initial: U32)
      ensures currentValue == initial
    {
      currentValue := initial;
    }

    method Next() returns (id: U32)
      requires 0 <= currentValue <= MAX_UINT32
      modifies this
      ensures id == old(currentValue) && currentValue == NextID(id) && 0 <= currentValue <= MAX_UINT32
    {
      currentValue := (currentValue + 2) % 0x1_0000_0000;
      id := (currentValue - 2) % 0x1_0000_0000;
    }
  }

  lemma RequestIDNext(initial: U32, k: nat)
    ensures NextID(RequestID(initial, k)) == RequestID(initial, k + 1)
  {}

  lemma ModEqual(a: int, b: int)
    requires 0 <= a - b < 0x1_0000_0000
    ensures a % 0x1_0000_0000 == b % 0x1_0000_0000 <==> a == b
  {}

  lemma ModShift(a: int)
    ensures (a + 0x1_0000_0000) % 0x1_0000_0000 == a % 0x1_0000_0000
  {}

  lemma ModParity(a: int)
    ensures a % 0x1_0000_0000 % 2 == a % 2
  {}

  lemma RequestIDsDiffer(initial: U32, i: nat, j: nat)
    requires i <= j < i + HALF
    ensures RequestID(initial, i) == RequestID(initial, j) <==> i == j
  {
    ModEqual(initial + 2 * j, initial + 2 * i);
  }

  lemma RequestIDsRepeat(initial: U32, i: nat)
    ensures RequestID(initial, i) == RequestID(initial, i + HALF)
  {
    ModShift(initial + 2 * i);
    assert initial + 2 * (i + HALF) == initial + 2 * i + 0x1_0000_0000;
  }

  lemma RequestIDParity(initial: U32, i: nat)
    ensures RequestID(initial, i) % 2 == initial % 2
  {
    ModParity(initial + 2 * i);
  }

  /** Any 2^31 consecutive request IDs are distinct, the next one repeats the first, and all keep the
      parity they started with. */
  lemma IDsAreDistinct(initial: U32, i: nat, j: nat)
    requires i <= j <= i + HALF
    ensures RequestID(initial, i) == RequestID(initial, j) <==> i == j || j == i + HALF
    ensures RequestID(initial, i) % 2 == initial % 2
  {
    RequestIDParity(initial, i);
    if j < i + HALF { RequestIDsDiffer(initial, i, j); } else { RequestIDsRepeat(initial, i); }
  }

  // ---- calls and the reading loop ----

  /** A response; n tells responses apart. */
  datatype Response = Response(id: U32, n: int)

  datatype Phase =
    | HasID              // took a request ID
    | Registered         // its channel is, or was, in replyCh
    | Failed             // the write failed or a context was done
    | Answered(r: Response)

  /** `reply` is the call's one-slot channel. */
  datatype Call = Call(phase: Phase, reply: seq<Response>)

  datatype State = State(
    calls: seq<Call>,
    replyCh: map<U32, nat>,             // the call whose channel is registered under an ID
    inHand: Option<(nat, Response)>,    // taken by readRequestLoop, not yet sent to the channel
    taken: seq<nat>)                    // the calls whose entries readRequestLoop has taken

  const NEW_CONN := State([], map[], None, [])

  /** newRequestIDGeneratorForClient starts at 0. */
  function IDOf(k: nat): U32 { RequestID(0, k) }

  datatype Action =
    | TakeID | Register(k: nat) | Fail(k: nat) | Receive(k: nat)
    | Lookup(r: Response) | Deliver

  predicate Enabled(s: State, a: Action) {
    match a
    case TakeID => true
    case Register(k) => k < |s.calls| && s.calls[k].phase == HasID
    case Fail(k) => k < |s.calls| && s.calls[k].phase == Registered
    case Receive(k) => k < |s.calls| && s.calls[k].phase == Registered && s.calls[k].reply != []
    case Lookup(_) => s.inHand.None?
    case Deliver => s.inHand.Some? && s.inHand.value.0 < |s.calls|
  }

  function Step(s: State, a: Action): State
    requires Enabled(s, a)
  {
    match a
    case TakeID => s.(calls := s.calls + [Call(HasID, [])])
    case Register(k) =>
      s.(calls := s.calls[k := s.calls[k].(phase := Registered)], replyCh := s.replyCh[IDOf(k) := k])
    case Fail(k) => s.(calls := s.calls[k := s.calls[k].(phase := Failed)])
    case Receive(k) =>
      var c := s.calls[k];
      s.(calls := s.calls[k := Call(Answered(c.reply[0]), c.reply[1..])])
    case Lookup(r) =>
      if r.id !in s.replyCh then s
      else
        var k := s.replyCh[r.id];
        s.(replyCh := s.replyCh - {r.id}, inHand := Some((k, r)), taken := s.taken + [k])
    case Deliver =>
      var (k, r) := s.inHand.value;
      s.(inHand := None, calls := s.calls[k := s.calls[k].(reply := s.calls[k].reply + [r])])
  }

  // ---- invariant ----

  ghost predicate TableInv(s: State) {
    && (forall id :: id in s.replyCh ==>
          && s.replyCh[id] < |s.calls| && IDOf(s.replyCh[id]) == id
          && !s.calls[s.replyCh[id]].phase.HasID? && s.replyCh[id] !in s.taken)
    && (forall k :: k in s.taken ==> k < |s.calls| && !s.calls[k].phase.HasID?)
    && (forall i, j :: 0 <= i < j < |s.taken| ==> s.taken[i] != s.taken[j])
    && (s.inHand.Some? ==>
          && s.inHand.value.0 in s.taken && s.calls[s.inHand.value.0].reply == []
          && !s.calls[s.inHand.value.0].phase.Answered?
          && s.inHand.value.1.id == IDOf(s.inHand.value.0))
  }

  /** A channel holds at most one message, of its own ID, and only once its entry was taken. */
  ghost predicate CallOK(c: Call, k: nat, taken: seq<nat>) {
    && |c.reply| <= 1
    && (c.reply != [] ==> k in taken && c.reply[0].id == IDOf(k) && !c.phase.Answered?)
    && (c.phase.Answered? ==> k in taken && c.phase.r.id == IDOf(k))
  }

  ghost predicate CallsInv(s: State) {
    forall k :: 0 <= k < |s.calls| ==> CallOK(s.calls[k], k, s.taken)
  }

  ghost predicate Inv(s: State) { TableInv(s) && CallsInv(s) }

  lemma NewConnInv(s: State)
    requires s.calls == [] && s.replyCh == map[] && s.inHand == None && s.taken == []
    ensures s == NEW_CONN && Inv(s) && IDOf(|s.calls|) == 0
  {}

  lemma TableStep(s: State, a: Action)
    requires Inv(s) && Enabled(s, a)
    ensures TableInv(Step(s, a))
  {}

  lemma CallsStep(s: State, a: Action)
    requires Inv(s) && Enabled(s, a)
    ensures CallsInv(Step(s, a))
  {}

  lemma StepInv(s: State, a: Action)
    requires Inv(s) && Enabled(s, a)
    ensures Inv(Step(s, a))
  {
    TableStep(s, a);
    CallsStep(s, a);
  }

  ghost predicate Possible(s: State, run: seq<Action>)
    decreases |run|
  {
    run != [] ==> Enabled(s, run[0]) && Possible(Step(s, run[0]), run[1..])
  }

  ghost function After(s: State, run: seq<Action>): State
    requires Possible(s, run)
    decreases |run|
  {
    if run == [] then s else After(Step(s, run[0]), run[1..])
  }

  lemma {:induction false} RunsKeepInv(s: State, run: seq<Action>)
    requires Inv(s) && Possible(s, run)
    ensures Inv(After(s, run))
    decreases |run|
  {
    if run != [] {
      StepInv(s, run[0]);
      RunsKeepInv(Step(s, run[0]), run[1..]);
    }
  }

  /** In every run, wrapped IDs included: when the reading loop sends to a reply channel the channel
      is empty, so the send never blocks; and whatever a call holds or returned carries its own ID. */
  lemma RepliesNeverBlock(run: seq<Action>)
    requires Possible(NEW_CONN, run)
    ensures var s := After(NEW_CONN, run);
      && (s.inHand.Some? ==> s.inHand.value.0 < |s.calls| && s.calls[s.inHand.value.0].reply == [])
      && (forall k :: 0 <= k < |s.calls| ==> |s.calls[k].reply| <= 1)
      && (forall k :: 0 <= k < |s.calls| && s.calls[k].reply != [] ==> s.calls[k].reply[0].id == IDOf(k))
      && (forall k :: 0 <= k < |s.calls| && s.calls[k].phase.Answered? ==> s.calls[k].phase.r.id == IDOf(k))
      && (forall i, j :: 0 <= i < j < |s.taken| ==> s.taken[i] != s.taken[j])
  {
    RunsKeepInv(NEW_CONN, run);
    var s := After(NEW_CONN, run);
    forall k | 0 <= k < |s.calls| ensures CallOK(s.calls[k], k, s.taken) {}
  }

  // ---- nobody is forgotten ----

  /** Every call that has registered is still registered, unless its response was taken. */
  ghost predicate NoneForgotten(s: State) {
    forall k :: 0 <= k < |s.calls| && !s.calls[k].phase.HasID? && k !in s.taken ==>
      IDOf(k) in s.replyCh && s.replyCh[IDOf(k)] == k
  }

  lemma RegisterForgetsNone(s: State, k: nat)
    requires Inv(s) && NoneForgotten(s) && Enabled(s, Register(k)) && |s.calls| <= HALF
    ensures NoneForgotten(Step(s, Register(k)))
  {
    forall j | 0 <= j < |s.calls| && j != k ensures IDOf(j) != IDOf(k) {
      if j < k { IDsAreDistinct(0, j, k); } else { IDsAreDistinct(0, k, j); }
    }
  }

  lemma LookupForgetsNone(s: State, r: Response)
    requires Inv(s) && NoneForgotten(s) && Enabled(s, Lookup(r))
    ensures NoneForgotten(Step(s, Lookup(r)))
  {
    var s' := Step(s, Lookup(r));
    forall k | 0 <= k < |s'.calls| && !s'.calls[k].phase.HasID? && k !in s'.taken
      ensures IDOf(k) in s'.replyCh && s'.replyCh[IDOf(k)] == k
    {
      assert k !in s.taken;
    }
  }

  lemma ForgetsNoneStep(s: State, a: Action)
    requires Inv(s) && NoneForgotten(s) && Enabled(s, a) && |s.calls| <= HALF
    ensures NoneForgotten(Step(s, a))
  {
    match a {
      case Register(k) => RegisterForgetsNone(s, k);
      case Lookup(r) => LookupForgetsNone(s, r);
      case _ =>
    }
  }

  lemma {:induction false} CallsGrow(s: State, run: seq<Action>)
    requires Possible(s, run)
    ensures |s.calls| <= |After(s, run).calls|
    decreases |run|
  {
    if run != [] { CallsGrow(Step(s, run[0]), run[1..]); }
  }

  lemma {:induction false} RunsForgetNone(s: State, run: seq<Action>)
    requires Inv(s) && NoneForgotten(s) && Possible(s, run) && |After(s, run).calls| <= HALF
    ensures NoneForgotten(After(s, run))
    decreases |run|
  {
    if run != [] {
      CallsGrow(s, run);
      StepInv(s, run[0]);
      ForgetsNoneStep(s, run[0]);
      RunsForgetNone(Step(s, run[0]), run[1..]);
    }
  }

  /** Within 2^31 requests, a response to a registered call that has none yet reaches that call. */
  lemma ResponsesFindTheirCall(run: seq<Action>, k: nat, r: Response)
    requires Possible(NEW_CONN, run) && |After(NEW_CONN, run).calls| <= HALF
    requires var s := After(NEW_CONN, run);
      && k < |s.calls| && !s.calls[k].phase.HasID? && k !in s.taken
      && r.id == IDOf(k) && Enabled(s, Lookup(r))
    ensures var s := After(NEW_CONN, run); Step(s, Lookup(r)).inHand == Some((k, r))
  {
    RunsForgetNone(NEW_CONN, run);
  }

  /** And the call returns exactly that response, as soon as the reading loop and the call get to run. */
  lemma ResponseIsReturned(run: seq<Action>, k: nat, r: Response)
    requires Possible(NEW_CONN, run) && |After(NEW_CONN, run).calls| <= HALF
    requires var s := After(NEW_CONN, run);
      && k < |s.calls| && s.calls[k].phase == Registered && k !in s.taken
      && r.id == IDOf(k) && Enabled(s, Lookup(r))
    ensures var s := After(NEW_CONN, run); var s1 := Step(s, Lookup(r));
      Enabled(s1, Deliver) && Enabled(Step(s1, Deliver), Receive(k))
      && Step(Step(s1, Deliver), Receive(k)).calls == s.calls[k := Call(Answered(r), [])]
      && Step(Step(s1, Deliver), Receive(k)).inHand == None
  {
    RunsForgetNone(NEW_CONN, run);
    RunsKeepInv(NEW_CONN, run);
    GetsItsResponse(After(NEW_CONN, run), k, r);
  }

  lemma GetsItsResponse(s: State, k: nat, r: Response)
    requires Inv(s) && NoneForgotten(s)
    requires k < |s.calls| && s.calls[k].phase == Registered && k !in s.taken
    requires r.id == IDOf(k) && Enabled(s, Lookup(r))
    ensures var s1 := Step(s, Lookup(r));
      Enabled(s1, Deliver) && Enabled(Step(s1, Deliver), Receive(k))
      && Step(Step(s1, Deliver), Receive(k)).calls == s.calls[k := Call(Answered(r), [])]
      && Step(Step(s1, Deliver), Receive(k)).inHand == None
  {
    assert CallOK(s.calls[k], k, s.taken);
    var s2 := Step(Step(s, Lookup(r)), Deliver);
    assert s2.calls[k] == Call(Registered, [r]) && [r][1..] == [];
    assert Step(s2, Receive(k)).calls == s.calls[k := Call(Answered(r), [])];
  }

  /** A call that failed stays failed, whatever arrives for it. */
  lemma {:induction false} FailedStaysFailed(s: State, run: seq<Action>, k: nat)
    requires Possible(s, run) && k < |s.calls| && s.calls[k].phase == Failed
    ensures k < |After(s, run).calls| && After(s, run).calls[k].phase == Failed
    decreases |run|
  {
    if run != [] { FailedStaysFailed(Step(s, run[0]), run[1..], k); }
  }

  lemma FailedIsOver(s: State, k: nat, run: seq<Action>)
    requires Enabled(s, Fail(k)) && Possible(Step(s, Fail(k)), run)
    ensures var s' := After(Step(s, Fail(k)), run); k < |s'.calls| && s'.calls[k].phase == Failed
  {
    FailedStaysFailed(Step(s, Fail(k)), run, k);
  }

  // ---- the object ----

  /** The connection's reply table; each method is one step of the machine. */
  class ClientConn {
    const idGenerator: IDGenerator
    var replyCh: map<U32, nat>
    var calls: seq<Call>
    var inHand: Option<(nat, Response)>
    ghost var taken: seq<nat>

    ghost function View(): State
      reads this
    {
      State(calls, replyCh, inHand, taken)
    }

    ghost predicate Valid()
      reads this, idGenerator
    {
      Inv(View()) && idGenerator.currentValue == IDOf(|calls|)
    }

    constructor ()
      ensures View() == NEW_CONN && idGenerator.currentValue == 0 && fresh(idGenerator)
    {
      idGenerator := new IDGenerator(0);
      replyCh, calls, inHand, taken := map[], [], None, [];
    }

    /** A connection as it starts. */
    static method Open() returns (c: ClientConn)
      ensures fresh(c) && fresh(c.idGenerator) && c.Valid() && c.View() == NEW_CONN
    {
      c := new ClientConn();
      NewConnInv(c.View());
    }

    method TakeRequestID() returns (k: nat, id: U32)
      requires Valid()
      modifies this`calls, idGenerator
      ensures Valid() && View() == Step(old(View()), TakeID)
      ensures k == old(|calls|) && id == IDOf(k)
    {
      StepInv(View(), TakeID);
      k := |calls|;
      RequestIDNext(0, k);
      id := idGenerator.Next();
      calls := calls + [Call(HasID, [])];
    }

    /** The head of sendRequest. */
    method RegisterReply(k: nat)
      requires Valid() && Enabled(View(), Register(k))
      modifies this`calls, this`replyCh
      ensures Valid() && View() == Step(old(View()), Register(k))
    {
      StepInv(View(), Register(k));
      calls := calls[k := calls[k].(phase := Registered)];
      replyCh := replyCh[IDOf(k) := k];
    }

    /** One round of readRequestLoop up to the unlock. */
    method LookupReply(r: Response) returns (found: bool)
      requires Valid() && inHand.None?
      modifies this`replyCh, this`inHand, this`taken
      ensures Valid() && View() == Step(old(View()), Lookup(r))
      ensures found <==> r.id in old(replyCh)
    {
      StepInv(View(), Lookup(r));
      if r.id !in replyCh { return false; }
      var k := replyCh[r.id];
      replyCh := replyCh - {r.id};
      inHand := Some((k, r));
      taken := taken + [k];
      found := true;
    }

    /** The send to the one-slot channel; it finds the slot empty. */
    method DeliverReply()
      requires Valid() && inHand.Some?
      modifies this`calls, this`inHand
      ensures Valid() && View() == Step(old(View()), Deliver)
      ensures var (k, r) := old(inHand).value; old(calls[k].reply) == [] && calls[k].reply == [r]
    {
      StepInv(View(), Deliver);
      var (k, r) := inHand.value;
      calls := calls[k := calls[k].(reply := calls[k].reply + [r])];
      inHand := None;
    }
  }
}
