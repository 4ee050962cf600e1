/** The upstream tables of a wire connection (wire/client_conn.go:76-81, 495-588, 820-845). */
module UpstreamTables {
  import opened Prelude

  datatype QoS = Reliable | Partial | Unreliable
  datatype Writer = ReliableTransport | UnreliableTransport

  /** Ack channels are numbered in the order in which they are made. */
  datatype Tables = Tables(
    aliases: map<int, U32>,        // stream ID to stream ID alias
    acks: map<U32, nat>,           // ack channel per alias
    messageWriters: map<U32, Writer>,
    made: nat)                     // ack channels made so far

  const NO_STREAMS := Tables(map[], map[], map[], 0)

  function WriterFor(qos: QoS, hasUnreliable: bool): Writer {
    if qos == Unreliable && hasUnreliable then UnreliableTransport else ReliableTransport
  }

  function Opened(t: Tables, qos: QoS, hasUnreliable: bool, stream: int, alias: U32): Tables {
    Tables(t.aliases[stream := alias], t.acks[alias := t.made],
           t.messageWriters[alias := WriterFor(qos, hasUnreliable)], t.made + 1)
  }

  function Closed(t: Tables, stream: int): Tables {
    if stream !in t.aliases then t
    else
      var alias := t.aliases[stream];
      t.(aliases := t.aliases - {stream}, acks := t.acks - {alias}, messageWriters := t.messageWriters - {alias})
  }

  /** An open (or resume) answered by the server, or a close answered by it. */
  datatype Event = Open(qos: QoS, stream: int, alias: U32) | Close(stream: int)

  function After(es: seq<Event>, hasUnreliable: bool): Tables {
    if es == [] then NO_STREAMS
    else
      var t := After(es[..|es| - 1], hasUnreliable);
      match es[|es| - 1]
      case Open(qos, stream, alias) => Opened(t, qos, hasUnreliable, stream, alias)
      case Close(stream) => Closed(t, stream)
  }

  ghost predicate KeysEqual(t: Tables) {
    && t.acks.Keys == t.messageWriters.Keys
    && (forall a :: a in t.acks ==> t.acks[a] < t.made)
    && (forall a, b :: a in t.acks && b in t.acks && t.acks[a] == t.acks[b] ==> a == b)
  }

  /** Whatever the server answers, an alias has an ack channel exactly when it has a writer, and no
      ack channel serves two aliases. */
  lemma {:induction false} AcksAndWritersAgree(es: seq<Event>, hasUnreliable: bool)
    ensures KeysEqual(After(es, hasUnreliable))
  {
    if es != [] { AcksAndWritersAgree(es[..|es| - 1], hasUnreliable); }
  }

  /** The streams that are open are the ones that can send: one alias each, and no other alias. */
  ghost predicate InStep(t: Tables) {
    && (forall s, r :: s in t.aliases && r in t.aliases && t.aliases[s] == t.aliases[r] ==> s == r)
    && (forall s :: s in t.aliases ==> t.aliases[s] in t.messageWriters)
    && (forall a :: a in t.messageWriters ==> exists s :: s in t.aliases && t.aliases[s] == a)
  }

  /** The alias is new, or is the one the stream has already. */
  ghost predicate CleanOpen(t: Tables, stream: int, alias: U32) {
    && (forall s :: s in t.aliases && t.aliases[s] == alias ==> s == stream)
    && (stream in t.aliases ==> t.aliases[stream] == alias)
  }

  /** An open keeps streams and writers in step exactly when it neither takes another stream's alias
      nor gives a known stream a second one. */
  lemma OpenKeepsInStepIff(t: Tables, qos: QoS, hasUnreliable: bool, stream: int, alias: U32)
    requires InStep(t)
    ensures InStep(Opened(t, qos, hasUnreliable, stream, alias)) <==> CleanOpen(t, stream, alias)
  {
    var t' := Opened(t, qos, hasUnreliable, stream, alias);
    if CleanOpen(t, stream, alias) {
      forall a | a in t'.messageWriters ensures exists s :: s in t'.aliases && t'.aliases[s] == a {
        if a == alias {
          assert t'.aliases[stream] == a;
        } else {
          var s :| s in t.aliases && t.aliases[s] == a;
          assert t'.aliases[s] == a;
        }
      }
    } else if s :| s in t.aliases && t.aliases[s] == alias && s != stream {
      assert t'.aliases[s] == t'.aliases[stream];
    } else {
      var a := t.aliases[stream];
      assert a in t'.messageWriters;
      assert forall s :: s in t'.aliases && s != stream ==> t.aliases[s] != a;
    }
  }

  lemma CloseKeepsInStep(t: Tables, stream: int)
    requires InStep(t)
    ensures InStep(Closed(t, stream))
  {
    var t' := Closed(t, stream);
    if stream in t.aliases {
      forall a | a in t'.messageWriters ensures exists s :: s in t'.aliases && t'.aliases[s] == a {
        var s :| s in t.aliases && t.aliases[s] == a;
        assert t'.aliases[s] == a;
      }
    }
  }

  ghost predicate CleanRun(es: seq<Event>, hasUnreliable: bool) {
    forall i :: 0 <= i < |es| && es[i].Open? ==> CleanOpen(After(es[..i], hasUnreliable), es[i].stream, es[i].alias)
  }

  /** Over any run of clean opens and closes a stream can send exactly while it is open. */
  lemma {:induction false} StreamsStayInStep(es: seq<Event>, hasUnreliable: bool)
    requires CleanRun(es, hasUnreliable)
    ensures InStep(After(es, hasUnreliable))
  {
    if es != [] {
      var n := |es| - 1;
      assert forall i :: 0 <= i < n ==> es[..n][i] == es[i] && es[..n][..i] == es[..i];
      StreamsStayInStep(es[..n], hasUnreliable);
      match es[n] {
      case Open(qos, stream, alias) =>
        OpenKeepsInStepIff(After(es[..n], hasUnreliable), qos, hasUnreliable, stream, alias);
      case Close(stream) => CloseKeepsInStep(After(es[..n], hasUnreliable), stream);
      }
    }
  }

  /** A stream just opened can send under its alias, with an ack channel of its own; nobody else is touched. */
  lemma OpenedCanSend(t: Tables, qos: QoS, hasUnreliable: bool, stream: int, alias: U32)
    requires KeysEqual(t)
    ensures var t' := Opened(t, qos, hasUnreliable, stream, alias);
      && stream in t'.aliases && t'.aliases[stream] == alias
      && alias in t'.messageWriters && alias in t'.acks
      && (forall a :: a in t.acks && a != alias ==> a in t'.acks && t'.acks[a] == t.acks[a] != t'.acks[alias])
      && (forall a :: a != alias ==> (a in t'.messageWriters <==> a in t.messageWriters))
      && (forall a :: a in t.messageWriters && a != alias ==> t'.messageWriters[a] == t.messageWriters[a])
      && (forall s :: s in t.aliases && s != stream ==> s in t'.aliases && t'.aliases[s] == t.aliases[s])
  {}

  /** A closed stream has no alias any more and its alias neither channel nor writer; nobody else is touched,
      and closing an unknown stream touches nothing. */
  lemma ClosedCannotSend(t: Tables, stream: int)
    requires KeysEqual(t)
    ensures var t' := Closed(t, stream);
      && stream !in t'.aliases
      && (stream in t.aliases ==>
            var alias := t.aliases[stream]; alias !in t'.messageWriters && alias !in t'.acks)
      && (stream !in t.aliases ==> t' == t)
      && (forall a :: a in t.acks && !(stream in t.aliases && a == t.aliases[stream]) ==>
            && a in t'.acks && t'.acks[a] == t.acks[a]
            && a in t'.messageWriters && t'.messageWriters[a] == t.messageWriters[a])
      && (forall s :: s in t.aliases && s != stream ==> s in t'.aliases && t'.aliases[s] == t.aliases[s])
  {}

  /** The QoS with which the alias was last opened. */
  function LastQoS(es: seq<Event>, alias: U32): Option<QoS> {
    if es == [] then None
    else
      var e := es[|es| - 1];
      if e.Open? && e.alias == alias then Some(e.qos) else LastQoS(es[..|es| - 1], alias)
  }

  /** Over any run an alias is written to the unreliable transport exactly when it was last opened as
      Unreliable and there is such a transport; every other QoS goes over the reliable one. */
  lemma {:induction false} WriterFollowsQoS(es: seq<Event>, hasUnreliable: bool, alias: U32)
    requires alias in After(es, hasUnreliable).messageWriters
    ensures LastQoS(es, alias).Some?
    ensures After(es, hasUnreliable).messageWriters[alias] == UnreliableTransport <==>
      LastQoS(es, alias) == Some(Unreliable) && hasUnreliable
  {
    var n := |es| - 1;
    if !(es[n].Open? && es[n].alias == alias) { WriterFollowsQoS(es[..n], hasUnreliable, alias); }
  }

  // ---- the object ----

  class ClientUpstreams {
    const hasUnreliable: bool
    var acks: map<U32, nat>
    var aliases: map<int, U32>
    var messageWriters: map<U32, Writer>
    var made: nat

    ghost function View(): Tables
      reads this
    {
      Tables(aliases, acks, messageWriters, made)
    }

    constructor (hasUnreliable: bool)
      ensures this.hasUnreliable == hasUnreliable && View() == NO_STREAMS
    {
      this.hasUnreliable := hasUnreliable;
      acks, aliases, messageWriters, made := map[], map[], map[], 0;
    }

    method OpenUpstream(qos: QoS, stream: int, alias: U32)
      modifies this
      ensures View() == Opened(old(View()), qos, hasUnreliable, stream, alias)
    {
      aliases := aliases[stream := alias];
      acks := acks[alias := made];
      made := made + 1;
      match qos {
      case Reliable | Partial => messageWriters := messageWriters[alias := ReliableTransport];
      case Unreliable =>
        messageWriters := messageWriters[alias := if hasUnreliable then UnreliableTransport else ReliableTransport];
      }
    }

    /** SendUpstreamCloseRequest, once the server has answered. */
    method CloseUpstream(stream: int)
      modifies this
      ensures View() == Closed(old(View()), stream)
    {
      if stream !in aliases { return; }
      var alias := aliases[stream];
      aliases := aliases - {stream};
      if alias in acks { acks := acks - {alias}; }
      if alias in messageWriters { messageWriters := messageWriters - {alias}; }
    }

    /** The transport SendUpstreamChunk writes to, None for a stream that does not exist. */
    method FindWriter(alias: U32) returns (writer: Option<Writer>)
      requires KeysEqual(View())
      ensures writer.Some? <==> alias in acks
      ensures writer.Some? ==> writer.value == messageWriters[alias]
    {
      writer := if alias in messageWriters then Some(messageWriters[alias]) else None;
    }
  }
}
