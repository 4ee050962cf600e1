/** Falling back to a usable transport (transport/multi/transport_selector.go). */
module TransportSelection {
  import opened Prelude

  type ID = string

  /** What a selector returns when it has nothing to offer. */
  const NO_TRANSPORT: ID := ""

  datatype Status = Connected | Reconnecting | Disconnected | Connecting

  predicate AnyConnected(transports: map<ID, Status>) {
    exists id :: id in transports && transports[id] == Connected
  }

  predicate Pending(s: Status) { s == Reconnecting || s == Connecting }

  /** A connected transport is preferred, the selected one first; then one that is about to be. */
  predicate Acceptable(selected: ID, transports: map<ID, Status>, id: ID) {
    if selected in transports && transports[selected] == Connected then id == selected
    else if AnyConnected(transports) then id in transports && transports[id] == Connected
    else if exists k :: k in transports && k != NO_TRANSPORT && Pending(transports[k])
    then id in transports && Pending(transports[id])
    else id == NO_TRANSPORT
  }

  /** `order` is the order in which Go walks the map. */
  method SelectAvailableTransport(selected: ID, transports: map<ID, Status>, order: seq<ID>) returns (id: ID)
    requires Enumerates(order, transports.Keys)
    ensures Acceptable(selected, transports, id)
    ensures (exists k :: k in transports && k != NO_TRANSPORT && transports[k] != Disconnected) ==>
      id in transports && transports[id] != Disconnected
  {
    if selected in transports && transports[selected] == Connected { return selected; }
    var reconnecting := NO_TRANSPORT;
    for i := 0 to |order|
      invariant forall j :: 0 <= j < i ==> transports[order[j]] != Connected
      invariant reconnecting == NO_TRANSPORT ==>
        forall j :: 0 <= j < i ==> order[j] == NO_TRANSPORT || !Pending(transports[order[j]])
      invariant reconnecting != NO_TRANSPORT ==> reconnecting in transports && Pending(transports[reconnecting])
    {
      match transports[order[i]] {
      case Connected => return order[i];
      case Reconnecting | Connecting =>
        if reconnecting == NO_TRANSPORT { reconnecting := order[i]; }
      case Disconnected =>
      }
    }
    return reconnecting;
  }
}
