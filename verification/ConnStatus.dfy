/** The connection status and its three ways to change (iscp/state.go). */
module ConnStatus {

  datatype Status = Connected | Reconnecting | Closed

  function CASed(current: Status, was: Status, to: Status): Status {
    if current == was then to else current
  }

  function CASedNot(current: Status, was: Status, to: Status): Status {
    if current == was then current else to
  }

  /** The object behind Conn.state; each method is one critical section on its lock. */
  class StatusBox {
    var current: Status

    constructor ()
      ensures current == Connected
    {
      current := Connected;
    }

    method Swap(status: Status) returns (before: Status)
      modifies this
      ensures before == old(current) && current == status
    {
      before := current;
      current := status;
    }

    method CompareAndSwap(was: Status, to: Status) returns (swapped: bool)
      modifies this
      ensures current == CASed(old(current), was, to)
      ensures swapped <==> old(current) == was
      ensures current == if swapped then to else old(current)
    {
      if current != was { return false; }
      var _ := Swap(to);
      return true;
    }

    method CompareAndSwapNot(was: Status, to: Status) returns (swapped: bool)
      modifies this
      ensures current == CASedNot(old(current), was, to)
      ensures swapped <==> old(current) != was
      ensures current == if swapped then to else old(current)
    {
      if current == was { return false; }
      var _ := Swap(to);
      return true;
    }
  }
}
