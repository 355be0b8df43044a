/**
 The close callback (`CloseFunc`) handed by the broker to `Close`/`CloseAll`.
 Its body is the broker's own code; what this subsystem can be held to is
 which ids it is called with, and in what order, so the callback is modelled
 as an object that records every call.
 */
module Callbacks {

  class Closer {
    /** Every id the callback has been called with, oldest first. */
    var calls: seq<string>

    constructor ()
      ensures calls == []
    {
      calls := [];
    }

    /** One invocation `closer(id)`. */
    method Call(id: string)
      modifies this
      ensures calls == old(calls) + [id]
    {
      calls := calls + [id];
    }

    /** How many times the callback has been called with `id`. */
    function CallsWith(id: string): (n: nat)
      reads this
      ensures n <= |calls|
      ensures n > 0 <==> id in calls
    {
      multiset(calls)[id]
    }
  }
}
