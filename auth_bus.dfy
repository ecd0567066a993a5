/**
 * The force-logout bus: a module-level set of listeners that the HTTP client
 * notifies when the session cannot be refreshed.
 */
module AuthBus {
  import opened Listeners

  /** The listener registry; `throws` says which listeners throw when called. */
  class Registry<L(==, !new)> {
    var listeners: seq<L>

    ghost predicate Valid()
      reads this
    {
      NoDuplicates(listeners)
    }

    constructor()
      ensures Valid() && listeners == []
    {
      listeners := [];
    }

    /** `onForceLogout(l)`: registers `l`; the closure it returns is `Unsubscribe(l)`. */
    method OnForceLogout(l: L)
      requires Valid()
      modifies this
      ensures Valid()
      ensures listeners == Add(old(listeners), l)
    {
      if l !in listeners {
        listeners := listeners + [l];
      }
    }

    /** The closure returned by `onForceLogout(l)`: deletes `l`, reporting whether it was there. */
    method Unsubscribe(l: L) returns (removed: bool)
      requires Valid()
      modifies this
      ensures Valid()
      ensures removed <==> l in old(listeners)
      ensures listeners == Remove(old(listeners), l)
    {
      removed := l in listeners;
      listeners := Remove(listeners, l);
    }

    /** `emitForceLogout()`: calls every listener once, in order, swallowing what they throw. */
    method EmitForceLogout(throws: L -> bool) returns (calls: seq<Delivery<L, ()>>)
      requires Valid()
      ensures |calls| == |listeners|
      ensures forall i :: 0 <= i < |calls| ==> calls[i] == Delivery(listeners[i], (), throws(listeners[i]))
    {
      calls := [];
      for i := 0 to |listeners|
        invariant |calls| == i
        invariant forall k :: 0 <= k < i ==> calls[k] == Delivery(listeners[k], (), throws(listeners[k]))
      {
        calls := calls + [Delivery(listeners[i], (), throws(listeners[i]))];
      }
    }
  }
}
