/**
 * The error bus: a module-level set of listeners that the HTTP client notifies
 * about every failed response, and that the toast list subscribes to.
 */
module ErrorBus {
  import opened Wrappers
  import opened Listeners

  /** What a failed request reports: a message, and the status, URL and method when known. */
  datatype ErrorEvent = ErrorEvent(message: string, status: Option<int>, url: Option<string>, httpMethod: Option<string>)

  /**
   * The listener registry. `L` stands for listener identity (a function reference in
   * the client); `throws` says which listeners throw when called.
   */
  class Registry<L(==, !new)> {
    var listeners: seq<L>

    ghost predicate Valid()
      reads this
    {
      NoDuplicates(listeners)
    }

    constructor()
      ensures Valid() && listeners == []
    {
      listeners := [];
    }

    /** `onError(l)`: registers `l`; the unsubscribe closure it returns is `Unsubscribe(l)`. */
    method OnError(l: L)
      requires Valid()
      modifies this
      ensures Valid()
      ensures listeners == Add(old(listeners), l)
    {
      if l !in listeners {
        listeners := listeners + [l];
      }
    }

    /** The closure returned by `onError(l)`: deletes `l` and reports whether it was registered. */
    method Unsubscribe(l: L) returns (removed: bool)
      requires Valid()
      modifies this
      ensures Valid()
      ensures removed <==> l in old(listeners)
      ensures listeners == Remove(old(listeners), l)
    {
      removed := l in listeners;
      listeners := Remove(listeners, l);
    }

    /**
     * `emitError(e)`: calls every registered listener once, in registration order, with
     * the same event; a listener that throws is caught and the loop goes on.
     */
    method EmitError(e: ErrorEvent, throws: L -> bool) returns (calls: seq<Delivery<L, ErrorEvent>>)
      requires Valid()
      ensures |calls| == |listeners|
      ensures forall i :: 0 <= i < |calls| ==> calls[i] == Delivery(listeners[i], e, throws(listeners[i]))
    {
      calls := [];
      for i := 0 to |listeners|
        invariant |calls| == i
        invariant forall k :: 0 <= k < i ==> calls[k] == Delivery(listeners[k], e, throws(listeners[k]))
      {
        calls := calls + [Delivery(listeners[i], e, throws(listeners[i]))];
      }
    }
  }
}
