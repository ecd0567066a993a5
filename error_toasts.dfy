/**
 * The error-toast list: every error event appends one toast whose id is
 * `<timestamp>-<counter>`, the counter being bumped first, and closing a toast
 * filters it out by id.
 */
module ErrorToasts {
  import opened Wrappers
  import opened JsText
  import opened ErrorBus
  import Seqs

  datatype Toast = Toast(id: string, message: string, status: Option<int>, url: Option<string>,
                         httpMethod: Option<string>, time: int)

  /** The template literal `${stamp}-${n}`. */
  function ToastId(stamp: int, n: nat): string {
    IntText(stamp) + "-" + NatText(n)
  }

  /** Two toast ids with different counters differ, whatever the timestamps. */
  lemma ToastIdCounterInjective(a: int, n: nat, b: int, m: nat)
    requires ToastId(a, n) == ToastId(b, m)
    ensures n == m
  {
    assert ToastId(a, n) == IntText(a) + ['-'] + NatText(n);
    assert ToastId(b, m) == IntText(b) + ['-'] + NatText(m);
    CounterSuffixInjective(IntText(a), IntText(b), '-', n, m);
  }

  /** `prev.filter(t => t.id !== id)`: the toasts with another id, in their order. */
  function RemoveById(ts: seq<Toast>, id: string): (r: seq<Toast>)
    ensures forall t :: t in r <==> t in ts && t.id != id
    ensures |r| <= |ts|
  {
    if ts == [] then []
    else
      assert forall t :: t in ts[1..] ==> t in ts;
      (if ts[0].id == id then [] else [ts[0]]) + RemoveById(ts[1..], id)
  }

  /** Removing by id is exactly the array filter: the remaining toasts keep their order. */
  lemma {:induction false} RemoveByIdIsFilter(ts: seq<Toast>, id: string)
    ensures RemoveById(ts, id) == Seqs.Filter(ts, (t: Toast) => t.id != id)
  {
    if ts != [] {
      RemoveByIdIsFilter(ts[1..], id);
    }
  }

  predicate DistinctIds(ts: seq<Toast>) {
    forall i, j :: 0 <= i < j < |ts| ==> ts[i].id != ts[j].id
  }

  lemma {:induction false} RemoveByIdKeepsDistinct(ts: seq<Toast>, id: string)
    requires DistinctIds(ts)
    ensures DistinctIds(RemoveById(ts, id))
  {
    if ts != [] {
      var rest := RemoveById(ts[1..], id);
      assert DistinctIds(ts[1..]) by {
        forall i, j | 0 <= i < j < |ts[1..]| ensures ts[1..][i].id != ts[1..][j].id {
          assert ts[1..][i] == ts[i + 1] && ts[1..][j] == ts[j + 1];
        }
      }
      RemoveByIdKeepsDistinct(ts[1..], id);
      if ts[0].id != id {
        forall t | t in rest ensures t.id != ts[0].id {
          var k :| 0 <= k < |ts[1..]| && ts[1..][k] == t;
          assert ts[k + 1] == t;
        }
        var r := [ts[0]] + rest;
        forall i, j | 0 <= i < j < |r| ensures r[i].id != r[j].id {
          if i == 0 {
            assert r[j] == rest[j - 1];
            assert r[j] in rest;
          } else {
            assert r[i] == rest[i - 1] && r[j] == rest[j - 1];
          }
        }
      }
    }
  }

  /** Closing a toast that was just added gives back the list from before it was added. */
  lemma {:induction false} RemoveUndoesAppend(ts: seq<Toast>, t: Toast)
    requires forall u :: u in ts ==> u.id != t.id
    ensures RemoveById(ts + [t], t.id) == ts
  {
    if ts == [] {
      assert RemoveById([t], t.id) == [] + RemoveById([], t.id);
    } else {
      assert (ts + [t])[1..] == ts[1..] + [t];
      assert forall u :: u in ts[1..] ==> u in ts;
      RemoveUndoesAppend(ts[1..], t);
      assert ts == [ts[0]] + ts[1..];
    }
  }

  /** The toast an error event becomes: the event's fields plus an id and a time. */
  function ToastOf(e: ErrorEvent, id: string, time: int): Toast {
    Toast(id, e.message, e.status, e.url, e.httpMethod, time)
  }

  class ToastList {
    var items: seq<Toast>
    var idSeq: nat

    /** Ids are pairwise distinct, and no id can carry a counter above `idSeq`. */
    ghost predicate Valid()
      reads this
    {
      DistinctIds(items)
      && forall stamp: int, n: nat | n > idSeq :: ToastId(stamp, n) !in (set t | t in items :: t.id)
    }

    constructor()
      ensures Valid() && items == [] && idSeq == 0
    {
      items := [];
      idSeq := 0;
    }

    /**
     * The error-bus listener: bumps the counter, then appends one toast. The id's
     * timestamp and the toast's time come from two separate clock reads.
     */
    method OnError(e: ErrorEvent, stampMs: int, timeMs: int)
      requires Valid()
      modifies this
      ensures Valid()
      ensures idSeq == old(idSeq) + 1
      ensures items == old(items) + [ToastOf(e, ToastId(stampMs, old(idSeq) + 1), timeMs)]
    {
      idSeq := idSeq + 1;
      var t := ToastOf(e, ToastId(stampMs, idSeq), timeMs);
      ghost var oldItems := items;
      assert ToastId(stampMs, idSeq) !in (set u | u in oldItems :: u.id);
      items := items + [t];
      forall i, j | 0 <= i < j < |items| ensures items[i].id != items[j].id {
        if j == |items| - 1 {
          assert items[i] in oldItems;
        }
      }
      forall stamp: int, n: nat | n > idSeq
        ensures ToastId(stamp, n) !in (set u | u in items :: u.id)
      {
        if ToastId(stamp, n) == t.id {
          ToastIdCounterInjective(stamp, n, stampMs, idSeq);
        }
        assert ToastId(stamp, n) !in (set u | u in oldItems :: u.id);
      }
    }

    /** `remove(id)`: drops the toasts with that id, keeping the others and their order. */
    method Remove(id: string)
      requires Valid()
      modifies this
      ensures Valid()
      ensures idSeq == old(idSeq)
      ensures items == RemoveById(old(items), id)
    {
      RemoveByIdKeepsDistinct(items, id);
      items := RemoveById(items, id);
    }
  }
}
