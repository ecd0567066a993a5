/**
 * A JavaScript `Set` of listeners, as both buses keep one: membership without
 * duplicates, iterated in insertion order. `Add` and `Remove` are `Set.add` and
 * `Set.delete`; `Delivery` records one call of a listener during an emit.
 */
module Listeners {

  /** One listener call made by an emit: who was called, with what, and whether it threw. */
  datatype Delivery<L, E> = Delivery(listener: L, event: E, threw: bool)

  predicate NoDuplicates<L(==, !new)>(ls: seq<L>) {
    forall i, j :: 0 <= i < j < |ls| ==> ls[i] != ls[j]
  }

  /** `set.add(l)`: a new listener goes to the end; a present one changes nothing. */
  function Add<L(==, !new)>(ls: seq<L>, l: L): (r: seq<L>)
    ensures l in r
    ensures forall x :: x in r <==> x in ls || x == l
    ensures NoDuplicates(ls) ==> NoDuplicates(r)
  {
    if l in ls then ls else ls + [l]
  }

  /** `set.delete(l)`: every other listener stays, in its order. */
  function Remove<L(==, !new)>(ls: seq<L>, l: L): (r: seq<L>)
    ensures l !in r
    ensures forall x :: x in r <==> x in ls && x != l
    ensures |r| <= |ls|
    ensures NoDuplicates(ls) ==> NoDuplicates(r)
  {
    if ls == [] then []
    else
      var rest := Remove(ls[1..], l);
      assert forall x :: x in ls[1..] ==> x in ls;
      if ls[0] == l then rest
      else
        assert NoDuplicates(ls) ==> ls[0] !in ls[1..];
        [ls[0]] + rest
  }

  /** Subscribing twice is one registration. */
  lemma AddIdempotent<L(!new)>(ls: seq<L>, l: L)
    ensures Add(Add(ls, l), l) == Add(ls, l)
  {
  }

  /** The unsubscribe closure of a fresh subscription restores the registry exactly. */
  lemma {:induction false} RemoveUndoesAdd<L(!new)>(ls: seq<L>, l: L)
    requires l !in ls
    ensures Remove(Add(ls, l), l) == ls
  {
    RemoveAbsent(ls, l);
    RemoveAppend(ls, [l], l);
  }

  lemma {:induction false} RemoveAbsent<L(!new)>(ls: seq<L>, l: L)
    requires l !in ls
    ensures Remove(ls, l) == ls
  {
    if ls != [] {
      RemoveAbsent(ls[1..], l);
    }
  }

  lemma {:induction false} RemoveAppend<L(!new)>(a: seq<L>, b: seq<L>, l: L)
    ensures Remove(a + b, l) == Remove(a, l) + Remove(b, l)
  {
    if a == [] {
      assert a + b == b;
    } else {
      assert (a + b)[1..] == a[1..] + b;
      RemoveAppend(a[1..], b, l);
    }
  }

  /** Removing one listener does not disturb the relative order of the others. */
  lemma {:induction false} RemoveKeepsOrder<L(!new)>(ls: seq<L>, l: L, x: L, y: L)
    requires NoDuplicates(ls)
    requires x != l && y != l
    requires exists i, j :: 0 <= i < j < |ls| && ls[i] == x && ls[j] == y
    ensures exists i, j :: 0 <= i < j < |Remove(ls, l)| && Remove(ls, l)[i] == x && Remove(ls, l)[j] == y
  {
    var i, j :| 0 <= i < j < |ls| && ls[i] == x && ls[j] == y;
    var r := Remove(ls, l);
    assert ls == [ls[0]] + ls[1..];
    if i == 0 {
      assert y in ls[1..] by { assert ls[1..][j - 1] == y; }
      var rest := Remove(ls[1..], l);
      assert r == [x] + rest;
      assert y in rest;
      var k :| 0 <= k < |rest| && rest[k] == y;
      assert r[0] == x && r[k + 1] == y;
    } else {
      assert ls[1..][i - 1] == x && ls[1..][j - 1] == y;
      RemoveKeepsOrder(ls[1..], l, x, y);
      var rest := Remove(ls[1..], l);
      var i', j' :| 0 <= i' < j' < |rest| && rest[i'] == x && rest[j'] == y;
      if ls[0] == l {
        assert r == rest;
      } else {
        assert r == [ls[0]] + rest;
        assert r[i' + 1] == x && r[j' + 1] == y;
      }
    }
  }
}
