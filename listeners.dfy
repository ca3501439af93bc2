/** A JavaScript `Set` of listener callbacks, kept in insertion order.

    Both the store and the translation service hold their subscribers in a
    `Set`; a listener is identified here by a number, and the unsubscribe
    closure that `subscribe` returns deletes that number again. */
module Listeners {

  type ListenerId = nat

  predicate NoDuplicates(ls: seq<ListenerId>) {
    forall i, j :: 0 <= i < j < |ls| ==> ls[i] != ls[j]
  }

  /** `set.add(l)`: appended at the end unless it is already a member. */
  function Added(ls: seq<ListenerId>, l: ListenerId): (r: seq<ListenerId>)
    ensures forall x :: x in r <==> x in ls || x == l
    ensures NoDuplicates(ls) ==> NoDuplicates(r)
    ensures |r| == if l in ls then |ls| else |ls| + 1
    ensures r[..|ls|] == ls
  {
    if l in ls then ls else ls + [l]
  }

  /** `set.delete(l)`: the members other than `l`, in their order. */
  function Removed(ls: seq<ListenerId>, l: ListenerId): (r: seq<ListenerId>)
    ensures forall x :: x in r <==> x in ls && x != l
    ensures NoDuplicates(ls) ==> NoDuplicates(r)
    ensures l !in ls ==> r == ls
    ensures |r| <= |ls|
  {
    if ls == [] then []
    else
      var rest := Removed(ls[1..], l);
      if ls[0] == l then rest
      else
        assert NoDuplicates(ls) ==> NoDuplicates(ls[1..]) && ls[0] !in ls[1..];
        ConsNoDuplicates(ls[0], rest);
        [ls[0]] + rest
  }

  lemma ConsNoDuplicates(x: ListenerId, rest: seq<ListenerId>)
    ensures x !in rest && NoDuplicates(rest) ==> NoDuplicates([x] + rest)
  {
    if x !in rest && NoDuplicates(rest) {
      var s := [x] + rest;
      forall i, j | 0 <= i < j < |s|
        ensures s[i] != s[j]
      {
        assert s[j] == rest[j - 1];
        if i > 0 {
          assert s[i] == rest[i - 1];
        }
      }
    }
  }

  /** Calling the unsubscribe handle a second time changes nothing. */
  lemma {:induction false} RemovedTwice(ls: seq<ListenerId>, l: ListenerId)
    ensures Removed(Removed(ls, l), l) == Removed(ls, l)
  {
    var r := Removed(ls, l);
    assert l !in r;
  }

  /** Subscribing a listener twice registers it once. */
  lemma AddedTwice(ls: seq<ListenerId>, l: ListenerId)
    ensures Added(Added(ls, l), l) == Added(ls, l)
  {
  }

  /** Unsubscribing a freshly subscribed listener restores the previous set, order included. */
  lemma {:induction false} RemovedAfterAdded(ls: seq<ListenerId>, l: ListenerId)
    requires l !in ls
    ensures Removed(Added(ls, l), l) == ls
  {
    var added := ls + [l];
    assert Added(ls, l) == added;
    if ls == [] {
      assert added[1..] == [];
    } else {
      var tail := ls[1..];
      assert added[0] == ls[0] != l && added[1..] == tail + [l];
      assert Removed(tail + [l], l) == tail by {
        assert l !in tail;
        RemovedAfterAdded(tail, l);
      }
      assert ls == [ls[0]] + tail;
    }
  }
}
