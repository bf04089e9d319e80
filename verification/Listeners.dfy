/**
 A list of listeners that can be called as one, and whose listeners may remove themselves
 or each other while they are being called.
 */
module Listeners {

  type Listener = nat

  /** `list.remove` of the first occurrence, guarded by `in`: what the function returned by `add` does. */
  function Removed<T(==)>(items: seq<T>, listener: T): seq<T> {
    if items == [] then []
    else if items[0] == listener then items[1..]
    else [items[0]] + Removed(items[1..], listener)
  }

  lemma HeadCounts<T>(head: T, tail: seq<T>)
    ensures multiset([head] + tail) == multiset{head} + multiset(tail)
  {
  }

  lemma HeadStays<T>(head: T, tail: multiset<T>, listener: T)
    requires head != listener
    ensures multiset{head} + (tail - multiset{listener}) == multiset{head} + tail - multiset{listener}
  {
  }

  /** Exactly one occurrence goes, and the others keep their number. */
  lemma {:induction false} RemovedOne<T>(items: seq<T>, listener: T)
    ensures multiset(Removed(items, listener)) == multiset(items) - multiset{listener}
  {
    if items == [] {
    } else {
      var head, tail := items[0], items[1..];
      assert items == [head] + tail;
      HeadCounts(head, tail);
      if head != listener {
        RemovedOne(tail, listener);
        var rest := Removed(tail, listener);
        assert Removed(items, listener) == [head] + rest;
        HeadCounts(head, rest);
        HeadStays(head, multiset(tail), listener);
      }
    }
  }

  lemma RemovedIsPart<T>(items: seq<T>, listener: T)
    ensures forall x :: x in Removed(items, listener) ==> x in items
  {
    RemovedOne(items, listener);
    forall x | x in Removed(items, listener)
      ensures x in items
    {
      assert multiset(Removed(items, listener))[x] > 0;
      assert x in multiset(items);
    }
  }

  /** Removing a listener that was added last undoes adding it, if it was not in the group before. */
  lemma {:induction false} AddThenRemove<T>(items: seq<T>, listener: T)
    requires listener !in items
    ensures Removed(items + [listener], listener) == items
  {
    if items == [] {
    } else {
      AddThenRemove(items[1..], listener);
      assert (items + [listener])[1..] == items[1..] + [listener];
    }
  }

  function RemovedAll(items: seq<Listener>, gone: seq<Listener>): seq<Listener> {
    if gone == [] then items else Removed(RemovedAll(items, gone[..|gone| - 1]), gone[|gone| - 1])
  }

  /** What the listeners of `called` remove when they run, in order. */
  function Removals(called: seq<Listener>, removes: Listener -> seq<Listener>): seq<Listener> {
    if called == [] then [] else Removals(called[..|called| - 1], removes) + removes(called[|called| - 1])
  }

  lemma RemovedAllSnoc(items: seq<Listener>, gone: seq<Listener>, listener: Listener)
    ensures RemovedAll(items, gone + [listener]) == Removed(RemovedAll(items, gone), listener)
  {
    assert (gone + [listener])[..|gone|] == gone;
  }

  lemma {:induction false} RemovedAllConcat(items: seq<Listener>, first: seq<Listener>, second: seq<Listener>)
    ensures RemovedAll(items, first + second) == RemovedAll(RemovedAll(items, first), second)
  {
    if second == [] {
      assert first + second == first;
    } else {
      var front, last := second[..|second| - 1], second[|second| - 1];
      RemovedAllConcat(items, first, front);
      RemovedAllSnoc(items, first + front, last);
      assert first + front + [last] == first + second;
    }
  }

  lemma RemovalsSnoc(called: seq<Listener>, removes: Listener -> seq<Listener>, listener: Listener)
    ensures Removals(called + [listener], removes) == Removals(called, removes) + removes(listener)
  {
    assert (called + [listener])[..|called|] == called;
  }

  /** Removing a listener that is gone, for instance a second time, changes nothing. */
  lemma {:induction false} RemovingTwice(items: seq<Listener>, listener: Listener)
    ensures listener !in items ==> Removed(items, listener) == items
    ensures multiset(items)[listener] <= 1 ==> listener !in Removed(items, listener)
  {
    if items == [] {
    } else {
      assert items == [items[0]] + items[1..];
      RemovingTwice(items[1..], listener);
    }
    RemovedOne(items, listener);
    assert listener in Removed(items, listener) <==> listener in multiset(Removed(items, listener));
  }

  class ListenerGroup {
    var items: seq<Listener>
    // the calls so far, in order
    var calls: seq<Listener>

    constructor ()
      ensures items == [] && calls == []
    {
      items, calls := [], [];
    }

    method Add(listener: Listener)
      modifies this`items
      ensures items == old(items) + [listener]
    {
      items := items + [listener];
    }

    method Remove(listener: Listener)
      modifies this`items
      ensures items == Removed(old(items), listener)
    {
      RemovingTwice(items, listener);
      if listener in items {
        items := Removed(items, listener);
      }
    }

    /** One listener runs. */
    method CallOne(listener: Listener, removes: Listener -> seq<Listener>)
      modifies this
      ensures calls == old(calls) + [listener]
      ensures items == RemovedAll(old(items), removes(listener))
    {
      hide Removed, RemovedAll;
      calls := calls + [listener];
      var gone := removes(listener);
      assert items == RemovedAll(items, gone[..0]) by { RemovedNone(items); }
      for j := 0 to |gone|
        invariant calls == old(calls) + [listener]
        invariant items == RemovedAll(old(items), gone[..j])
      {
        Remove(gone[j]);
        RemovedAllSnoc(old(items), gone[..j], gone[j]);
        assert gone[..j] + [gone[j]] == gone[..j + 1];
      }
      assert gone[..|gone|] == gone;
    }

    /**
     Calls exactly the listeners that were in the group when the call began, in order, also
     those that an earlier one removed meanwhile; afterwards all of those are gone.
     */
    method Call(removes: Listener -> seq<Listener>)
      modifies this
      ensures calls == old(calls) + old(items)
      ensures items == RemovedAll(old(items), Removals(old(items), removes))
    {
      var present := items;
      for i := 0 to |present|
        invariant calls == old(calls) + present[..i]
        invariant items == RemovedAll(present, Removals(present[..i], removes))
      {
        CallOne(present[i], removes);
        RemovedAllConcat(present, Removals(present[..i], removes), removes(present[i]));
        RemovalsSnoc(present[..i], removes, present[i]);
        assert present[..i] + [present[i]] == present[..i + 1];
      }
      assert present[..|present|] == present;
    }
  }

  lemma RemovedNone(items: seq<Listener>)
    ensures RemovedAll(items, []) == items
  {
  }
}
