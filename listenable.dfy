/**
 * AbstractListenable: an ordered listener list (duplicates allowed) with add,
 * remove-first-occurrence, and an event dispatch that walks a copy of the
 * list taken when the event is fired. The per-listener dispatch is abstract
 * in the source; here it is recorded in a delivery log, and what a listener
 * does while it is being notified (any number of adds and removes on the
 * registry, then possibly a RuntimeException) is given as a Reaction.
 */
module Listenable {
  import opened Common

  /** `List.remove(Object)`: drops the first element equal to `x`, if any. */
  function RemoveFirst<T(==)>(s: seq<T>, x: T): seq<T>
  {
    if s == [] then []
    else if s[0] == x then s[1..]
    else [s[0]] + RemoveFirst(s[1..], x)
  }

  /** Removing a listener that is not registered leaves the list as it was. */
  lemma {:induction false} RemoveFirstAbsent<T>(s: seq<T>, x: T)
    requires x !in s
    ensures RemoveFirst(s, x) == s
  {
    if s != [] {
      RemoveFirstAbsent(s[1..], x);
    }
  }

  /** Only the first occurrence `i` goes; the others keep their order. */
  lemma {:induction false} RemoveFirstAt<T>(s: seq<T>, x: T, i: nat)
    requires i < |s| && s[i] == x
    requires forall j :: 0 <= j < i ==> s[j] != x
    ensures RemoveFirst(s, x) == s[..i] + s[i + 1..]
  {
    if i > 0 {
      RemoveFirstAt(s[1..], x, i - 1);
      assert s[..i] == [s[0]] + s[1..][..i - 1];
      assert s[i + 1..] == s[1..][i..];
    }
  }

  /** Exactly one copy of `x` disappears when it is present; nothing else changes. */
  lemma {:induction false} RemoveFirstCount<T>(s: seq<T>, x: T)
    ensures multiset(RemoveFirst(s, x)) == multiset(s) - multiset{x}
  {
    if s != [] {
      assert s == [s[0]] + s[1..];
      assert multiset(s) == multiset{s[0]} + multiset(s[1..]);
      if s[0] != x {
        RemoveFirstCount(s[1..], x);
        assert multiset(RemoveFirst(s, x)) == multiset{s[0]} + multiset(RemoveFirst(s[1..], x));
      }
    }
  }

  /** One call a listener makes on the registry while it is being notified. */
  datatype Change<L> = Add(listener: L) | Remove(listener: L)

  /** What a listener does while it is notified: its changes, in order, then possibly an exception. */
  datatype Reaction<L> = Reaction(changes: seq<Change<L>>, raises: Option<Exception>)

  /** The registry after the changes, made in order. */
  function ApplyAll<L(==)>(ls: seq<L>, cs: seq<Change<L>>): seq<L>
    decreases |cs|
  {
    if cs == [] then ls
    else
      var next := match cs[0] case Add(l) => ls + [l] case Remove(l) => RemoveFirst(ls, l);
      ApplyAll(next, cs[1..])
  }

  function Apply<L(==)>(ls: seq<L>, r: Reaction<L>): seq<L>
  {
    ApplyAll(ls, r.changes)
  }

  /** The list after the reactions of `notified`, in order, were applied to `ls`. */
  function Reacted<L(==), E>(ls: seq<L>, notified: seq<L>, react: (L, E) -> Reaction<L>, e: E): seq<L>
  {
    if notified == [] then ls
    else Apply(Reacted(ls, notified[..|notified| - 1], react, e), react(notified[|notified| - 1], e))
  }

  /** Listeners that make no change to the registry leave it unchanged. */
  lemma {:induction false} ReactedIgnore<L, E>(ls: seq<L>, notified: seq<L>, react: (L, E) -> Reaction<L>, e: E)
    requires forall i :: 0 <= i < |notified| ==> react(notified[i], e).changes == []
    ensures Reacted(ls, notified, react, e) == ls
  {
    if notified != [] {
      ReactedIgnore(ls, notified[..|notified| - 1], react, e);
    }
  }

  /**
   * The position of the first listener in `ls` that throws, or |ls| when none
   * does: every listener before it returns normally.
   */
  function FirstRaise<L, E>(ls: seq<L>, react: (L, E) -> Reaction<L>, e: E): (k: nat)
    ensures k <= |ls|
    ensures forall j :: 0 <= j < k ==> react(ls[j], e).raises.None?
    ensures k < |ls| ==> react(ls[k], e).raises.Some?
  {
    if ls == [] || react(ls[0], e).raises.Some? then 0
    else 1 + FirstRaise(ls[1..], react, e)
  }

  /** One delivery of `e` per entry of `ls`, in list order. */
  function Deliveries<L, E>(ls: seq<L>, e: E): (d: seq<(L, E)>)
    ensures |d| == |ls|
    ensures forall i :: 0 <= i < |ls| ==> d[i] == (ls[i], e)
  {
    seq(|ls|, i requires 0 <= i < |ls| => (ls[i], e))
  }

  /** Notifying one more entry of the snapshot adds its delivery and its reaction. */
  lemma NotifyOneMore<L, E>(ls: seq<L>, i: nat, react: (L, E) -> Reaction<L>, e: E)
    requires i < |ls|
    ensures Deliveries(ls[..i + 1], e) == Deliveries(ls[..i], e) + [(ls[i], e)]
    ensures Reacted(ls, ls[..i + 1], react, e) == Apply(Reacted(ls, ls[..i], react, e), react(ls[i], e))
  {
    assert ls[..i + 1][..i] == ls[..i];
  }

  class Listenable<L(==), E> {
    var listeners: seq<L>
    /** Every per-listener dispatch made so far, in order. */
    ghost var delivered: seq<(L, E)>

    constructor ()
      ensures listeners == [] && delivered == []
    {
      listeners := [];
      delivered := [];
    }

    /** `addListener`: appends, keeping duplicates. */
    method AddListener(l: L)
      modifies this
      ensures listeners == old(listeners) + [l]
      ensures delivered == old(delivered)
    {
      listeners := listeners + [l];
    }

    /** `removeListener`: removes the first equal entry only. */
    method RemoveListener(l: L)
      modifies this
      ensures listeners == RemoveFirst(old(listeners), l)
      ensures delivered == old(delivered)
    {
      listeners := RemoveFirst(listeners, l);
    }

    /**
     * `fireEvent(E)`: one dispatch per entry of the list as it was when the
     * call began, in registration order, whatever the listeners add or remove
     * meanwhile; their changes still take effect on the registry. A listener
     * that throws stops the dispatch: the listeners after it in the snapshot
     * are not notified, and its exception propagates.
     */
    method FireEvent(e: E, react: (L, E) -> Reaction<L>) returns (err: Option<Exception>)
      modifies this
      ensures var ls, k := old(listeners), FirstRaise(old(listeners), react, e);
                var reached := if k < |ls| then ls[..k + 1] else ls;
                delivered == old(delivered) + Deliveries(reached, e)
                && listeners == Reacted(ls, reached, react, e)
                && err == if k < |ls| then react(ls[k], e).raises else None
    {
      var snapshot := listeners;
      ghost var k := FirstRaise(snapshot, react, e);
      var i := 0;
      while i < |snapshot|
        invariant 0 <= i <= k
        invariant delivered == old(delivered) + Deliveries(snapshot[..i], e)
        invariant listeners == Reacted(snapshot, snapshot[..i], react, e)
      {
        var r := react(snapshot[i], e);
        NotifyOneMore(snapshot, i, react, e);
        delivered := delivered + [(snapshot[i], e)];
        listeners := Apply(listeners, r);
        i := i + 1;
        if r.raises.Some? {
          assert k == i - 1;
          return r.raises;
        }
      }
      assert k == |snapshot| && snapshot[..i] == snapshot;
      err := None;
    }
  }

  /**
   * Firing an event to listeners that return normally and leave the registry
   * alone reaches all of them and does not change the registry.
   */
  method FireWithoutReactions<L(==), E>(r: Listenable<L, E>, e: E) returns (err: Option<Exception>)
    modifies r
    ensures err.None? && r.listeners == old(r.listeners)
    ensures r.delivered == old(r.delivered) + Deliveries(old(r.listeners), e)
  {
    var quiet := (l: L, x: E) => Reaction([], None);
    err := r.FireEvent(e, quiet);
    ReactedIgnore(old(r.listeners), old(r.listeners), quiet, e);
  }
}
