/**
 * A family of kernel lists together with the container link of every item: an item is linked into
 * at most one list of the family, and its container link names that list.
 */
module Stores {
  import opened Rings

  datatype Store<L(==), T(==)> = Store(lists: map<L, Ring<T>>, container: map<T, L>) {

    predicate Linked(t: T) {
      t in container && container[t] in lists && t in lists[container[t]].items
    }

    function Items(l: L): seq<T> {
      if l in lists then lists[l].items else []
    }

    predicate In(t: T, l: L) {
      t in container && container[t] == l
    }

    /** Unlink `t` from the list that its container link names. */
    function Remove(t: T): Store<L, T> {
      if Linked(t) then Store(lists[container[t] := lists[container[t]].Remove(t)], container - {t}) else this
    }

    function InsertAt(l: L, k: nat, t: T): Store<L, T> {
      if l in lists && k <= |lists[l].items| then Store(lists[l := lists[l].InsertAt(k, t)], container[t := l]) else this
    }

    function InsertEnd(l: L, t: T): Store<L, T> {
      if l in lists && lists[l].index <= |lists[l].items| then InsertAt(l, lists[l].EndPlace(), t) else this
    }

    /** Advance the cursor of list `l`. */
    function Next(l: L): Store<L, T> {
      if l in lists && lists[l].items != [] then Store(lists[l := lists[l].Next()], container) else this
    }
  }

  /** Container links and list membership say the same thing, so the lists are disjoint. */
  ghost predicate Valid<L, T>(s: Store<L, T>) {
    && (forall l :: l in s.lists ==> s.lists[l].Valid())
    && (forall l, t :: l in s.lists && t in s.lists[l].items ==> t in s.container && s.container[t] == l)
    && (forall t :: t in s.container ==> s.Linked(t))
  }

  /** What removing `t` does. */
  ghost predicate Removed<L, T>(s: Store<L, T>, s': Store<L, T>, t: T) {
    && t in s.container && s.container[t] in s.lists
    && s'.container == s.container - {t} && s'.lists.Keys == s.lists.Keys
    && t in s.Items(s.container[t])
    && s'.Items(s.container[t]) == Without(s.Items(s.container[t]), IndexOf(s.Items(s.container[t]), t))
    && (forall m :: m in s.lists && m != s.container[t] ==> s'.lists[m] == s.lists[m])
  }

  /** What linking the free item `t` into place `k` of list `l` does. */
  ghost predicate Added<L, T>(s: Store<L, T>, s': Store<L, T>, t: T, l: L, k: nat) {
    && t !in s.container && l in s.lists
    && s'.container == s.container[t := l] && s'.lists.Keys == s.lists.Keys
    && k <= |s.Items(l)| && s'.Items(l) == With(s.Items(l), k, t)
    && (forall m :: m in s.lists && m != l ==> s'.lists[m] == s.lists[m])
  }

  lemma RemoveKeeps<L, T>(s: Store<L, T>, t: T)
    requires Valid(s) && t in s.container
    ensures Valid(s.Remove(t)) && Removed(s, s.Remove(t), t)
  {
    assert s.Linked(t);
    RemoveValid(s.lists[s.container[t]], t);
  }

  lemma InsertAtKeeps<L, T>(s: Store<L, T>, l: L, k: nat, t: T)
    requires Valid(s) && l in s.lists && k <= |s.lists[l].items| && t !in s.container
    ensures Valid(s.InsertAt(l, k, t)) && Added(s, s.InsertAt(l, k, t), t, l, k)
  {
    InsertAtValid(s.lists[l], k, t);
  }

  lemma InsertEndKeeps<L, T>(s: Store<L, T>, l: L, t: T)
    requires Valid(s) && l in s.lists && t !in s.container
    ensures Valid(s.InsertEnd(l, t)) && Added(s, s.InsertEnd(l, t), t, l, s.lists[l].EndPlace())
  {
    InsertAtKeeps(s, l, s.lists[l].EndPlace(), t);
  }

  /** Moving an item to the end of another list touches those two lists and nothing else. */
  lemma MoveLists<L, T>(s: Store<L, T>, t: T, l: L)
    requires Valid(s) && t in s.container && l in s.lists && l != s.container[t]
    ensures s.Remove(t).InsertEnd(l, t).lists ==
            s.lists[s.container[t] := s.lists[s.container[t]].Remove(t)][l := s.lists[l].InsertEnd(t)]
  {
    assert s.Linked(t) && s.lists[l].Valid();
  }

  /** Removing the head of a list leaves its tail. */
  lemma RemoveHead<T>(r: Ring<T>)
    requires r.items != []
    ensures r.Remove(r.items[0]).items == r.items[1..]
  {
  }

  /** Moving one item leaves all other items in their lists. */
  lemma Others<L, T>(s: Store<L, T>, t: T, x: T, l: L, k: nat)
    requires t != x
    ensures forall m :: s.Remove(x).In(t, m) <==> s.In(t, m)
    ensures forall m :: s.InsertAt(l, k, x).In(t, m) <==> s.In(t, m)
    ensures forall m :: s.InsertEnd(l, x).In(t, m) <==> s.In(t, m)
    ensures forall m :: s.Next(l).In(t, m) <==> s.In(t, m)
  {
    hide Ring.InsertAt, Ring.Remove, Ring.Next;
  }
}
