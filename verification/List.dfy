/** The kernel's intrusive doubly linked list: every element carries its own
    links, and each list owns a head and a tail sentinel. */
module Lists {
  import opened Sequences

  class ListElem {
    var prev: ListElem?
    var next: ListElem?

    constructor ()
      ensures prev == null && next == null
    {
      prev, next := null, null;
    }

    predicate Unlinked()
      reads this
    {
      prev == null && next == null
    }
  }

  /** The chain is linked both ways and its two ends point nowhere. */
  ghost predicate Chained(chain: seq<ListElem>)
    reads chain
  {
    && |chain| >= 2
    && (forall i, j :: 0 <= i < j < |chain| ==> chain[i] != chain[j])
    && (forall i :: 0 <= i < |chain| - 1 ==> chain[i].next == chain[i + 1])
    && (forall i :: 0 < i < |chain| ==> chain[i].prev == chain[i - 1])
    && chain[0].prev == null && chain[|chain| - 1].next == null
  }

  /** list_insert_before, for a list element anywhere in a chain. */
  method InsertBefore(before: ListElem, elem: ListElem, ghost chain: seq<ListElem>, ghost at: nat)
    requires Chained(chain) && 0 < at < |chain| && before == chain[at] && elem !in chain
    modifies before, elem, chain[at - 1]
    ensures Chained(chain[..at] + [elem] + chain[at..])
  {
    elem.prev := before.prev;
    elem.next := before;
    before.prev := elem;
    elem.prev.next := elem;
  }

  /** list_remove: an element with a null link (a sentinel, or an element on no
      list) is left alone. */
  method RemoveElem(elem: ListElem, ghost chain: seq<ListElem>, ghost at: nat)
    requires Chained(chain) && (if at < |chain| then elem == chain[at] else elem.Unlinked() && elem !in chain)
    modifies elem, chain
    ensures at == 0 || at >= |chain| - 1 ==> unchanged(elem) && unchanged(chain)
    ensures 0 < at < |chain| - 1 ==> elem.Unlinked() && Chained(chain[..at] + chain[at + 1..])
  {
    assert 0 < at < |chain| - 1 ==> elem.prev == chain[at - 1] && elem.next == chain[at + 1];
    if elem.prev == null || elem.next == null {
      return;
    }
    elem.prev.next := elem.next;
    elem.next.prev := elem.prev;
    elem.prev, elem.next := null, null;
  }

  class List {
    const head: ListElem
    const tail: ListElem
    /** The elements in order, without the sentinels. */
    ghost var elems: seq<ListElem>

    ghost function Chain(): seq<ListElem>
      reads this
    {
      [head] + elems + [tail]
    }

    /** Every element the list's links live in, sentinels included. */
    ghost function Nodes(): set<ListElem>
      reads this
    {
      set e | e in Chain()
    }

    ghost predicate Valid()
      reads this, Nodes()
    {
      Chained(Chain())
    }

    constructor ()
      ensures Valid() && elems == [] && fresh(head) && fresh(tail)
    {
      head := new ListElem();
      tail := new ListElem();
      elems := [];
      new;
      head.next := tail;
      tail.prev := head;
    }

    method Push(elem: ListElem)
      requires Valid() && elem !in Chain()
      modifies this, elem, Nodes()
      ensures Valid() && elems == [elem] + old(elems) && Nodes() == old(Nodes()) + {elem}
    {
      assert head == Chain()[0] && head.next == Chain()[1];
      InsertBefore(head.next, elem, Chain(), 1);
      assert Chain()[..1] + [elem] + Chain()[1..] == [head] + ([elem] + elems) + [tail];
      elems := [elem] + elems;
    }

    method Append(elem: ListElem)
      requires Valid() && elem !in Chain()
      modifies this, elem, Nodes()
      ensures Valid() && elems == old(elems) + [elem] && Nodes() == old(Nodes()) + {elem}
    {
      var at := |elems| + 1;
      InsertBefore(tail, elem, Chain(), at);
      assert Chain()[..at] + [elem] + Chain()[at..] == [head] + (elems + [elem]) + [tail];
      elems := elems + [elem];
    }

    /** list_remove, of an element at a known place.  The tail sentinel is left
        alone. */
    method Remove(elem: ListElem, ghost at: nat)
      requires Valid() && (if at < |elems| then elem == elems[at] else elem == tail)
      modifies this, Nodes()
      ensures Valid()
      ensures elems == if at < |old(elems)| then Without(old(elems), elem) else old(elems)
      ensures at < |old(elems)| ==> elem.Unlinked() && Nodes() == old(Nodes()) - {elem}
      ensures at >= |old(elems)| ==> unchanged(old(Nodes()))
    {
      if at < |elems| { WithoutElem(Chain(), head, elems, tail, at); }
      Unlink(elem, at);
    }

    /** Its neighbours close up. */
    method Unlink(elem: ListElem, ghost at: nat)
      requires Valid() && (if at < |elems| then elem == elems[at] else elem == tail)
      modifies this, Nodes()
      ensures Valid()
      ensures at < |old(elems)| ==>
                && elems == old(elems[..at] + elems[at + 1..])
                && elem.Unlinked() && Nodes() == old(Nodes()) - {elem}
      ensures at >= |old(elems)| ==> elems == old(elems) && unchanged(old(Nodes()))
    {
      ghost var chain := Chain();
      ghost var place, rest := |elems| + 1, elems;
      if at < |elems| {
        OneGone(chain, head, elems, tail, at);
        place, rest := at + 1, elems[..at] + elems[at + 1..];
      }
      assert elem == chain[place];
      RemoveElem(elem, chain, place);
      elems := rest;
    }

    /** On an empty list the pop hands back the tail sentinel and changes
        nothing. */
    method Pop() returns (elem: ListElem)
      requires Valid()
      modifies this, Nodes()
      ensures Valid()
      ensures old(elems) == [] ==> elem == tail && elems == [] && unchanged(old(Nodes()))
      ensures old(elems) != [] ==>
                elem == old(elems[0]) && elems == old(elems[1..]) && elem.Unlinked()
                && Nodes() == old(Nodes()) - {elem}
    {
      assert head == Chain()[0] && head.next == Chain()[1];
      elem := head.next;
      Unlink(elem, 0);
    }

    /** The search runs on to the tail sentinel, and so finds that too. */
    method Find(obj: ListElem) returns (found: bool)
      requires Valid()
      ensures found <==> obj in elems || obj == tail
    {
      ghost var i := 1;
      var elem: ListElem? := head.next;
      while elem != null
        invariant 1 <= i <= |Chain()|
        invariant i < |Chain()| ==> elem == Chain()[i]
        invariant i == |Chain()| ==> elem == null
        invariant forall k :: 1 <= k < i ==> Chain()[k] != obj
        decreases |Chain()| - i
      {
        if elem == obj {
          return true;
        }
        elem := elem.next;
        i := i + 1;
      }
      assert forall k :: 0 <= k < |elems| ==> Chain()[k + 1] == elems[k];
      assert Chain()[|elems| + 1] == tail;
      return false;
    }

    method Len() returns (length: nat)
      requires Valid()
      ensures length == |elems|
    {
      var elem: ListElem? := head.next;
      length := 0;
      while elem != tail
        invariant length <= |elems| && elem == Chain()[length + 1]
        decreases |elems| - length
      {
        length := length + 1;
        elem := elem.next;
      }
    }

    method Empty() returns (empty: bool)
      requires Valid()
      ensures empty <==> elems == []
    {
      assert Chain()[1].next == if |elems| == 0 then null else Chain()[2];
      empty := head.next.next == null;
    }
  }

  /** A chain without one of its elements, as a sequence and as a set. */
  lemma OneGone(chain: seq<ListElem>, head: ListElem, elems: seq<ListElem>, tail: ListElem, at: nat)
    requires at < |elems| && chain == [head] + elems + [tail]
    requires forall i, j :: 0 <= i < j < |chain| ==> chain[i] != chain[j]
    ensures var rest := [head] + (elems[..at] + elems[at + 1..]) + [tail];
            && rest == chain[..at + 1] + chain[at + 2..]
            && (set e | e in rest) == (set e | e in chain) - {elems[at]}
  {
    var rest := [head] + (elems[..at] + elems[at + 1..]) + [tail];
    assert forall i :: 0 <= i < |rest| ==> rest[i] == if i <= at then chain[i] else chain[i + 1];
    var x := elems[at];
    assert chain[at + 1] == x;
    forall e | e in rest
      ensures e in chain && e != x
    {
      var i :| 0 <= i < |rest| && rest[i] == e;
      assert e == chain[if i <= at then i else i + 1];
    }
    forall e | e in chain && e != x
      ensures e in rest
    {
      var i :| 0 <= i < |chain| && chain[i] == e;
      assert rest[if i <= at then i else i - 1] == e;
    }
  }

  lemma WithoutElem(chain: seq<ListElem>, head: ListElem, elems: seq<ListElem>, tail: ListElem, at: nat)
    requires at < |elems| && chain == [head] + elems + [tail]
    requires forall i, j :: 0 <= i < j < |chain| ==> chain[i] != chain[j]
    ensures elems[..at] + elems[at + 1..] == Without(elems, elems[at])
  {
    ElemsOnce(chain, head, elems, tail);
    WithoutAt(elems, at);
  }

  lemma ElemsOnce(chain: seq<ListElem>, head: ListElem, elems: seq<ListElem>, tail: ListElem)
    requires chain == [head] + elems + [tail] && forall i, j :: 0 <= i < j < |chain| ==> chain[i] != chain[j]
    ensures NoDup(elems)
  {
    forall i, j | 0 <= i < j < |elems|
      ensures elems[i] != elems[j]
    {
      assert chain[i + 1] == elems[i] && chain[j + 1] == elems[j];
    }
  }

  /** The list work of a wake-up: the first waiter moves to the front of a
      ready list.  Two lists that share no element do not disturb each other. */
  method WakeFirst(waiters: List, ready: List)
    requires waiters != ready && waiters.Valid() && ready.Valid() && waiters.elems != []
    requires waiters.Nodes() !! ready.Nodes()
    modifies waiters, ready, waiters.Nodes(), ready.Nodes()
    ensures waiters.Valid() && ready.Valid() && waiters.Nodes() !! ready.Nodes()
    ensures waiters.elems == old(waiters.elems[1..])
    ensures ready.elems == old([waiters.elems[0]] + ready.elems)
  {
    assert waiters.elems[0] in waiters.Nodes();
    var elem := waiters.Pop();
    assert ready.Valid() && elem !in ready.Nodes();
    ready.Push(elem);
  }
}
