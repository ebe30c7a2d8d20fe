/** `CloudEventBatch.from`: a batch that is a live view of a collection of events. Every
    query and every mutation is forwarded to the wrapped collection, so a change made
    through the batch shows in the collection and the other way round. The collection the
    deserializer wraps is an `ArrayList`, modelled here as `EventList` over a `seq`. */
module Batch {
  import opened Wrappers
  import V1

  type Event = V1.CloudEventV1

  /** `s` without its first occurrence of `x` (all of `s` when there is none). */
  function RemoveFirst(s: seq<Event>, x: Event): seq<Event> {
    if s == [] then []
    else if s[0] == x then s[1..]
    else [s[0]] + RemoveFirst(s[1..], x)
  }

  /** The elements of `s` whose membership in `c` is `keep`, in their order in `s`:
      `retainAll(c)` keeps `Filter(s, c, true)`, `removeAll(c)` keeps `Filter(s, c, false)`. */
  function Filter(s: seq<Event>, c: seq<Event>, keep: bool): seq<Event> {
    if s == [] then []
    else Filter(s[..|s| - 1], c, keep) + (if (s[|s| - 1] in c) == keep then [s[|s| - 1]] else [])
  }

  /** Removing the first occurrence found at index `i` is `RemoveFirst`. */
  lemma {:induction false} RemoveFirstAt(s: seq<Event>, x: Event, i: nat)
    requires i < |s| && s[i] == x && x !in s[..i]
    ensures RemoveFirst(s, x) == s[..i] + s[i + 1..]
  {
    if i > 0 {
      assert s[1..][..i - 1] == s[1..i];
      assert x !in s[1..][..i - 1];
      RemoveFirstAt(s[1..], x, i - 1);
      assert s[1..][i..] == s[i + 1..];
      assert s[..i] == [s[0]] + s[1..i];
    }
  }

  /** `remove(o)` takes away exactly one occurrence when there is one, and nothing otherwise. */
  lemma {:induction false} RemoveFirstRemovesOne(s: seq<Event>, x: Event)
    ensures x !in s ==> RemoveFirst(s, x) == s
    ensures x in s ==> |RemoveFirst(s, x)| == |s| - 1
    ensures multiset(RemoveFirst(s, x)) == multiset(s) - multiset{x}
  {
    if s != [] {
      assert s == [s[0]] + s[1..];
      assert multiset(s) == multiset{s[0]} + multiset(s[1..]);
      if s[0] == x {
        assert multiset(s) - multiset{x} == multiset(s[1..]);
      } else {
        RemoveFirstRemovesOne(s[1..], x);
        var r := RemoveFirst(s[1..], x);
        assert RemoveFirst(s, x) == [s[0]] + r;
        assert multiset(RemoveFirst(s, x)) == multiset{s[0]} + multiset(r);
        assert x in s ==> x in s[1..];
      }
    }
  }

  /** Filtering distributes over concatenation: it keeps the relative order of what it keeps. */
  lemma {:induction false} FilterAppend(s: seq<Event>, t: seq<Event>, c: seq<Event>, keep: bool)
    ensures Filter(s + t, c, keep) == Filter(s, c, keep) + Filter(t, c, keep)
    decreases |t|
  {
    if t == [] {
      assert s + t == s;
    } else {
      var t' := t[..|t| - 1];
      assert (s + t)[..|s + t| - 1] == s + t';
      assert (s + t)[|s + t| - 1] == t[|t| - 1];
      FilterAppend(s, t', c, keep);
    }
  }

  /** What filtering keeps: every element whose membership in `c` is `keep`, as many times as
      it occurs in `s`, and nothing else. */
  lemma {:induction false} FilterCounts(s: seq<Event>, c: seq<Event>, keep: bool)
    ensures forall x :: multiset(Filter(s, c, keep))[x] == if (x in c) == keep then multiset(s)[x] else 0
    ensures forall x :: x in Filter(s, c, keep) <==> x in s && (x in c) == keep
  {
    if s != [] {
      var init := s[..|s| - 1];
      FilterCounts(init, c, keep);
      assert s == init + [s[|s| - 1]];
      assert multiset(s) == multiset(init) + multiset{s[|s| - 1]};
      forall x ensures x in Filter(s, c, keep) <==> x in s && (x in c) == keep {
        assert x in Filter(s, c, keep) <==> multiset(Filter(s, c, keep))[x] > 0;
        assert x in s <==> multiset(s)[x] > 0;
      }
    }
  }

  /** `retainAll(c)` and `removeAll(c)` split the list between them. */
  lemma RetainAndRemovePartition(s: seq<Event>, c: seq<Event>)
    ensures multiset(Filter(s, c, true)) + multiset(Filter(s, c, false)) == multiset(s)
  {
    FilterCounts(s, c, true);
    FilterCounts(s, c, false);
  }

  /** The `ArrayList<CloudEvent>` a batch wraps. Element comparisons use `equals`, which for
      events is value equality (`V1.EqualsIsStructural`). */
  class EventList {
    var elements: seq<Event>

    constructor ()
      ensures elements == []
    {
      elements := [];
    }

    method Size() returns (n: int)
      ensures n == |elements|
    {
      n := |elements|;
    }

    method IsEmpty() returns (empty: bool)
      ensures empty <==> |elements| == 0
    {
      empty := |elements| == 0;
    }

    /** `indexOf(o)`: the first index holding an element equal to `o`, or -1. */
    method IndexOf(o: Event) returns (index: int)
      ensures -1 <= index < |elements|
      ensures index == -1 <==> o !in elements
      ensures index >= 0 ==> elements[index] == o && o !in elements[..index]
    {
      var i := 0;
      while i < |elements|
        invariant 0 <= i <= |elements|
        invariant o !in elements[..i]
      {
        V1.EqualsIsStructural(o, elements[i]);
        if V1.Equals(o, SameClass(elements[i])) {
          return i;
        }
        assert elements[..i + 1] == elements[..i] + [elements[i]];
        i := i + 1;
      }
      assert elements[..i] == elements;
      index := -1;
    }

    method Contains(o: Event) returns (found: bool)
      ensures found <==> o in elements
    {
      var index := IndexOf(o);
      found := index >= 0;
    }

    /** `containsAll(c)`: every element of `c` is in the list. */
    method ContainsAll(c: seq<Event>) returns (all: bool)
      ensures all <==> forall x :: x in c ==> x in elements
    {
      var i := 0;
      while i < |c|
        invariant 0 <= i <= |c|
        invariant forall k :: 0 <= k < i ==> c[k] in elements
      {
        var found := Contains(c[i]);
        if !found {
          return false;
        }
        i := i + 1;
      }
      all := true;
    }

    /** `add(e)`: append; an `ArrayList` always reports a change. */
    method Add(e: Event) returns (changed: bool)
      modifies this
      ensures elements == old(elements) + [e]
      ensures changed
    {
      elements := elements + [e];
      changed := true;
    }

    /** `remove(o)`: drop the first element equal to `o`; report whether there was one. */
    method Remove(o: Event) returns (changed: bool)
      modifies this
      ensures changed <==> o in old(elements)
      ensures elements == RemoveFirst(old(elements), o)
    {
      var index := IndexOf(o);
      if index < 0 {
        RemoveFirstRemovesOne(elements, o);
        return false;
      }
      RemoveFirstAt(elements, o, index);
      elements := elements[..index] + elements[index + 1..];
      changed := true;
    }

    /** `addAll(c)`: append the elements of `c` in order; a change iff `c` is not empty. */
    method AddAll(c: seq<Event>) returns (changed: bool)
      modifies this
      ensures elements == old(elements) + c
      ensures changed <==> c != []
    {
      elements := elements + c;
      changed := |c| != 0;
    }

    /** `batchRemove(c, complement)`: keep, in order, the elements whose membership in `c`
        equals `complement`; report whether the size changed. */
    method BatchRemove(c: seq<Event>, complement: bool) returns (modified: bool)
      modifies this
      ensures elements == Filter(old(elements), c, complement)
      ensures modified <==> |elements| != |old(elements)|
    {
      var kept: seq<Event> := [];
      var r := 0;
      while r < |elements|
        invariant 0 <= r <= |elements|
        invariant kept == Filter(elements[..r], c, complement)
      {
        assert elements[..r + 1][..r] == elements[..r];
        if (elements[r] in c) == complement {
          kept := kept + [elements[r]];
        }
        r := r + 1;
      }
      assert elements[..r] == elements;
      modified := |kept| != |elements|;
      elements := kept;
    }

    method RemoveAll(c: seq<Event>) returns (modified: bool)
      modifies this
      ensures elements == Filter(old(elements), c, false)
      ensures modified <==> |elements| != |old(elements)|
    {
      modified := BatchRemove(c, false);
    }

    method RetainAll(c: seq<Event>) returns (modified: bool)
      modifies this
      ensures elements == Filter(old(elements), c, true)
      ensures modified <==> |elements| != |old(elements)|
    {
      modified := BatchRemove(c, true);
    }

    method Clear()
      modifies this
      ensures elements == []
    {
      elements := [];
    }

    /** `toArray()`: a new array with the elements in order. */
    method ToArray() returns (a: array<Event>)
      ensures fresh(a) && a[..] == elements
    {
      a := new Event[|elements|](i requires 0 <= i < |elements| reads this => elements[i]);
    }

    method Iterator() returns (it: ListIterator)
      ensures fresh(it) && it.list == this && it.cursor == 0
    {
      it := new ListIterator(this);
    }
  }

  /** The list's iterator: a cursor that walks the elements in order. */
  class ListIterator {
    const list: EventList
    var cursor: nat

    constructor (list: EventList)
      ensures this.list == list && cursor == 0
    {
      this.list := list;
      cursor := 0;
    }

    method HasNext() returns (more: bool)
      ensures more <==> cursor < |list.elements|
    {
      more := cursor < |list.elements|;
    }

    method Next() returns (e: Event)
      requires cursor < |list.elements|
      modifies this
      ensures e == list.elements[old(cursor)] && cursor == old(cursor) + 1
    {
      e := list.elements[cursor];
      cursor := cursor + 1;
    }
  }

  /** The anonymous class `from` returns: it holds the wrapped list and forwards to it. */
  class CloudEventBatch {
    const events: EventList

    constructor (events: EventList)
      ensures this.events == events
    {
      this.events := events;
    }

    /** `from(events)`: a view of `events`, not a copy. */
    static method From(events: EventList) returns (batch: CloudEventBatch)
      ensures fresh(batch) && batch.events == events
    {
      batch := new CloudEventBatch(events);
    }

    method Size() returns (n: int)
      ensures n == |events.elements|
    {
      n := events.Size();
    }

    method IsEmpty() returns (empty: bool)
      ensures empty <==> |events.elements| == 0
    {
      empty := events.IsEmpty();
    }

    method Contains(o: Event) returns (found: bool)
      ensures found <==> o in events.elements
    {
      found := events.Contains(o);
    }

    method ContainsAll(c: seq<Event>) returns (all: bool)
      ensures all <==> forall x :: x in c ==> x in events.elements
    {
      all := events.ContainsAll(c);
    }

    /** `iterator()`: the wrapped list's own iterator. */
    method Iterator() returns (it: ListIterator)
      ensures fresh(it) && it.list == events && it.cursor == 0
    {
      it := events.Iterator();
    }

    method ToArray() returns (a: array<Event>)
      ensures fresh(a) && a[..] == events.elements
    {
      a := events.ToArray();
    }

    method Add(e: Event) returns (changed: bool)
      modifies events
      ensures events.elements == old(events.elements) + [e] && changed
    {
      changed := events.Add(e);
    }

    method Remove(o: Event) returns (changed: bool)
      modifies events
      ensures changed <==> o in old(events.elements)
      ensures events.elements == RemoveFirst(old(events.elements), o)
    {
      changed := events.Remove(o);
    }

    method AddAll(c: seq<Event>) returns (changed: bool)
      modifies events
      ensures events.elements == old(events.elements) + c
      ensures changed <==> c != []
    {
      changed := events.AddAll(c);
    }

    method RemoveAll(c: seq<Event>) returns (modified: bool)
      modifies events
      ensures events.elements == Filter(old(events.elements), c, false)
      ensures modified <==> |events.elements| != |old(events.elements)|
    {
      modified := events.RemoveAll(c);
    }

    method RetainAll(c: seq<Event>) returns (modified: bool)
      modifies events
      ensures events.elements == Filter(old(events.elements), c, true)
      ensures modified <==> |events.elements| != |old(events.elements)|
    {
      modified := events.RetainAll(c);
    }

    method Clear()
      modifies events
      ensures events.elements == []
    {
      events.Clear();
    }
  }

  /** The batch is a view: a change made through it is seen by a holder of the list, and a
      change made to the list is seen through the batch. */
  method ViewWritesThrough(list: EventList, e: Event) returns (batch: CloudEventBatch, sizeAfter: int)
    modifies list
    ensures list.elements == old(list.elements) + [e, e]
    ensures sizeAfter == |old(list.elements)| + 2
  {
    batch := CloudEventBatch.From(list);
    var _ := batch.Add(e);
    var _ := list.Add(e);
    sizeAfter := batch.Size();
  }
}
