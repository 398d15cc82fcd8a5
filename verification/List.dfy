/** The kernel's singly linked list, kept in order by an integer key when its sorted operations are used.

  Ready list, wait queues and pending interrupts are all such lists; `SortedInsertion` is what the other
  modules use to say where a new element goes. */
module Lists {
  datatype Element<T> = Element(item: T, key: int)

  ghost predicate Sorted<T>(s: seq<Element<T>>) {
    forall i, j :: 0 <= i < j < |s| ==> s[i].key <= s[j].key
  }

  /** The position for a new key: behind every element whose key is not larger, from `i` on. */
  function Place<T>(s: seq<Element<T>>, key: int, i: nat): (p: nat)
    requires i <= |s|
    ensures i <= p <= |s|
    ensures p < |s| ==> key < s[p].key
    ensures forall j :: i <= j < p ==> s[j].key <= key
    decreases |s| - i
  {
    if i == |s| || key < s[i].key then i else Place(s, key, i + 1)
  }

  function SortedInsertion<T>(s: seq<Element<T>>, item: T, key: int): (r: seq<Element<T>>)
    ensures |r| == |s| + 1
  {
    var p := Place(s, key, 0);
    s[..p] + [Element(item, key)] + s[p..]
  }

  lemma InsertionIndex<T>(s: seq<Element<T>>, item: T, key: int)
    ensures var p, r := Place(s, key, 0), SortedInsertion(s, item, key);
            forall i :: 0 <= i < |r| ==> r[i] == if i < p then s[i] else if i == p then Element(item, key) else s[i - 1]
  {}

  /** Insertion keeps the order, adds exactly one element, and queues it behind its equals. */
  lemma InsertionKeepsOrder<T>(s: seq<Element<T>>, item: T, key: int)
    requires Sorted(s)
    ensures Sorted(SortedInsertion(s, item, key))
    ensures multiset(SortedInsertion(s, item, key)) == multiset(s) + multiset{Element(item, key)}
    ensures forall j :: Place(s, key, 0) <= j < |s| ==> key < s[j].key
  {
    var p, r := Place(s, key, 0), SortedInsertion(s, item, key);
    forall j | p <= j < |s|
      ensures key < s[j].key
    {
      assert s[p].key <= s[j].key;
    }
    assert forall j :: 0 <= j < |r| ==> r[j] == if j < p then s[j] else if j == p then Element(item, key) else s[j - 1];
    SplitMultiset(s, p);
  }

  lemma SplitMultiset<T>(s: seq<Element<T>>, p: nat)
    requires p <= |s|
    ensures multiset(s) == multiset(s[..p]) + multiset(s[p..])
  {
    assert s == s[..p] + s[p..];
  }

  lemma {:induction false} PlaceIs<T>(s: seq<Element<T>>, key: int, i: nat, p: nat)
    requires i <= p <= |s|
    requires p < |s| ==> key < s[p].key
    requires forall j :: i <= j < p ==> s[j].key <= key
    ensures Place(s, key, i) == p
    decreases p - i
  {
    if i < p {
      PlaceIs(s, key, i + 1, p);
    }
  }

  lemma InsertionAt<T>(s: seq<Element<T>>, item: T, key: int, p: nat)
    requires p <= |s| && (p < |s| ==> key < s[p].key)
    requires forall j :: 0 <= j < p ==> s[j].key <= key
    ensures SortedInsertion(s, item, key) == s[..p] + [Element(item, key)] + s[p..]
    ensures p == 0 ==> SortedInsertion(s, item, key) == [Element(item, key)] + s
    ensures p == |s| ==> SortedInsertion(s, item, key) == s + [Element(item, key)]
  {
    PlaceIs(s, key, 0, p);
  }

  class ListElement<T> {
    const item: T
    const key: int
    var next: ListElement?<T>

    constructor (item: T, key: int)
      ensures this.item == item && this.key == key && next == null
    {
      this.item := item;
      this.key := key;
      next := null;
    }
  }

  class List<T> {
    var first: ListElement?<T>
    var last: ListElement?<T>
    /** The nodes on the list, front to back. */
    ghost var spine: seq<ListElement<T>>

    ghost predicate Valid()
      reads this, spine
    {
      && (spine == [] <==> first == null)
      && (spine == [] <==> last == null)
      && (spine != [] ==> first == spine[0] && last == spine[|spine| - 1] && last.next == null)
      && (forall i :: 0 <= i < |spine| - 1 ==> spine[i].next == spine[i + 1])
      && (forall i, j :: 0 <= i < j < |spine| ==> spine[i] != spine[j])
    }

    ghost function Contents(): (c: seq<Element<T>>)
      reads this
      ensures |c| == |spine|
    {
      seq(|spine|, i requires 0 <= i < |spine| reads this => Element(spine[i].item, spine[i].key))
    }

    lemma OnlyTheLastHasNoNext(i: nat)
      requires Valid() && i < |spine|
      ensures spine[i].next == null <==> i == |spine| - 1
    {
      if i < |spine| - 1 {
        assert spine[i].next == spine[i + 1];
      }
    }

    constructor ()
      ensures Valid() && Contents() == [] && spine == []
    {
      first, last, spine := null, null, [];
    }

    predicate IsEmpty()
      reads this
    {
      first == null
    }

    method Append(item: T)
      requires Valid()
      modifies this, spine
      ensures Valid() && fresh(set n | n in spine && n !in old(spine))
      ensures Contents() == old(Contents()) + [Element(item, 0)]
    {
      var element := new ListElement(item, 0);
      if IsEmpty() {
        first, last := element, element;
      } else {
        last.next := element;
        last := element;
      }
      spine := spine + [element];
    }

    method Prepend(item: T)
      requires Valid()
      modifies this, spine
      ensures Valid() && fresh(set n | n in spine && n !in old(spine))
      ensures Contents() == [Element(item, 0)] + old(Contents())
    {
      var element := new ListElement(item, 0);
      if IsEmpty() {
        first, last := element, element;
      } else {
        element.next := first;
        first := element;
      }
      spine := [element] + spine;
    }

    method SortedInsert(item: T, sortKey: int)
      requires Valid()
      modifies this, spine
      ensures Valid() && fresh(set n | n in spine && n !in old(spine))
      ensures Contents() == SortedInsertion(old(Contents()), item, sortKey)
    {
      var element := new ListElement(item, sortKey);
      ghost var c := Contents();
      if IsEmpty() {
        first, last := element, element;
        spine := [element];
        InsertionAt(c, item, sortKey, 0);
      } else if sortKey < first.key {
        InsertionAt(c, item, sortKey, 0);
        PutFirst(element);
      } else {
        PutInside(element);
      }
    }

    /** SortedInsert when the element does not belong in front. */
    method PutInside(element: ListElement<T>)
      requires Valid() && spine != [] && first.key <= element.key && element !in spine && element.next == null
      modifies this, spine, element
      ensures Valid() && forall n :: n in spine ==> n == element || n in old(spine)
      ensures Contents() == SortedInsertion(old(Contents()), element.item, element.key)
    {
      ghost var c := Contents();
      var ptr, i := LastNotAbove(element.key);
      assert c == Contents();
      assert forall j :: 0 <= j <= i ==> c[j].key <= element.key;
      InsertionAt(c, element.item, element.key, i + 1);
      if ptr.next != null {
        PutAfter(element, ptr, i);
      } else {
        PutLast(element);
      }
    }

    /** The walk of SortedInsert: stops in front of the first element with a larger key, or at the end. */
    method LastNotAbove(sortKey: int) returns (ptr: ListElement<T>, ghost i: nat)
      requires Valid() && spine != [] && first.key <= sortKey
      ensures i < |spine| && ptr == spine[i] && (ptr.next == null <==> i == |spine| - 1)
      ensures forall j :: 0 <= j <= i ==> Contents()[j].key <= sortKey
      ensures i + 1 < |spine| ==> sortKey < Contents()[i + 1].key
    {
      ptr, i := first, 0;
      OnlyTheLastHasNoNext(0);
      while ptr.next != null && ptr.next.key <= sortKey
        invariant 0 <= i < |spine| && ptr == spine[i] && (ptr.next == null <==> i == |spine| - 1)
        invariant forall j :: 0 <= j <= i ==> spine[j].key <= sortKey
        decreases |spine| - i
      {
        ptr := ptr.next;
        i := i + 1;
        OnlyTheLastHasNoNext(i);
      }
    }

    method PutFirst(element: ListElement<T>)
      requires Valid() && spine != [] && element !in spine && element.next == null
      modifies this, element
      ensures Valid() && spine == [element] + old(spine)
      ensures Contents() == [Element(element.item, element.key)] + old(Contents())
    {
      element.next := first;
      first := element;
      spine := [element] + spine;
    }

    method PutAfter(element: ListElement<T>, ptr: ListElement<T>, ghost i: nat)
      requires Valid() && i + 1 < |spine| && ptr == spine[i] && element !in spine && element.next == null
      modifies this, ptr, element
      ensures Valid() && spine == old(spine)[..i + 1] + [element] + old(spine)[i + 1..]
      ensures Contents() == old(Contents())[..i + 1] + [Element(element.item, element.key)] + old(Contents())[i + 1..]
    {
      element.next := ptr.next;
      ptr.next := element;
      spine := spine[..i + 1] + [element] + spine[i + 1..];
    }

    method PutLast(element: ListElement<T>)
      requires Valid() && spine != [] && element !in spine && element.next == null
      modifies this, last
      ensures Valid() && spine == old(spine) + [element]
      ensures Contents() == old(Contents()) + [Element(element.item, element.key)]
    {
      last.next := element;
      last := element;
      spine := spine + [element];
    }

    /** Takes the front element off; false when there is none. */
    method SortedRemove() returns (found: bool, element: Element?<T>)
      requires Valid()
      modifies this
      ensures Valid() && spine == (if old(spine) == [] then [] else old(spine)[1..])
      ensures found <==> old(Contents()) != []
      ensures !found ==> Contents() == [] && element == Nothing
      ensures found ==> old(Contents()) != [] && element == Front(old(Contents())[0])
      ensures found ==> Contents() == old(Contents())[1..]
    {
      if IsEmpty() {
        return false, Nothing;
      }
      var e := first;
      if first == last {
        first, last := null, null;
      } else {
        first := e.next;
      }
      spine := spine[1..];
      return true, Front(Element(e.item, e.key));
    }
  }

  datatype Element?<T> = Nothing | Front(front: Element<T>)
}
