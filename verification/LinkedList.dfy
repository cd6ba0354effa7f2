/**
 Singly linked lists, relinked in place. The flush queue, the pending-call
 list, the call-id queue and the two receive contexts are all lists of this
 shape and differ only in where they insert and remove.
 */
module LinkedLists {
  import opened Memory

  class Node<T> {
    const item: T
    var next: Node?<T>

    constructor (item: T)
      ensures this.item == item && next == null
    {
      this.item := item;
      next := null;
    }
  }

  /** `s` with element `i` taken out. */
  function Without<T>(s: seq<T>, i: nat): (r: seq<T>)
    requires i < |s|
    ensures |r| == |s| - 1
  {
    s[..i] + s[i + 1..]
  }

  /** The index of the first element with the given key, or the length when there is none. */
  function IndexOf<T>(s: seq<T>, key: T -> int, id: int): (i: nat)
    ensures i <= |s|
    ensures i < |s| ==> key(s[i]) == id
    ensures forall k :: 0 <= k < i ==> key(s[k]) != id
  {
    if s == [] then 0
    else if key(s[0]) == id then 0
    else 1 + IndexOf(s[1..], key, id)
  }

  /** The index of the first element whose key exceeds `id`, or the length when there is none. */
  function Position<T>(s: seq<T>, key: T -> int, id: int): (i: nat)
    ensures i <= |s|
  {
    if s == [] then 0
    else if id < key(s[0]) then 0
    else 1 + Position(s[1..], key, id)
  }

  lemma {:induction false} PositionMeans<T>(s: seq<T>, key: T -> int, id: int)
    ensures var i := Position(s, key, id);
      && (i < |s| ==> id < key(s[i]))
      && forall k :: 0 <= k < i ==> key(s[k]) <= id
  {
    if s != [] && id >= key(s[0]) {
      PositionMeans(s[1..], key, id);
    }
  }

  lemma IndexOfIs<T>(s: seq<T>, key: T -> int, id: int, i: nat)
    requires i <= |s| && (i < |s| ==> key(s[i]) == id)
    requires forall k :: 0 <= k < i ==> key(s[k]) != id
    ensures IndexOf(s, key, id) == i
  {
  }

  lemma PositionIs<T>(s: seq<T>, key: T -> int, id: int, i: nat)
    requires i <= |s| && (i < |s| ==> id < key(s[i]))
    requires forall k :: 0 <= k < i ==> key(s[k]) <= id
    ensures Position(s, key, id) == i
  {
    PositionMeans(s, key, id);
  }

  /** A sorted list after an element went in behind all elements with keys up to its own. */
  function Insert<T>(s: seq<T>, key: T -> int, x: T): (r: seq<T>)
    ensures |r| == |s| + 1
  {
    var i := Position(s, key, key(x));
    s[..i] + [x] + s[i..]
  }

  lemma InsertAdds<T>(s: seq<T>, key: T -> int, x: T)
    ensures multiset(Insert(s, key, x)) == multiset(s) + multiset{x}
  {
    var i := Position(s, key, key(x));
    assert s == s[..i] + s[i..];
  }

  ghost predicate Sorted<T>(s: seq<T>, key: T -> int) {
    forall i, j :: 0 <= i < j < |s| ==> key(s[i]) <= key(s[j])
  }

  lemma InsertKeepsSorted<T>(s: seq<T>, key: T -> int, x: T)
    requires Sorted(s, key)
    ensures Sorted(Insert(s, key, x), key)
  {
    PositionMeans(s, key, key(x));
    var i := Position(s, key, key(x));
    var r := Insert(s, key, x);
    forall a, b | 0 <= a < b < |r|
      ensures key(r[a]) <= key(r[b])
    {
      assert r[b] == if b < i then s[b] else if b == i then x else s[b - 1];
      assert i < |s| ==> forall k :: i <= k < |s| ==> key(s[i]) <= key(s[k]);
    }
  }

  lemma WithoutKeepsSorted<T>(s: seq<T>, key: T -> int, i: nat)
    requires Sorted(s, key) && i < |s|
    ensures Sorted(Without(s, i), key)
  {
  }

  /** The early exit is right: past the first larger key a sorted list cannot hold `id`. */
  lemma AbsentFromSorted<T>(s: seq<T>, key: T -> int, id: int, i: nat)
    requires Sorted(s, key) && i < |s| && id < key(s[i])
    requires forall k :: 0 <= k < i ==> key(s[k]) != id
    ensures IndexOf(s, key, id) == |s|
  {
    forall k | 0 <= k < |s|
      ensures key(s[k]) != id
    {
      if i < k {
        assert key(s[i]) <= key(s[k]);
      }
    }
  }

  class LinkedList<T> {
    var head: Node?<T>
    ghost var nodes: seq<Node<T>>
    /** All nodes the list ever had. */
    ghost var repr: set<Node<T>>

    ghost predicate Valid()
      reads this, repr
    {
      && (forall i :: 0 <= i < |nodes| ==> nodes[i] in repr)
      && head == Link(0)
      && (forall i, j :: 0 <= i && j == i + 1 < |nodes| ==> nodes[i].next == nodes[j])
      && (nodes != [] ==> nodes[|nodes| - 1].next == null)
      && (forall i, j :: 0 <= i < j < |nodes| ==> nodes[i] != nodes[j])
    }

    /** The node at index `i`, or null at the end. */
    ghost function Link(i: nat): Node?<T>
      reads this
    {
      if i < |nodes| then nodes[i] else null
    }

    ghost function Items(): (s: seq<T>)
      reads this
      ensures |s| == |nodes|
    {
      var ns := nodes;
      seq(|ns|, i requires 0 <= i < |ns| => ns[i].item)
    }

    constructor ()
      ensures Valid() && Items() == [] && repr == {}
    {
      head := null;
      nodes, repr := [], {};
    }

    /** Walks to the last node and links `x` behind it. */
    method Append(x: T)
      requires Valid()
      modifies this, repr
      ensures Valid() && fresh(repr - old(repr))
      ensures Items() == old(Items()) + [x]
    {
      var chunk := new Node(x);
      if head == null {
        head := chunk;
      } else {
        var p := head;
        ghost var i := 0;
        while p.next != null
          invariant i < |nodes| && p == nodes[i] && p.next == Link(i + 1)
          decreases |nodes| - i
        {
          p, i := p.next, i + 1;
        }
        p.next := chunk;
      }
      nodes, repr := nodes + [chunk], repr + {chunk};
    }

    /** Unlinks and returns the first item. */
    method PopFront() returns (r: Option<T>)
      requires Valid()
      modifies this
      ensures Valid() && repr == old(repr)
      ensures r.None? <==> old(Items()) == []
      ensures r.None? ==> Items() == old(Items())
      ensures r.Some? ==> old(Items()) == [r.value] + Items()
    {
      if head == null {
        return None;
      }
      r := Some(head.item);
      head := head.next;
      nodes := nodes[1..];
    }

    /** Links `x` in front of the first item with a larger key. */
    method InsertSorted(x: T, key: T -> int)
      requires Valid()
      modifies this, repr
      ensures Valid() && fresh(repr - old(repr))
      ensures Items() == Insert(old(Items()), key, x)
    {
      var chunk := new Node(x);
      ghost var at := 0;
      var p: Node?<T>, q := null, head;
      while q != null
        invariant at <= |nodes| && q == Link(at)
        invariant p == if at == 0 then null else nodes[at - 1]
        invariant forall k :: 0 <= k < at ==> key(nodes[k].item) <= key(x)
        decreases |nodes| - at
      {
        if key(x) < key(q.item) {
          break;
        }
        p, q, at := q, q.next, at + 1;
      }
      PositionIs(Items(), key, key(x), at);
      Splice(p, chunk, q, at);
    }

    /** Links a new node between `p` and `q`, the nodes around index `at`. */
    method Splice(p: Node?<T>, chunk: Node<T>, q: Node?<T>, ghost at: nat)
      requires Valid() && at <= |nodes| && q == Link(at) && chunk !in repr
      requires p == if at == 0 then null else nodes[at - 1]
      modifies this, p, chunk
      ensures Valid() && repr == old(repr) + {chunk}
      ensures Items() == old(Items()[..at] + [chunk.item] + Items()[at..])
    {
      chunk.next := q;
      if p == null {
        head := chunk;
      } else {
        p.next := chunk;
      }
      ghost var was := nodes;
      nodes, repr := was[..at] + [chunk] + was[at..], repr + {chunk};
      assert forall i {:trigger nodes[i]} :: 0 <= i < |nodes| ==>
        nodes[i] == if i < at then was[i] else if i == at then chunk else was[i - 1];
    }

    /** Unlinks the item at index `at`, whose predecessor is `prev`. */
    method Unlink(prev: Node?<T>, b: Node<T>, ghost at: nat)
      requires Valid() && at < |nodes| && b == nodes[at]
      requires prev == if at == 0 then null else nodes[at - 1]
      modifies this, repr
      ensures Valid() && repr == old(repr)
      ensures Items() == Without(old(Items()), at)
    {
      if prev == null {
        head := b.next;
      } else {
        prev.next := b.next;
      }
      ghost var was := nodes;
      nodes := Without(was, at);
      assert forall i {:trigger nodes[i]} :: 0 <= i < |nodes| ==>
        nodes[i] == if i < at then was[i] else was[i + 1];
    }

    /** Unlinks and returns the first item with key `id`, looking at every item if need be. */
    method Take(id: int, key: T -> int) returns (r: Option<T>)
      requires Valid()
      modifies this, repr
      ensures Valid() && repr == old(repr)
      ensures var i := IndexOf(old(Items()), key, id);
        if i < |old(Items())|
        then r == Some(old(Items())[i]) && Items() == Without(old(Items()), i)
        else r == None && Items() == old(Items())
    {
      var prev: Node?<T>, b := null, head;
      ghost var at := 0;
      while b != null
        invariant at <= |nodes| && b == Link(at)
        invariant prev == if at == 0 then null else nodes[at - 1]
        invariant forall k :: 0 <= k < at ==> key(nodes[k].item) != id
        decreases |nodes| - at
      {
        if key(b.item) == id {
          IndexOfIs(Items(), key, id, at);
          Unlink(prev, b, at);
          return Some(b.item);
        }
        prev, b, at := b, b.next, at + 1;
      }
      IndexOfIs(Items(), key, id, at);
      return None;
    }

    /** The same on a sorted list, giving up at the first larger key. */
    method TakeSorted(id: int, key: T -> int) returns (r: Option<T>)
      requires Valid() && Sorted(Items(), key)
      modifies this, repr
      ensures Valid() && repr == old(repr)
      ensures var i := IndexOf(old(Items()), key, id);
        if i < |old(Items())|
        then r == Some(old(Items())[i]) && Items() == Without(old(Items()), i)
        else r == None && Items() == old(Items())
    {
      var p := head;
      if p == null {
        return None;
      }
      if key(p.item) == id {
        Unlink(null, p, 0);
        return Some(p.item);
      } else if id < key(p.item) {
        AbsentFromSorted(Items(), key, id, 0);
        return None;
      }
      var next := p.next;
      ghost var at := 1;
      while next != null
        invariant 1 <= at <= |nodes| && p == nodes[at - 1] && next == Link(at)
        invariant forall k :: 0 <= k < at ==> key(Items()[k]) != id
        decreases |nodes| - at
      {
        if key(next.item) == id {
          IndexOfIs(Items(), key, id, at);
          Unlink(p, next, at);
          return Some(next.item);
        } else if id < key(next.item) {
          AbsentFromSorted(Items(), key, id, at);
          return None;
        }
        p, next, at := next, next.next, at + 1;
      }
      IndexOfIs(Items(), key, id, at);
      return None;
    }
  }
}
