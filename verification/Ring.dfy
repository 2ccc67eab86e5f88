/** The circular doubly linked list of list.h.

    A `Link` is a structure with an embedded `list_head`; `item` is the structure around it, so reading
    `item` is what `list_entry` does.  A head is a link whose item nobody looks at, just as `rtbl.list`
    sits in an unused `struct routing_table`.  Null stands for the poison values.  The elements of a
    list, in forward order, are a ghost argument.  All routines rewire links; none touches an item. */
module Ring {

  class Link<T> {
    var next: Link?<T>
    var prev: Link?<T>
    var item: T

    /** A new structure whose links lead back to itself (`INIT_LIST_HEAD`). */
    constructor (item: T)
      ensures next == this && prev == this && this.item == item
      ensures IsRing(this, [])
    {
      this.item := item;
      next := this;
      prev := this;
    }
  }

  /** The list at `head` has the elements `s`, each once; `next` and `prev` are inverse, and the ends
      lead back to `head`. */
  ghost predicate IsRing<T>(head: Link<T>, s: seq<Link<T>>)
    reads head, s
  {
    && head !in s
    && (forall i, j | 0 <= i < j < |s| :: s[i] != s[j])
    && head.next == At(head, s, 0)
    && head.prev == At(head, s, |s| - 1)
    && (s != [] ==> s[0].prev == head && s[|s| - 1].next == head)
    && forall i, j | 0 <= i < |s| - 1 && j == i + 1 :: s[i].next == s[j] && s[j].prev == s[i]
  }

  /** Element `i`, where the head is what comes before the first and after the last. */
  ghost function At<T>(head: Link<T>, s: seq<Link<T>>, i: int): Link<T> {
    if 0 <= i < |s| then s[i] else head
  }

  // ----- Insertion -----

  /** `__list_add`: put `x` between two links. */
  method Insert<T>(x: Link<T>, prev: Link<T>, next: Link<T>)
    requires x != prev && x != next
    modifies x`next, x`prev, prev`next, prev`prev, next`next, next`prev
    ensures prev.next == x && x.next == next
    ensures next.prev == x && x.prev == prev
    ensures prev != next ==> prev.prev == old(prev.prev) && next.next == old(next.next)
    ensures x.item == old(x.item) && prev.item == old(prev.item) && next.item == old(next.item)
  {
    next.prev := x;
    x.next := next;
    x.prev := prev;
    prev.next := x;
  }

  /** `list_add`: prepend. */
  method Add<T>(x: Link<T>, head: Link<T>, ghost s: seq<Link<T>>)
    requires IsRing(head, s) && x != head && x !in s
    modifies x`next, x`prev, head`next, head`prev, s`next, s`prev
    ensures IsRing(head, [x] + s)
    ensures x.item == old(x.item) && forall i | 0 <= i < |s| :: s[i].item == old(s[i].item)
  {
    Insert(x, head, head.next);
  }

  /** `list_add_tail`: append. */
  method AddTail<T>(x: Link<T>, head: Link<T>, ghost s: seq<Link<T>>)
    requires IsRing(head, s) && x != head && x !in s
    modifies x`next, x`prev, head`next, head`prev, s`next, s`prev
    ensures IsRing(head, s + [x])
    ensures x.item == old(x.item) && forall i | 0 <= i < |s| :: s[i].item == old(s[i].item)
  {
    Insert(x, head.prev, head);
  }

  // ----- Deletion -----

  /** `__list_del`: make two links point to each other. */
  method Join<T>(prev: Link<T>, next: Link<T>)
    modifies prev`next, prev`prev, next`next, next`prev
    ensures next.prev == prev && prev.next == next
    ensures prev != next ==> prev.prev == old(prev.prev) && next.next == old(next.next)
    ensures prev.item == old(prev.item) && next.item == old(next.item)
  {
    next.prev := prev;
    prev.next := next;
  }

  function Removed<T>(s: seq<T>, k: nat): seq<T>
    requires k < |s|
  {
    s[..k] + s[k + 1..]
  }

  /** `__list_del` on the neighbours of an element takes exactly that element out of the ring, and
      does not touch the element itself. */
  method Unlink<T>(x: Link<T>, ghost head: Link<T>, ghost s: seq<Link<T>>, ghost k: nat)
    requires IsRing(head, s) && k < |s| && s[k] == x
    modifies head`next, head`prev, s`next, s`prev
    ensures IsRing(head, Removed(s, k)) && x !in Removed(s, k)
    ensures x.next == old(x.next) && x.prev == old(x.prev)
    ensures forall l | l in [head] + s :: l.item == old(l.item)
  {
    ghost var t := Removed(s, k);
    assert forall i | 0 <= i < |t| :: t[i] == s[if i < k then i else i + 1];
    assert x.prev == At(head, s, k - 1) by {
      assert k > 0 ==> s[k - 1].next == s[k];
    }
    assert x.next == At(head, s, k + 1) by {
      assert k < |s| - 1 ==> s[k].next == s[k + 1];
    }
    Join(x.prev, x.next);
  }

  /** `list_del`: remove and poison. */
  method Delete<T>(x: Link<T>, ghost head: Link<T>, ghost s: seq<Link<T>>, ghost k: nat)
    requires IsRing(head, s) && k < |s| && s[k] == x
    modifies head`next, head`prev, s`next, s`prev
    ensures IsRing(head, Removed(s, k)) && x !in Removed(s, k)
    ensures x.next == null && x.prev == null
    ensures forall l | l in [head] + s :: l.item == old(l.item)
  {
    Unlink(x, head, s, k);
    x.next := null;
    x.prev := null;
  }

  /** `list_del_init`: remove, and leave the element a ring of its own. */
  method DeleteInit<T>(x: Link<T>, ghost head: Link<T>, ghost s: seq<Link<T>>, ghost k: nat)
    requires IsRing(head, s) && k < |s| && s[k] == x
    modifies head`next, head`prev, s`next, s`prev
    ensures IsRing(head, Removed(s, k)) && x !in Removed(s, k) && IsRing(x, [])
    ensures forall l | l in [head] + s :: l.item == old(l.item)
  {
    Unlink(x, head, s, k);
    x.next := x;
    x.prev := x;
  }

  // ----- Moving -----

  /** `list_move` within one list: the element becomes the first. */
  method Move<T>(x: Link<T>, head: Link<T>, ghost s: seq<Link<T>>, ghost k: nat)
    requires IsRing(head, s) && k < |s| && s[k] == x
    modifies head`next, head`prev, s`next, s`prev
    ensures IsRing(head, [x] + Removed(s, k))
    ensures head.item == old(head.item) && forall i | 0 <= i < |s| :: s[i].item == old(s[i].item)
  {
    Unlink(x, head, s, k);
    Add(x, head, Removed(s, k));
  }

  /** `list_move_tail` within one list: the element becomes the last. */
  method MoveTail<T>(x: Link<T>, head: Link<T>, ghost s: seq<Link<T>>, ghost k: nat)
    requires IsRing(head, s) && k < |s| && s[k] == x
    modifies head`next, head`prev, s`next, s`prev
    ensures IsRing(head, Removed(s, k) + [x])
    ensures head.item == old(head.item) && forall i | 0 <= i < |s| :: s[i].item == old(s[i].item)
  {
    Unlink(x, head, s, k);
    AddTail(x, head, Removed(s, k));
  }

  /** `list_move` from one list to another: it leaves the one and heads the other. */
  method MoveAcross<T>(x: Link<T>, ghost from: Link<T>, ghost s: seq<Link<T>>, ghost k: nat,
                       head: Link<T>, ghost t: seq<Link<T>>)
    requires IsRing(from, s) && k < |s| && s[k] == x
    requires IsRing(head, t) && Apart(from, s, head, t)
    modifies from`next, from`prev, s`next, s`prev, head`next, head`prev, t`next, t`prev
    ensures IsRing(from, Removed(s, k)) && IsRing(head, [x] + t)
    ensures forall l | l in s + t :: l.item == old(l.item)
  {
    hide IsRing;
    RemovedApart(from, s, k, head, t);
    Unlink(x, from, s, k);
    assert IsRing(head, t);
    Add(x, head, t);
  }

  lemma RemovedApart<T>(from: Link<T>, s: seq<Link<T>>, k: nat, head: Link<T>, t: seq<Link<T>>)
    requires k < |s| && IsRing(from, s) && Apart(from, s, head, t)
    ensures s[k] != head && s[k] !in t && from != head && from != s[k] && from !in t && head !in s
    ensures forall l | l in t :: l != from && l !in s
    ensures forall l | l in Removed(s, k) :: l in s && l != s[k] && l != head && l !in t
  {
  }

  /** Two lists without a common link. */
  ghost predicate Apart<T>(a: Link<T>, s: seq<Link<T>>, b: Link<T>, t: seq<Link<T>>) {
    a != b && a !in t && b !in s && forall i, j | 0 <= i < |s| && 0 <= j < |t| :: s[i] != t[j]
  }

  // ----- Splicing -----

  /** `list_splice`: everything in the list `list` is put in front of what follows `head`. */
  method Splice<T>(list: Link<T>, ghost s: seq<Link<T>>, head: Link<T>, ghost t: seq<Link<T>>)
    requires IsRing(list, s) && IsRing(head, t) && Apart(list, s, head, t)
    modifies head`next, head`prev, s`next, s`prev, t`next, t`prev
    ensures IsRing(head, s + t)
    ensures forall l | l in s + t :: l.item == old(l.item)
  {
    if list.next != list {
      var first, last, at := list.next, list.prev, head.next;
      first.prev := head;
      head.next := first;
      last.next := at;
      at.prev := last;
      assert forall i | 0 <= i < |s + t| :: (s + t)[i] == if i < |s| then s[i] else t[i - |s|];
      assert forall i, j | 0 <= i < |s| && 0 <= j < |t| :: s[i] != t[j];
    } else {
      assert s == [];
      assert s + t == t;
    }
  }

  /** `list_splice_init`: the same, and the list given away is left empty. */
  method SpliceInit<T>(list: Link<T>, ghost s: seq<Link<T>>, head: Link<T>, ghost t: seq<Link<T>>)
    requires IsRing(list, s) && IsRing(head, t) && Apart(list, s, head, t)
    modifies list`next, list`prev, head`next, head`prev, s`next, s`prev, t`next, t`prev
    ensures IsRing(head, s + t) && IsRing(list, [])
    ensures forall l | l in s + t :: l.item == old(l.item)
  {
    Splice(list, s, head, t);
    list.next := list;
    list.prev := list;
  }

  // ----- Iteration -----

  function Reverse<T>(s: seq<T>): (r: seq<T>)
    ensures |r| == |s|
    ensures forall i | 0 <= i < |s| :: r[i] == s[|s| - 1 - i]
  {
    if s == [] then [] else Reverse(s[1..]) + [s[0]]
  }

  /** Visiting with `list_for_each_entry_reverse` meets the elements last to first. */
  method VisitReverse<T>(head: Link<T>, ghost s: seq<Link<T>>) returns (visited: seq<Link<T>>)
    requires IsRing(head, s)
    ensures visited == Reverse(s)
  {
    visited := [];
    ghost var i := |s|;
    var pos := head.prev;
    while pos != head
      invariant 0 <= i <= |s|
      invariant pos == At(head, s, i - 1)
      invariant |visited| == |s| - i && forall j | 0 <= j < |visited| :: visited[j] == s[|s| - 1 - j]
      decreases i
    {
      visited := visited + [pos];
      i := i - 1;
      pos := pos.prev;
    }
  }

  /** A list built by `list_add` is visited in reverse in the order in which it was built. */
  method BuildAndVisit<T(0)>(items: seq<T>) returns (order: seq<T>)
    ensures order == items
  {
    var dummy: T :| true;
    var head := new Link(dummy);
    ghost var s: seq<Link<T>> := [];
    var i := 0;
    while i < |items|
      invariant 0 <= i <= |items| == |items|
      invariant |s| == i && IsRing(head, s) && fresh(head) && fresh(s)
      invariant forall j | 0 <= j < i :: s[j].item == items[i - 1 - j]
    {
      var x := new Link(items[i]);
      Add(x, head, s);
      s := [x] + s;
      i := i + 1;
    }
    var visited := VisitReverse(head, s);
    order := seq(|visited|, j requires 0 <= j < |visited| reads visited => visited[j].item);
  }

  /** `list_for_each_entry_safe` with a body that deletes what it visits: every original element is
      visited once, in order, and the list ends up empty. */
  method DeleteEach<T>(head: Link<T>, ghost s: seq<Link<T>>) returns (visited: seq<Link<T>>)
    requires IsRing(head, s)
    modifies head`next, head`prev, s`next, s`prev
    ensures visited == s && IsRing(head, [])
    ensures forall l | l in s :: l.next == null && l.prev == null
  {
    visited := [];
    ghost var i := 0;
    var pos := head.next;
    var n := pos.next;
    NoneDeleted(head, s);
    Cursor(head, s, 0);
    hide Remaining, IsRing, At, Visited;
    while pos != head
      invariant 0 <= i <= |s| && Visited(visited, s, i) && Remaining(head, s, i)
      invariant pos == At(head, s, i) && n == At(head, s, i + 1)
      invariant pos == if i < |s| then s[i] else head
      decreases |s| - i
    {
      DeleteNext(pos, head, s, i);
      Grows(visited, s, i);
      visited, i := visited + [pos], i + 1;
      Cursor(head, s, i);
      pos, n := n, n.next;
    }
    AllDeleted(head, s);
    AllVisited(visited, s);
  }

  ghost predicate Visited<T>(visited: seq<T>, s: seq<T>, i: nat)
    requires i <= |s|
  {
    visited == s[..i]
  }

  lemma Grows<T>(visited: seq<T>, s: seq<T>, i: nat)
    requires i < |s| && Visited(visited, s, i)
    ensures Visited(visited + [s[i]], s, i + 1)
  {
  }

  lemma AllVisited<T>(visited: seq<T>, s: seq<T>)
    requires Visited(visited, s, |s|)
    ensures visited == s
  {
  }

  /** The first `i` elements have been deleted, the others have not. */
  ghost predicate Remaining<T>(head: Link<T>, s: seq<Link<T>>, i: nat)
    requires i <= |s|
    reads head, s
  {
    && head !in s && (forall a, b | 0 <= a < b < |s| :: s[a] != s[b])
    && IsRing(head, s[i..])
    && forall j | 0 <= j < i :: s[j].next == null && s[j].prev == null
  }

  lemma NoneDeleted<T>(head: Link<T>, s: seq<Link<T>>)
    requires IsRing(head, s)
    ensures head !in s && Remaining(head, s, 0)
    ensures head.next == At(head, s, 0) && head.next.next == At(head, s, 1)
  {
    assert s[0..] == s;
  }

  lemma AllDeleted<T>(head: Link<T>, s: seq<Link<T>>)
    requires Remaining(head, s, |s|)
    ensures IsRing(head, []) && forall l | l in s :: l.next == null && l.prev == null
  {
    assert s[|s|..] == [];
  }

  /** `list_del` on the first of the elements that are left. */
  method DeleteNext<T>(x: Link<T>, ghost head: Link<T>, ghost s: seq<Link<T>>, ghost i: nat)
    requires i < |s| && s[i] == x && Remaining(head, s, i)
    modifies head`next, head`prev, s`next, s`prev
    ensures Remaining(head, s, i + 1)
  {
    ghost var t := s[i..];
    Suffix(s, i);
    assert forall j | 0 <= j < i :: s[j] !in t && s[j] != head;
    hide IsRing, Removed;
    Delete(x, head, t, 0);
  }

  lemma Suffix<T>(s: seq<T>, i: nat)
    requires i < |s|
    ensures forall l | l in s[i..] :: l in s
    ensures Removed(s[i..], 0) == s[i + 1..]
  {
  }

  lemma Cursor<T>(head: Link<T>, s: seq<Link<T>>, i: nat)
    requires i <= |s| && Remaining(head, s, i)
    ensures At(head, s, i).next == At(head, s, i + 1)
    ensures At(head, s, i) == if i < |s| then s[i] else head
  {
    var t := s[i..];
    assert forall j | 0 <= j < |t| :: t[j] == s[i + j];
    assert |t| >= 2 ==> t[0].next == t[1];
  }
}
