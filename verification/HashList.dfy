/** The `hlist` of list.h: a doubly linked list with a one-pointer head.

    Instead of a pointer to the element before it, each element keeps the address of the one pointer
    variable that points to it (`pprev`): the head's `first`, or the `next` of the element before. */
module HashList {

  /** What `pprev` may hold: NULL, the poison value, or the address of a pointer variable. */
  datatype Cell = Unhashed | Poison | FirstOf(head: Head) | NextOf(node: Node)

  class Head {
    var first: Node?

    /** `INIT_HLIST_HEAD`. */
    constructor ()
      ensures IsHash(this, [])
    {
      first := null;
    }
  }

  class Node {
    var next: Node?
    var pprev: Cell

    /** `INIT_HLIST_NODE`. */
    constructor ()
      ensures next == null && pprev == Unhashed
    {
      next := null;
      pprev := Unhashed;
    }
  }

  /** The list at `h` has the elements `s`, each once, and each element's `pprev` is the address of the
      pointer that points to it. */
  ghost predicate IsHash(h: Head, s: seq<Node>)
    reads h, s
  {
    && (forall i, j | 0 <= i < j < |s| :: s[i] != s[j])
    && h.first == (if s == [] then null else s[0])
    && (s != [] ==> s[0].pprev == FirstOf(h) && s[|s| - 1].next == null)
    && forall i, j | 0 <= i < |s| - 1 && j == i + 1 :: s[i].next == s[j] && s[j].pprev == NextOf(s[i])
  }

  /** The contents of the pointer variable at `c`. */
  ghost function Target(c: Cell): Node?
    reads match c case FirstOf(h) => {h} case NextOf(n) => {n} case _ => {}
  {
    match c
    case FirstOf(h) => h.first
    case NextOf(n) => n.next
    case _ => null
  }

  /** A pointer variable of the list: the head's, or an element's. */
  ghost predicate CellOf(c: Cell, h: Head, s: seq<Node>) {
    c == FirstOf(h) || (c.NextOf? && c.node in s)
  }

  /** `pprev` designates the pointer variable that points to the element, and no other does. */
  lemma PprevIsTheCell(h: Head, s: seq<Node>, k: nat)
    requires IsHash(h, s) && k < |s|
    ensures CellOf(s[k].pprev, h, s) && Target(s[k].pprev) == s[k]
    ensures forall c | CellOf(c, h, s) && Target(c) == s[k] :: c == s[k].pprev
  {
    if k > 0 {
      assert s[k - 1].next == s[k];
    }
    forall c | CellOf(c, h, s) && Target(c) == s[k] ensures c == s[k].pprev {
      if c.NextOf? {
        var i :| 0 <= i < |s| && s[i] == c.node;
        if i < |s| - 1 {
          assert s[i].next == s[i + 1];
        }
      }
    }
  }

  /** `*c = target`. */
  method Store(c: Cell, target: Node?)
    modifies match c case FirstOf(h) => {h as object} case NextOf(n) => {n} case _ => {}
    ensures c.FirstOf? ==> c.head.first == target
    ensures c.NextOf? ==> c.node.next == target && c.node.pprev == old(c.node.pprev)
  {
    match c {
      case FirstOf(h) => h.first := target;
      case NextOf(n) => n.next := target;
      case _ =>
    }
  }

  // ----- Insertion -----

  /** `hlist_add_head`. */
  method AddHead(n: Node, h: Head, ghost s: seq<Node>)
    requires IsHash(h, s) && n !in s
    modifies n, h, s
    ensures IsHash(h, [n] + s)
  {
    var first := h.first;
    n.next := first;
    if first != null {
      first.pprev := NextOf(n);
    }
    h.first := n;
    n.pprev := FirstOf(h);
  }

  /** If the elements before and after position `k` are linked up with `x`, the longer list is well
      formed. */
  lemma HashWith(h: Head, s: seq<Node>, k: nat, x: Node)
    requires k <= |s| && x !in s && forall i, j | 0 <= i < j < |s| :: s[i] != s[j]
    requires if k > 0 then h.first == s[0] && s[0].pprev == FirstOf(h) && s[k - 1].next == x && x.pprev == NextOf(s[k - 1])
             else h.first == x && x.pprev == FirstOf(h)
    requires if k < |s| then x.next == s[k] && s[k].pprev == NextOf(x) && s[|s| - 1].next == null else x.next == null
    requires forall i, j | 0 <= i < |s| - 1 && j == i + 1 && j != k :: s[i].next == s[j] && s[j].pprev == NextOf(s[i])
    ensures IsHash(h, s[..k] + [x] + s[k..])
  {
    var t := s[..k] + [x] + s[k..];
    forall i, j | 0 <= i < |t| - 1 && j == i + 1 ensures t[i].next == t[j] && t[j].pprev == NextOf(t[i]) {
      if j < k {
        assert t[i] == s[i] && t[j] == s[j];
      } else if i > k {
        assert t[i] == s[i - 1] && t[j] == s[j - 1];
      }
    }
  }

  /** `hlist_add_before`: put `n` before element `k`, wherever that is in the list. */
  method AddBefore(n: Node, next: Node, ghost h: Head, ghost s: seq<Node>, ghost k: nat)
    requires IsHash(h, s) && n !in s && k < |s| && s[k] == next
    modifies n, h, s
    ensures IsHash(h, s[..k] + [n] + s[k..])
  {
    PprevIsTheCell(h, s, k);
    assert k > 0 ==> s[k].pprev == NextOf(s[k - 1]);
    n.pprev := next.pprev;
    n.next := next;
    next.pprev := NextOf(n);
    Store(n.pprev, n);
    assert forall i, j | 0 <= i < |s| - 1 && j == i + 1 && j != k :: s[i].next == s[j] && s[j].pprev == NextOf(s[i]);
    HashWith(h, s, k, n);
  }

  /** `hlist_add_after`: put `next` after element `k`. */
  method AddAfter(n: Node, next: Node, ghost h: Head, ghost s: seq<Node>, ghost k: nat)
    requires IsHash(h, s) && next !in s && k < |s| && s[k] == n
    modifies next, h, s
    ensures IsHash(h, s[..k + 1] + [next] + s[k + 1..])
  {
    ghost var t := s[..k + 1] + [next] + s[k + 1..];
    ghost var after := if k < |s| - 1 then s[k + 1] else null;
    assert n.next == after;
    next.next := n.next;
    n.next := next;
    next.pprev := NextOf(n);
    if next.next != null {
      next.next.pprev := NextOf(next);
    }
    assert forall i, j | 0 <= i < |s| - 1 && j == i + 1 && i != k :: s[i].next == s[j] && s[j].pprev == NextOf(s[i]);
    HashWith(h, s, k + 1, next);
  }

  // ----- Deletion -----

  /** If the elements before and after position `k` point to each other, the others form a list. */
  lemma HashWithout(h: Head, s: seq<Node>, k: nat)
    requires k < |s| && forall i, j | 0 <= i < j < |s| :: s[i] != s[j]
    requires k > 0 ==> h.first == s[0] && s[0].pprev == FirstOf(h)
    requires k < |s| - 1 ==> s[|s| - 1].next == null
    requires k > 0 ==> s[k - 1].next == if k < |s| - 1 then s[k + 1] else null
    requires k == 0 ==> h.first == if k < |s| - 1 then s[k + 1] else null
    requires k < |s| - 1 ==> s[k + 1].pprev == if k > 0 then NextOf(s[k - 1]) else FirstOf(h)
    requires forall i, j | 0 <= i < |s| - 1 && j == i + 1 && i != k && j != k :: s[i].next == s[j] && s[j].pprev == NextOf(s[i])
    ensures IsHash(h, s[..k] + s[k + 1..]) && s[k] !in s[..k] + s[k + 1..]
  {
    var t := s[..k] + s[k + 1..];
    forall i, j | 0 <= i < |t| - 1 && j == i + 1 ensures t[i].next == t[j] && t[j].pprev == NextOf(t[i]) {
      if j < k {
        assert t[i] == s[i] && t[j] == s[j];
      } else if i >= k {
        assert t[i] == s[i + 1] && t[j] == s[j + 1];
      } else {
        assert t[i] == s[k - 1] && t[j] == s[k + 1];
      }
    }
  }

  /** `__hlist_del`: take the element out without knowing whether it is the first. */
  method Unhash(n: Node, ghost h: Head, ghost s: seq<Node>, ghost k: nat)
    requires IsHash(h, s) && k < |s| && s[k] == n
    modifies h, s
    ensures IsHash(h, s[..k] + s[k + 1..]) && n !in s[..k] + s[k + 1..]
  {
    PprevIsTheCell(h, s, k);
    assert k > 0 ==> s[k].pprev == NextOf(s[k - 1]);
    assert s[k].next == if k < |s| - 1 then s[k + 1] else null;
    var next, pprev := n.next, n.pprev;
    Store(pprev, next);
    if next != null {
      next.pprev := pprev;
    }
    assert forall i, j | 0 <= i < |s| - 1 && j == i + 1 && i != k && j != k :: s[i].next == s[j] && s[j].pprev == NextOf(s[i]);
    HashWithout(h, s, k);
  }

  /** `hlist_del`. */
  method Delete(n: Node, ghost h: Head, ghost s: seq<Node>, ghost k: nat)
    requires IsHash(h, s) && k < |s| && s[k] == n
    modifies h, s
    ensures IsHash(h, s[..k] + s[k + 1..]) && n !in s[..k] + s[k + 1..]
    ensures n.next == null && n.pprev == Poison
  {
    Unhash(n, h, s, k);
    n.next := null;
    n.pprev := Poison;
  }

  /** `hlist_del_init`: the same, but may be called again, and then does nothing. */
  method DeleteInit(n: Node, ghost h: Head, ghost s: seq<Node>, ghost k: nat)
    requires IsHash(h, s) && (n.pprev != Unhashed ==> k < |s| && s[k] == n)
    modifies n, h, s
    ensures n.pprev == Unhashed
    ensures old(n.pprev) != Unhashed ==> IsHash(h, s[..k] + s[k + 1..]) && n.next == null
    ensures old(n.pprev) == Unhashed ==> IsHash(h, s) && n.next == old(n.next)
  {
    if n.pprev != Unhashed {
      Unhash(n, h, s, k);
      n.next := null;
      n.pprev := Unhashed;
    }
  }
}
