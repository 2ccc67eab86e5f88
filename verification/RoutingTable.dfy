/** The routing table as the daemon keeps it: a ring of entries, scanned in reverse and rewritten in
    place.  Its meaning is a map, and every routine is proved against `TableSpec`. */
module RoutingTables {
  import opened OdrTypes
  import opened TableSpec
  import opened Ring

  /** `struct routing_table` around its list links. */
  datatype Route = Route(key: NodeId, addr: NodeId, hw: Hw, ifNo: int, hop: int, ts: int)

  // ----- The map that a list of routes stands for -----

  ghost predicate UniqueKeys(rs: seq<Route>) {
    forall i, j | 0 <= i < j < |rs| :: rs[i].key != rs[j].key
  }

  function EntryOf(r: Route): Entry {
    Entry(r.addr, r.hw, r.ifNo, r.hop, r.ts)
  }

  ghost function TableOf(rs: seq<Route>): Table {
    if rs == [] then map[] else TableOf(rs[1..])[rs[0].key := EntryOf(rs[0])]
  }

  lemma {:induction false} TableOfHas(rs: seq<Route>, i: nat)
    requires UniqueKeys(rs) && i < |rs|
    ensures rs[i].key in TableOf(rs) && TableOf(rs)[rs[i].key] == EntryOf(rs[i])
  {
    if i > 0 {
      TableOfHas(rs[1..], i - 1);
    }
  }

  lemma {:induction false} TableOfOnly(rs: seq<Route>, k: NodeId) returns (i: nat)
    requires k in TableOf(rs)
    ensures i < |rs| && rs[i].key == k
  {
    if rs[0].key == k {
      i := 0;
    } else {
      i := TableOfOnly(rs[1..], k);
      i := i + 1;
    }
  }

  /** A route with a new key adds that key's entry. */
  lemma TableOfPrepended(rs: seq<Route>, r: Route)
    requires UniqueKeys(rs) && r.key !in TableOf(rs)
    ensures UniqueKeys([r] + rs)
    ensures TableOf([r] + rs) == TableOf(rs)[r.key := EntryOf(r)]
  {
    forall i | 0 <= i < |rs| ensures rs[i].key != r.key {
      TableOfHas(rs, i);
    }
    assert ([r] + rs)[1..] == rs;
  }

  /** Replacing the route with a given key replaces that key's entry. */
  lemma {:induction false} TableOfReplaced(rs: seq<Route>, m: nat, r: Route)
    requires UniqueKeys(rs) && m < |rs| && r.key == rs[m].key
    ensures UniqueKeys(rs[m := r])
    ensures TableOf(rs[m := r]) == TableOf(rs)[r.key := EntryOf(r)]
  {
    if m == 0 {
      assert rs[m := r][1..] == rs[1..];
    } else {
      assert rs[m := r][1..] == rs[1..][m - 1 := r];
      TableOfReplaced(rs[1..], m - 1, r);
    }
  }

  /** A route rewritten as `update_rtbl_entry` rewrites it. */
  function RefreshedRoute(r: Route, o: Offer, now: int, sp: int): Route {
    var e := Refreshed(EntryOf(r), o, now, sp);
    Route(r.key, e.addr, e.hw, e.ifNo, e.hop, e.ts)
  }

  class RoutingTable {
    const head: Link<Route>
    ghost var links: seq<Link<Route>>
    ghost var routes: seq<Route>

    /** The ring is well formed, `routes` are its contents, and no key occurs twice. */
    ghost predicate Valid()
      reads this, head, links
    {
      && IsRing(head, links)
      && |routes| == |links|
      && (forall i | 0 <= i < |links| :: links[i].item == routes[i])
      && UniqueKeys(routes)
      && Addressed(View())
    }

    ghost function View(): Table
      reads this
    {
      TableOf(routes)
    }

    /** The objects the table is made of. */
    ghost function Objects(): set<object>
      reads this
    {
      {this, head} + set l | l in links
    }

    constructor ()
      ensures Valid() && View() == map[] && fresh(Objects())
    {
      head := new Link(Route(0, 0, 0, 0, 0, 0));
      links := [];
      routes := [];
    }

    /** The scan that all lookups share: from the tail of the ring to its head, which means not found. */
    method Find(key: NodeId) returns (pos: Link<Route>)
      requires Valid()
      ensures pos != head <==> key in View()
      ensures pos != head ==> pos in links && pos.item.key == key && EntryOf(pos.item) == View()[key]
    {
      ghost var i := |links| - 1;
      pos := head.prev;
      while pos != head
        invariant -1 <= i < |links| && pos == At(head, links, i)
        invariant forall j | i < j < |links| :: routes[j].key != key
        decreases i
      {
        if pos.item.key == key {
          TableOfHas(routes, i);
          return;
        }
        assert pos.prev == At(head, links, i - 1);
        i := i - 1;
        pos := pos.prev;
      }
      if key in View() {
        var j := TableOfOnly(routes, key);
      }
    }

    /** `entry_exists_for_src`. */
    method Exists(key: NodeId) returns (found: bool)
      requires Valid()
      ensures found <==> key in View()
    {
      var pos := Find(key);
      found := pos != head;
    }

    /** `get_rtbl_entry`. */
    method Get(key: NodeId) returns (found: bool, hw: Hw, ifNo: int, hop: int)
      requires Valid()
      ensures found <==> key in View()
      ensures found ==> hw == View()[key].hw && ifNo == View()[key].ifNo && hop == View()[key].hop
    {
      hw, ifNo, hop := 0, 0, 0;
      found := Exists(key);
      if found {
        var pos := Find(key);
        hw, ifNo, hop := pos.item.hw, pos.item.ifNo, pos.item.hop;
      }
    }

    /** What happens to the entry with the key. */
    static method RewriteInPlace(pos: Link<Route>, o: Offer, now: int, sp: int) returns (stale: bool)
      requires pos.item.key == o.key
      modifies pos`item
      ensures pos.item == RefreshedRoute(old(pos.item), o, now, sp)
      ensures stale <==> Stale(EntryOf(old(pos.item)), now, sp)
    {
      stale := now - pos.item.ts > sp;
      if stale {
        pos.item := pos.item.(key := o.key, addr := o.key, hw := o.hw, ifNo := o.ifNo, ts := now);
        if pos.item.hop > o.staleHop {
          pos.item := pos.item.(hop := o.staleHop);
        }
      } else if pos.item.hop > o.hop {
        pos.item := pos.item.(hw := o.hw, ifNo := o.ifNo, hop := o.hop, ts := now);
      }
    }

    /** The loop of `update_rtbl_entry` over existing entries: a stale one is overwritten in place and
        ends the whole update, otherwise a shorter route replaces the entry's. */
    method RefreshLoop(o: Offer, now: int, sp: int, ghost m: nat) returns (stale: bool)
      requires Valid() && m < |routes| && routes[m].key == o.key
      modifies links
      ensures IsRing(head, links)
      ensures forall j | 0 <= j < |links| :: links[j].item == routes[m := RefreshedRoute(routes[m], o, now, sp)][j]
      ensures stale <==> Stale(EntryOf(routes[m]), now, sp)
    {
      ghost var i := |links| - 1;
      var pos := head.prev;
      while pos != head
        invariant -1 <= i < |links| && pos == At(head, links, i) && IsRing(head, links)
        invariant forall j | 0 <= j < |links| && j != m :: links[j].item == routes[j]
        invariant links[m].item == if i < m then RefreshedRoute(routes[m], o, now, sp) else routes[m]
        invariant i < m ==> !Stale(EntryOf(routes[m]), now, sp)
        decreases i
      {
        if pos.item.key == o.key {
          assert i == m;
          stale := RewriteInPlace(pos, o, now, sp);
          if stale {
            return true;
          }
        }
        i := i - 1;
        pos := pos.prev;
      }
      return false;
    }

    /** The same, on the map. */
    method Refresh(o: Offer, now: int, sp: int) returns (stale: bool)
      requires Valid() && o.key in View()
      modifies Objects()
      ensures Objects() == old(Objects())
      ensures Valid() && View() == Touch(old(View()), o, now, sp)
      ensures stale <==> Stale(old(View())[o.key], now, sp)
    {
      ghost var m := TableOfOnly(routes, o.key);
      TableOfHas(routes, m);
      TableOfReplaced(routes, m, RefreshedRoute(routes[m], o, now, sp));
      stale := RefreshLoop(o, now, sp, m);
      routes := routes[m := RefreshedRoute(routes[m], o, now, sp)];
    }

    /** `list_add` of a new element. */
    method PushFront(r: Route)
      requires Valid()
      modifies Objects()
      ensures fresh(Objects() - old(Objects())) && routes == old(routes)
      ensures IsRing(head, links) && |links| == |routes| + 1
      ensures forall i | 0 <= i < |links| :: links[i].item == ([r] + routes)[i]
    {
      var x := new Link(r);
      ghost var was := links;
      Add(x, head, was);
      links := [x] + was;
    }

    /** A new entry goes to the front of the ring. */
    method Insert(r: Route)
      requires Valid() && r.key !in View() && r.addr == r.key
      modifies Objects()
      ensures Valid() && View() == old(View())[r.key := EntryOf(r)]
      ensures fresh(Objects() - old(Objects()))
    {
      TableOfPrepended(routes, r);
      PushFront(r);
      routes := [r] + routes;
    }

    /** Exactly one of refreshing and inserting, as each part of `update_rtbl_entry` does it; `addr` is
        the address the inserting branch writes. */
    method LearnRoute(o: Offer, addr: NodeId, now: int, sp: int) returns (stale: bool)
      requires Valid() && (addr == o.key || o.key in View())
      modifies Objects()
      ensures Valid() && View() == Learn(old(View()), o, now, sp)
      ensures stale <==> o.key in old(View()) && Stale(old(View())[o.key], now, sp)
      ensures fresh(Objects() - old(Objects()))
    {
      var found := Exists(o.key);
      if found {
        stale := Refresh(o, now, sp);
      } else {
        Insert(Route(o.key, addr, o.hw, o.ifNo, o.hop, now));
        stale := false;
      }
    }

    /** `update_rtbl_entry`.  The second pass over a flagged request would insert under the wrong
        address; that it never inserts is part of the proof. */
    method Update(p: Packet, hw: Hw, ifNo: int, now: int, sp: int)
      requires Valid()
      modifies Objects()
      ensures Valid() && View() == Updated(old(View()), p, hw, ifNo, now, sp)
      ensures fresh(Objects() - old(Objects()))
    {
      if p.kind == Rreq {
        SecondPassIsIdle(View(), RequestOffer(p, hw, ifNo), now, sp);
        var stale := LearnRoute(RequestOffer(p, hw, ifNo), p.src, now, sp);
        if stale {
          return;
        }
        if p.rrepSent == 1 {
          stale := LearnRoute(RequestOffer(p, hw, ifNo), p.dst, now, sp);
          if stale {
            return;
          }
        }
      }
      if p.kind == Rrep {
        var stale := LearnRoute(ReplyOffer(p, hw, ifNo), p.dst, now, sp);
        if stale {
          return;
        }
      }
      if p.kind == Data {
        UpdateFromPayload(p, hw, ifNo, now, sp);
      }
    }

    method UpdateFromPayload(p: Packet, hw: Hw, ifNo: int, now: int, sp: int)
      requires Valid() && p.kind == Data
      modifies Objects()
      ensures fresh(Objects() - old(Objects()))
      ensures Valid() && View() == Updated(old(View()), p, hw, ifNo, now, sp)
    {
      var found := Exists(p.src);
      if found && p.srcDest == 1 {
        var stale := Refresh(PayloadOffer(p.src, p, hw, ifNo), now, sp);
        if stale {
          return;
        }
      }
      found := Exists(p.dst);
      if found && p.srcDest == -1 {
        var stale := Refresh(PayloadOffer(p.dst, p, hw, ifNo), now, sp);
      }
    }
  }
}
