/** In every run, from any start in which it holds: routing entries name real neighbours, and every
    unicast frame goes to one. No assumption on staleness, packet kinds or broadcast ids. */
module Links {
  import opened OdrTypes
  import opened TableSpec
  import opened NodeSpec
  import opened Network

  /** `e` is an entry that node `n` can use: `ifNo` is one of its interfaces, and `hw` is another
      interface on that interface's segment. */
  ghost predicate Linked(w: Wiring, n: NodeId, e: Entry) {
    exists p, q :: LinkedBy(w, n, e, p, q)
  }

  ghost predicate LinkedBy(w: Wiring, n: NodeId, e: Entry, p: Iface, q: Iface) {
    p in w && q in w && p.node == n && p.ifNo == e.ifNo && q.hw == e.hw && Joined(p, q)
  }

  ghost predicate RealFrame(w: Wiring, f: Frame) {
    f.from in w && f.to in w && Joined(f.from, f.to)
  }

  /** The structural invariant of every run. */
  ghost predicate Sane(w: Wiring, net: Net) {
    && WellWired(w)
    && (forall p | p in w :: p.node in net.nodes)
    && (forall f | f in net.flight :: RealFrame(w, f))
    && (forall n, k | n in net.nodes && k in net.nodes[n].table :: Linked(w, n, net.nodes[n].table[k]))
  }

  /** A table after an update: each entry is an old one, or a refreshed one that points back to where
      the packet came from. */
  lemma UpdatedEntry(t: Table, p: Packet, hw: Hw, ifNo: int, now: int, sp: int, k: NodeId)
    requires k in Updated(t, p, hw, ifNo, now, sp)
    ensures var e := Updated(t, p, hw, ifNo, now, sp)[k];
            || (k in t && e == t[k])
            || (k == NamedKey(p) && e.hw == hw && e.ifNo == ifNo)
  {
  }

  lemma ProcessTable(self: NodeId, ifs: seq<Iface>, st: Node, p: Packet, hw: Hw, recvIf: int, env: Env)
    ensures Process(self, ifs, st, p, hw, recvIf, env).0.table
            == if Dropped(p) then st.table else Updated(st.table, p, hw, recvIf, env.now, st.sp)
  {
  }

  lemma SaneStep(w: Wiring, net: Net, l: Label)
    requires Sane(w, net) && Enabled(net, l)
    ensures Sane(w, Next(w, net, l))
  {
    var net' := Next(w, net, l);
    forall f | f in net'.flight ensures RealFrame(w, f) {
      FramesAfter(w, net, l, f);
      if f !in net.flight {
        var o :| o in OutsOf(w, net, l) && Carries(w, o, f);
        OutsVia(w, net, l, o);
      }
    }
    forall n, k | n in net'.nodes && k in net'.nodes[n].table ensures Linked(w, n, net'.nodes[n].table[k]) {
      if l.Deliver? && n == net.flight[l.i].to.node {
        var f := net.flight[l.i];
        var st := net.nodes[n];
        ProcessTable(n, IfacesOf(w, n), st, f.pkt, f.from.hw, f.to.ifNo, l.env);
        if !Dropped(f.pkt) {
          UpdatedEntry(st.table, f.pkt, f.from.hw, f.to.ifNo, l.env.now, st.sp, k);
        }
        assert RealFrame(w, f);
        var e := net'.nodes[n].table[k];
        if !(k in st.table && e == st.table[k]) {
          assert LinkedBy(w, n, e, f.to, f.from);
        }
      } else {
        assert net'.nodes[n].table == net.nodes[n].table;
      }
    }
  }

  /** Every reachable state is structurally sound. */
  lemma {:induction false} SaneRun(w: Wiring, tr: seq<Net>, ls: seq<Label>, i: nat)
    requires Run(w, tr, ls) && Sane(w, tr[0]) && i < |tr|
    ensures Sane(w, tr[i])
  {
    if i > 0 {
      SaneRun(w, tr, ls, i - 1);
      SaneStep(w, tr[i - 1], ls[i - 1]);
    }
  }

  // ----- Unicast frames -----

  lemma {:induction false} UnicastSpread(w: Wiring, o: Out, q: Iface)
    requires WellWired(w) && q in w && o.Unicast? && Hears(q, o)
    ensures Spread(w, o) == [Frame(o.via, q, o.pkt)]
  {
    assert WellWired(w[1..]) by {
      assert forall f | f in w[1..] :: f in w;
    }
    if w[0] == q {
      NobodyElseHears(w[1..], o, q);
    } else {
      UnicastSpread(w[1..], o, q);
    }
  }

  lemma {:induction false} NobodyElseHears(w: Wiring, o: Out, q: Iface)
    requires o.Unicast? && o.to == q.hw && forall f | f in w :: f.hw != q.hw
    ensures Spread(w, o) == []
  {
    if w != [] {
      assert w[0] in w;
      NobodyElseHears(w[1..], o, q);
    }
  }

  /** Sending along an entry that names a real link puts exactly one frame in flight, to the
      interface the entry names. */
  lemma SendOverLink(w: Wiring, n: NodeId, t: Table, key: NodeId, p: Packet) returns (f: Frame)
    requires WellWired(w) && key in t && Linked(w, n, t[key])
    ensures SpreadAll(w, SendToward(IfacesOf(w, n), t, key, p)) == [f]
    ensures f.pkt == p && f.from.node == n && f.to.hw == t[key].hw && RealFrame(w, f)
    ensures f.to.node == Owner(w, t[key].hw)
  {
    var a, b :| LinkedBy(w, n, t[key], a, b);
    var ifs := IfacesOf(w, n);
    var o := Unicast(a, t[key].hw, p);
    IfacesOfIn(w, n);
    IfacesOfDistinct(w, n);
    SendCount(ifs, p, t[key].hw, t[key].ifNo);
    UnicastSpread(w, o, b);
    OwnerOf(w, b);
    f := Frame(a, b, p);
    assert SendToward(ifs, t, key, p) == [o];
    assert SpreadAll(w, [o]) == Spread(w, o) + SpreadAll(w, []);
  }

  /** The entry along which a step sends a unicast frame, in the acting node's table after the step. */
  lemma UnicastEntry(w: Wiring, net: Net, l: Label, o: Out) returns (k: NodeId)
    requires Enabled(net, l) && o in OutsOf(w, net, l) && o.Unicast?
    ensures !l.Lose?
    ensures var t := Next(w, net, l).nodes[Actor(net, l)].table;
            k in t && o.via.ifNo == t[k].ifNo && o.to == t[k].hw
  {
    var n := Actor(net, l);
    var st := net.nodes[n];
    var ifs := IfacesOf(w, n);
    if l.Deliver? {
      var f := net.flight[l.i];
      ProcessOuts(n, ifs, st, f.pkt, f.from.hw, f.to.ifNo, l.env, o);
      ProcessTable(n, ifs, st, f.pkt, f.from.hw, f.to.ifNo, l.env);
      var t := Heeded(st, f.pkt, f.from.hw, f.to.ifNo, l.env.now).table;
      k :| k in t && o.via.ifNo == t[k].ifNo && o.to == t[k].hw;
    } else {
      RequestOuts(n, ifs, st, l.dst, l.forced, l.msg, o);
      k := l.dst;
    }
  }

  /** In a sound state every unicast output, of any step, is heard by exactly one interface: the one
      it is addressed to, on the segment it is sent on. */
  lemma UnicastsReachNeighbours(w: Wiring, net: Net, l: Label, o: Out)
    requires Sane(w, net) && Enabled(net, l) && o in OutsOf(w, net, l) && o.Unicast?
    ensures exists q :: q in w && q.hw == o.to && Joined(o.via, q) && Spread(w, o) == [Frame(o.via, q, o.pkt)]
  {
    SaneStep(w, net, l);
    OutsVia(w, net, l, o);
    var k := UnicastEntry(w, net, l, o);
    var n := Actor(net, l);
    ReachesByEntry(w, n, Next(w, net, l).nodes[n].table[k], o);
  }

  lemma ReachesByEntry(w: Wiring, n: NodeId, e: Entry, o: Out)
    requires WellWired(w) && Linked(w, n, e) && o.Unicast? && o.via in w && o.via.node == n
    requires o.via.ifNo == e.ifNo && o.to == e.hw
    ensures exists q :: q in w && q.hw == o.to && Joined(o.via, q) && Spread(w, o) == [Frame(o.via, q, o.pkt)]
  {
    var p, q :| LinkedBy(w, n, e, p, q);
    assert p == o.via;
    UnicastSpread(w, o, q);
  }
}
