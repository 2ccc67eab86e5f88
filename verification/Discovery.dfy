/** One discovery on its own, in a network in which nobody knows source or destination yet: it ends
    with both ends knowing each other, and, if copies are processed in hop order, with the
    destination knowing a shortest path. */
module Discovery {
  import opened OdrTypes
  import opened TableSpec
  import opened NodeSpec
  import opened Network
  import opened Links
  import opened LoopFreedom
  import opened Forwarding
  import opened ReplyDelivery
  import opened Flood
  import opened PayloadDelivery

  /** Every request in flight is a searching copy, and every reply is one from `d` to `s`, on course
      and on its way to a node that flooded. */
  predicate SoleFrame(net: Net, r: Reach, c: Quest, f: Frame) {
    && (f.pkt.kind == Rreq ==> Copy(f.pkt, c))
    && (f.pkt.kind == Rrep ==> f.pkt.dst == c.d && f.to.node in r.plain && OnCourse(net, c.s, f))
  }

  ghost predicate SoleTables(w: Wiring, net: Net, r: Reach, c: Quest) {
    && (forall n | n in net.nodes && c.d in net.nodes[n].table :: n in r.plain)
    && (forall n | n in net.nodes && c.s in net.nodes[n].table ::
          n in r.heard && Owner(w, net.nodes[n].table[c.s].hw) in r.plain)
  }

  ghost predicate SoleInv(w: Wiring, net: Net, r: Reach, c: Quest) {
    && FloodInv(w, net, r, c)
    && Backward(w, net, c.s) && Backward(w, net, c.d)
    && SoleTables(w, net, r, c)
    && (forall f | f in net.flight :: SoleFrame(net, r, c, f))
    && (c.s in net.nodes[c.d].table ==> ReplyPendingOrDone(net, c.s, c.d))
  }

  /** A step of a lone discovery: no client asks for anything, nothing is stale, and neither a copy nor
      a reply is lost. */
  predicate SoleStep(net: Net, l: Label, c: Quest)
    requires Enabled(net, l)
  {
    !l.Ask? && FreshStep(net, l) && KeepsFlood(net, l, c) && KeepsReplies(net, l, c.s, c.d)
  }

  /** Nobody offers a route in a lone discovery: all that have processed the request have flooded it. */
  lemma AllForwardersFlood(w: Wiring, net: Net, r: Reach, c: Quest, n: NodeId)
    requires SoleInv(w, net, r, c) && n in r.heard && n != c.d
    ensures n in r.plain
  {
  }

  /** What a delivery does to the two keys that matter, at its receiver. */
  lemma SoleReceiver(w: Wiring, net: Net, l: Label, r: Reach, c: Quest)
    requires SoleInv(w, net, r, c) && Enabled(net, l) && SoleStep(net, l, c) && l.Deliver?
    ensures var n := net.flight[l.i].to.node;
            var t' := Next(w, net, l).nodes[n].table;
            var r' := Track(net, l, r, c);
            && (c.d in t' ==> n in r'.plain)
            && (c.s in t' ==> n in r'.heard && Owner(w, t'[c.s].hw) in r'.plain)
  {
    var f := net.flight[l.i];
    assert SoleFrame(net, r, c, f) && FloodFrame(f, r, c) && RealFrame(w, f);
    OwnerOf(w, f.from);
    FreshEntry(w, net, l, c.s);
    FreshEntry(w, net, l, c.d);
  }

  lemma SoleTablesStep(w: Wiring, net: Net, l: Label, r: Reach, c: Quest)
    requires SoleInv(w, net, r, c) && Enabled(net, l) && SoleStep(net, l, c)
    ensures SoleTables(w, Next(w, net, l), Track(net, l, r, c), c)
  {
    var net' := Next(w, net, l);
    if l.Deliver? {
      SoleReceiver(w, net, l, r, c);
      assert forall n | n in net'.nodes && n != net.flight[l.i].to.node :: net'.nodes[n] == net.nodes[n];
    }
  }

  /** A node that has not processed the request has no route to `d` to offer, so it floods. */
  lemma NoOffers(w: Wiring, net: Net, l: Label, r: Reach, c: Quest)
    requires SoleInv(w, net, r, c) && Enabled(net, l) && SoleStep(net, l, c) && l.Deliver?
    requires var f := net.flight[l.i]; Copy(f.pkt, c) && !Dropped(f.pkt) && Unseen(f.to.node, net.nodes[f.to.node], f.pkt)
    ensures var f := net.flight[l.i];
            var n := f.to.node;
            && n !in r.heard
            && Floods(Heeded(net.nodes[n], f.pkt, f.from.hw, f.to.ifNo, l.env.now), f.pkt)
            && n in Track(net, l, r, c).plain
  {
    var f := net.flight[l.i];
    assert FloodFrame(f, r, c);
  }

  /** A new request is a copy: nobody turns it into a flagged one. */
  lemma NewSoleRequest(w: Wiring, net: Net, l: Label, r: Reach, c: Quest, o: Out)
    requires SoleInv(w, net, r, c) && Enabled(net, l) && SoleStep(net, l, c)
    requires o in OutsOf(w, net, l) && !o.ToClient? && o.pkt.kind == Rreq
    ensures Copy(o.pkt, c)
  {
    var f := net.flight[l.i];
    var n := f.to.node;
    assert SoleFrame(net, r, c, f);
    ProcessOuts(n, IfacesOf(w, n), net.nodes[n], f.pkt, f.from.hw, f.to.ifNo, l.env, o);
    NoOffers(w, net, l, r, c);
  }

  /** A new reply is the destination's answer to a copy, or a reply passed on, and it travels along
      the sender's route to `c.s`. */
  lemma NewSoleReply(w: Wiring, net: Net, l: Label, r: Reach, c: Quest, o: Out)
    requires SoleInv(w, net, r, c) && Enabled(net, l) && SoleStep(net, l, c)
    requires o in OutsOf(w, net, l) && !o.ToClient? && o.pkt.kind == Rrep
    ensures l.Deliver?
    ensures var f := net.flight[l.i];
            var t := Next(w, net, l).nodes[f.to.node].table;
            && o.Unicast? && c.s in t && o.to == t[c.s].hw
            && (Answers(net, l, c.s, c.d) || (OnCourse(net, c.s, f) && f.to.node != c.s && f.pkt.dst == c.d))
  {
    var f := net.flight[l.i];
    var n := f.to.node;
    var ifs := IfacesOf(w, n);
    assert SoleFrame(net, r, c, f);
    ProcessOuts(n, ifs, net.nodes[n], f.pkt, f.from.hw, f.to.ifNo, l.env, o);
    ProcessTable(n, ifs, net.nodes[n], f.pkt, f.from.hw, f.to.ifNo, l.env);
    if f.pkt.kind == Rreq && Unseen(n, net.nodes[n], f.pkt) {
      NoOffers(w, net, l, r, c);
    }
  }

  lemma NewSoleFrames(w: Wiring, net: Net, l: Label, r: Reach, c: Quest, g: Frame)
    requires SoleInv(w, net, r, c) && Enabled(net, l) && SoleStep(net, l, c)
    requires exists o :: o in OutsOf(w, net, l) && Carries(w, o, g)
    ensures SoleFrame(Next(w, net, l), Track(net, l, r, c), c, g)
  {
    var o :| o in OutsOf(w, net, l) && Carries(w, o, g);
    if g.pkt.kind == Rreq {
      NewSoleRequest(w, net, l, r, c, o);
    } else if g.pkt.kind == Rrep {
      NewSoleReply(w, net, l, r, c, o);
      SoleTablesStep(w, net, l, r, c);
      OwnerOf(w, g.to);
      SpreadAllIn(w, OutsOf(w, net, l));
      if Answers(net, l, c.s, c.d) {
        var a := AnswerOnCourse(w, net, l, c.s, c.d);
        assert g in [a];
      } else {
        var a := ForwardedOnCourse(w, net, l, c.s);
        assert g in [a];
      }
    }
  }

  lemma SoleInvStep(w: Wiring, net: Net, l: Label, r: Reach, c: Quest)
    requires SoleInv(w, net, r, c) && Enabled(net, l) && SoleStep(net, l, c)
    ensures SoleInv(w, Next(w, net, l), Track(net, l, r, c), c)
  {
    var net' := Next(w, net, l);
    var r' := Track(net, l, r, c);
    FloodInvStep(w, net, l, r, c);
    BackwardStep(w, net, l, c.s);
    BackwardStep(w, net, l, c.d);
    SoleTablesStep(w, net, l, r, c);
    forall g | g in net'.flight ensures SoleFrame(net', r', c, g) {
      FramesAfter(w, net, l, g);
      if g in net.flight {
        assert SoleFrame(net, r, c, g);
        if g.pkt.kind == Rrep {
          StaysOnCourse(w, net, l, c.s, g);
        }
      } else {
        NewSoleFrames(w, net, l, r, c, g);
      }
    }
    if c.s in net'.nodes[c.d].table {
      SoleAnswer(w, net, l, r, c);
    }
  }

  /** As soon as `d` has a route to `s`, it has answered. */
  lemma SoleAnswer(w: Wiring, net: Net, l: Label, r: Reach, c: Quest)
    requires SoleInv(w, net, r, c) && Enabled(net, l) && SoleStep(net, l, c)
    requires c.s in Next(w, net, l).nodes[c.d].table
    ensures ReplyPendingOrDone(Next(w, net, l), c.s, c.d)
  {
    var net' := Next(w, net, l);
    if c.s in net.nodes[c.d].table {
      PendingStep(w, net, l, c.s, c.d);
    } else {
      var f := net.flight[l.i];
      assert SoleFrame(net, r, c, f);
      FreshEntry(w, net, l, c.s);
      var g := AnswerOnCourse(w, net, l, c.s, c.d);
      assert g in [g];
      assert g in net'.flight;
    }
  }

  /** `net` is the state right after `c.s` has asked for `c.d` in a network that knows neither, and in
      which no control traffic is left over. */
  ghost predicate SoleStart(w: Wiring, before: Net, net: Net, c: Quest) {
    && JustAsked(w, before, net, c)
    && (forall f | f in before.flight :: f.pkt.kind == Data)
    && (forall n | n in before.nodes :: c.s !in before.nodes[n].table && c.d !in before.nodes[n].table)
  }

  lemma SoleInvStarts(w: Wiring, before: Net, net: Net, c: Quest)
    requires SoleStart(w, before, net, c)
    ensures SoleInv(w, net, Reach({c.s}, {c.s}), c) && FloodCovers(w, net, Reach({c.s}, {c.s}), c)
    ensures forall n | n in net.nodes :: c.s !in net.nodes[n].table && c.d !in net.nodes[n].table
    ensures forall f | f in net.flight && f.pkt.kind == Rreq :: f.pkt.rreqHop == 1
  {
    FloodStarts(w, before, net, c);
    var forced, msg :| !(c.d in before.nodes[c.s].table && forced == 0) && net == Next(w, before, Ask(c.s, c.d, forced, msg));
    var l := Ask(c.s, c.d, forced, msg);
    BackwardStep(w, before, l, c.s);
    BackwardStep(w, before, l, c.d);
    forall n | n in net.nodes ensures net.nodes[n].table == before.nodes[n].table {
    }
    forall f | f in net.flight
      ensures SoleFrame(net, Reach({c.s}, {c.s}), c, f) && (f.pkt.kind == Rreq ==> f.pkt.rreqHop == 1)
    {
      FirstFrame(w, before, net, c, forced, msg, f);
    }
  }

  lemma FirstFrame(w: Wiring, before: Net, net: Net, c: Quest, forced: int, msg: string, f: Frame)
    requires SoleStart(w, before, net, c) && f in net.flight
    requires !(c.d in before.nodes[c.s].table && forced == 0) && net == Next(w, before, Ask(c.s, c.d, forced, msg))
    ensures SoleFrame(net, Reach({c.s}, {c.s}), c, f) && (f.pkt.kind == Rreq ==> f.pkt.rreqHop == 1)
  {
    var l := Ask(c.s, c.d, forced, msg);
    FramesAfter(w, before, l, f);
    if f !in before.flight {
      var o :| o in OutsOf(w, before, l) && Carries(w, o, f);
      RequestOuts(c.s, IfacesOf(w, c.s), before.nodes[c.s], c.d, forced, msg, o);
    }
  }

  ghost predicate SoleRun(w: Wiring, before: Net, tr: seq<Net>, ls: seq<Label>, c: Quest) {
    Run(w, tr, ls) && SoleStart(w, before, tr[0], c) && forall j | 0 <= j < |ls| :: SoleStep(tr[j], ls[j], c)
  }

  lemma {:induction false} SoleInvRun(w: Wiring, before: Net, tr: seq<Net>, ls: seq<Label>, c: Quest, i: nat)
    requires SoleRun(w, before, tr, ls, c) && i < |tr|
    ensures SoleInv(w, tr[i], ReachAt(w, tr, ls, c, i), c)
  {
    if i == 0 {
      SoleInvStarts(w, before, tr[0], c);
    } else {
      SoleInvRun(w, before, tr, ls, c, i - 1);
      SoleInvStep(w, tr[i - 1], ls[i - 1], ReachAt(w, tr, ls, c, i - 1), c);
    }
  }

  /** A lone discovery succeeds: in a network of at most MAXH + 1 nodes with source and destination
      connected, in any delivery order and with any forced-discovery flags, once neither copies nor
      replies are in flight each end holds a route to the other, and no node has offered a route. */
  lemma DiscoverySucceeds(w: Wiring, before: Net, tr: seq<Net>, ls: seq<Label>, c: Quest, i: nat, path: seq<NodeId>)
    requires SoleRun(w, before, tr, ls, c) && i < |tr| && Small(before)
    requires forall f | f in tr[i].flight :: f.pkt.kind == Data
    requires Walk(w, path) && path[0] == c.s && path[|path| - 1] == c.d
    ensures c.s in tr[i].nodes && c.d in tr[i].nodes
    ensures c.d in tr[i].nodes[c.s].table && c.s in tr[i].nodes[c.d].table
    ensures Sane(w, tr[i]) && Backward(w, tr[i], c.s) && Backward(w, tr[i], c.d)
    ensures ReachAt(w, tr, ls, c, i).heard == ReachAt(w, tr, ls, c, i).plain + {c.d}
  {
    SoleInvRun(w, before, tr, ls, c, i);
    SoleRunCovers(w, before, tr, ls, c, i);
    DrainedAtBothEnds(w, tr[i], ReachAt(w, tr, ls, c, i), c, path);
  }

  lemma SoleRunCovers(w: Wiring, before: Net, tr: seq<Net>, ls: seq<Label>, c: Quest, i: nat)
    requires SoleRun(w, before, tr, ls, c) && i < |tr| && Small(before)
    ensures FloodCovers(w, tr[i], ReachAt(w, tr, ls, c, i), c)
  {
    FloodStarts(w, before, tr[0], c);
    assert tr[0].nodes.Keys == before.nodes.Keys;
    assert forall j | 0 <= j < i :: SoleStep(tr[j], ls[j], c);
    FloodInvRun(w, tr, ls, c, i);
  }

  lemma DrainedAtBothEnds(w: Wiring, net: Net, r: Reach, c: Quest, path: seq<NodeId>)
    requires SoleInv(w, net, r, c) && FloodCovers(w, net, r, c) && forall f | f in net.flight :: f.pkt.kind == Data
    requires Walk(w, path) && path[0] == c.s && path[|path| - 1] == c.d
    ensures c.d in net.nodes[c.s].table && c.s in net.nodes[c.d].table
    ensures r.heard == r.plain + {c.d}
  {
    FloodFollowsWalk(w, net, r, c, path);
    var n :| n in path && n in r.heard && n !in r.plain;
    forall m | m in r.heard ensures m in r.plain + {c.d} {
      if m != c.d {
        AllForwardersFlood(w, net, r, c, m);
      }
    }
    assert n == c.d;
  }

  /** And it serves its purpose: the payload that the source then sends reaches the destination, the
      answer comes back, and the client is handed it, within the two recorded hop counts. */
  lemma DiscoveryServes(w: Wiring, before: Net, tr: seq<Net>, ls: seq<Label>, c: Quest, i: nat, path: seq<NodeId>,
                        p: Packet, text: string) returns (there: seq<Frame>, back: seq<Frame>)
    requires SoleRun(w, before, tr, ls, c) && i < |tr| && Small(before)
    requires forall f | f in tr[i].flight :: f.pkt.kind == Data
    requires Walk(w, path) && path[0] == c.s && path[|path| - 1] == c.d
    requires p.kind == Data && p.srcDest == 1 && p.src == c.s && p.dst == c.d
    ensures c.s in tr[i].nodes && c.d in tr[i].nodes
    ensures c.d in tr[i].nodes[c.s].table && c.s in tr[i].nodes[c.d].table
    ensures there != [] && back != [] && Course(w, tr[i], there + back, Some(text))
    ensures SpreadAll(w, SendToward(IfacesOf(w, c.s), tr[i].nodes[c.s].table, c.d, p)) == [there[0]]
    ensures |there| <= tr[i].nodes[c.s].table[c.d].hop && |back| <= tr[i].nodes[c.d].table[c.s].hop
    ensures there[|there| - 1].to.node == c.d && back[|back| - 1].to.node == c.s
    ensures OnPayload(c.s, IfacesOf(w, c.s), tr[i].nodes[c.s], back[|back| - 1].pkt, Some(text)).1 == [ToClient(text, c.d)]
  {
    DiscoverySucceeds(w, before, tr, ls, c, i, path);
    there, back := RoundTrip(w, tr[i], c.s, c.d, p, text);
  }

  // ----- Shortest paths -----

  /** In this step, if a copy is delivered, no copy with fewer hops is in flight. */
  ghost predicate InHopOrder(net: Net, l: Label, c: Quest)
    requires Enabled(net, l)
  {
    l.Deliver? && Copy(net.flight[l.i].pkt, c) ==>
      forall g | g in net.flight && Copy(g.pkt, c) :: net.flight[l.i].pkt.rreqHop <= g.pkt.rreqHop
  }

  /** How far a node that flooded thinks the source is. */
  function Level(net: Net, c: Quest, n: NodeId): int
    requires n in net.nodes && (n == c.s || c.s in net.nodes[n].table)
  {
    Left(net, c.s, n)
  }

  /** `q` is known to be within `h` hops, or a copy that says so is on its way to it. */
  ghost predicate Within(net: Net, c: Quest, q: Iface, h: int)
    requires q.node in net.nodes
  {
    || q.node == c.s
    || (c.s in net.nodes[q.node].table && net.nodes[q.node].table[c.s].hop <= h)
    || exists f :: f in net.flight && f.to == q && Copy(f.pkt, c) && f.pkt.rreqHop <= h
  }

  /** Breadth first: a copy carries its sender's level plus one, no flooding node's level exceeds the
      hop count of a copy still in flight, and the neighbours of a node at level `h` below MAXH are, or
      are about to be, within `h + 1`. */
  ghost predicate OrderInv(w: Wiring, net: Net, r: Reach, c: Quest)
    requires SoleInv(w, net, r, c)
  {
    && (forall f | f in net.flight && Copy(f.pkt, c) :: f.pkt.rreqHop == Level(net, c, f.from.node) + 1)
    && (forall f, m | f in net.flight && Copy(f.pkt, c) && m in r.plain :: Level(net, c, m) <= f.pkt.rreqHop)
    && (forall p, q | p in w && q in w && p.node in r.plain && Joined(p, q) && Level(net, c, p.node) < MAXH ::
          Within(net, c, q, Level(net, c, p.node) + 1))
  }

  /** Levels are settled: a later copy never improves on the first. */
  lemma LevelsSettle(w: Wiring, net: Net, l: Label, r: Reach, c: Quest, m: NodeId)
    requires SoleInv(w, net, r, c) && OrderInv(w, net, r, c)
    requires Enabled(net, l) && SoleStep(net, l, c) && m in r.plain
    ensures m in Next(w, net, l).nodes && (m == c.s || c.s in Next(w, net, l).nodes[m].table)
    ensures Level(Next(w, net, l), c, m) == Level(net, c, m)
  {
    if l.Deliver? {
      var f := net.flight[l.i];
      assert SoleFrame(net, r, c, f);
      FreshEntry(w, net, l, c.s);
    }
  }

  /** The level of a node that floods in this step is the hop count of the copy that made it do so. */
  lemma NewLevel(w: Wiring, net: Net, l: Label, r: Reach, c: Quest, m: NodeId)
    requires SoleInv(w, net, r, c) && OrderInv(w, net, r, c)
    requires Enabled(net, l) && SoleStep(net, l, c) && m in Track(net, l, r, c).plain && m !in r.plain
    ensures l.Deliver? && m == net.flight[l.i].to.node && Copy(net.flight[l.i].pkt, c)
    ensures m in Next(w, net, l).nodes && c.s in Next(w, net, l).nodes[m].table
    ensures Level(Next(w, net, l), c, m) == net.flight[l.i].pkt.rreqHop <= MAXH
  {
    FreshEntry(w, net, l, c.s);
    NoOffers(w, net, l, r, c);
  }

  /** A copy in flight after the step was there before, or has just been sent by a new forwarder. */
  lemma CopiesAfter(w: Wiring, net: Net, l: Label, r: Reach, c: Quest, g: Frame)
    requires SoleInv(w, net, r, c) && Enabled(net, l) && SoleStep(net, l, c)
    requires g in Next(w, net, l).flight && Copy(g.pkt, c)
    ensures g in net.flight ||
            (l.Deliver? && g.from.node == net.flight[l.i].to.node && g.pkt.rreqHop == net.flight[l.i].pkt.rreqHop + 1
             && g.from.node in Track(net, l, r, c).plain && g.from.node !in r.plain)
  {
    FramesAfter(w, net, l, g);
    if g !in net.flight {
      var o :| o in OutsOf(w, net, l) && Carries(w, o, g);
      OutsVia(w, net, l, o);
      NewRequests(w, net, l, r, c, o);
      NoOffers(w, net, l, r, c);
    }
  }

  lemma StaysWithin(w: Wiring, net: Net, l: Label, r: Reach, c: Quest, q: Iface, h: int)
    requires SoleInv(w, net, r, c) && Enabled(net, l) && SoleStep(net, l, c)
    requires q in w && Within(net, c, q, h) && h <= MAXH
    ensures q.node in Next(w, net, l).nodes && Within(Next(w, net, l), c, q, h)
  {
    CloserStep(w, net, l, c.s);
    if q.node != c.s && !(c.s in net.nodes[q.node].table && net.nodes[q.node].table[c.s].hop <= h) {
      var f :| f in net.flight && f.to == q && Copy(f.pkt, c) && f.pkt.rreqHop <= h;
      assert FloodFrame(f, r, c);
      if !l.Ask? && f == net.flight[l.i] {
        FreshEntry(w, net, l, c.s);
      } else {
        FramesStay(w, net, l, f);
      }
    }
  }

  /** A new forwarder reaches its other segments itself. */
  lemma NewForwarderFloods(w: Wiring, net: Net, l: Label, r: Reach, c: Quest, p: Iface, q: Iface)
    requires SoleInv(w, net, r, c) && Enabled(net, l) && SoleStep(net, l, c)
    requires p in w && q in w && Joined(p, q)
    requires p.node in Track(net, l, r, c).plain && p.node !in r.plain
    requires l.Deliver? && p != net.flight[l.i].to
    ensures q.node in Next(w, net, l).nodes
    ensures Within(Next(w, net, l), c, q, net.flight[l.i].pkt.rreqHop + 1)
  {
    NewForwarderSends(w, net, l, r, c, p, q);
  }

  /** On the segment the copy came from, the sender's own flood has reached everybody one hop earlier. */
  lemma NewForwarderReaches(w: Wiring, net: Net, l: Label, r: Reach, c: Quest, p: Iface, q: Iface)
    requires SoleInv(w, net, r, c) && OrderInv(w, net, r, c) && Enabled(net, l) && SoleStep(net, l, c)
    requires p in w && q in w && Joined(p, q)
    requires p.node in Track(net, l, r, c).plain && p.node !in r.plain
    ensures l.Deliver? && q.node in Next(w, net, l).nodes
    ensures Within(Next(w, net, l), c, q, net.flight[l.i].pkt.rreqHop + 1)
  {
    var f := net.flight[l.i];
    var h := f.pkt.rreqHop;
    if p != f.to {
      NewForwarderFloods(w, net, l, r, c, p, q);
    } else {
      assert FloodFrame(f, r, c) && RealFrame(w, f);
      assert Level(net, c, f.from.node) == h - 1;
      if q == f.from {
        LevelsSettle(w, net, l, r, c, q.node);
      } else {
        assert Joined(f.from, q);
        StaysWithin(w, net, l, r, c, q, h);
      }
    }
  }

  /** The level of every forwarder after a step. */
  lemma LevelsAfter(w: Wiring, net: Net, l: Label, r: Reach, c: Quest, m: NodeId)
    requires SoleInv(w, net, r, c) && OrderInv(w, net, r, c)
    requires Enabled(net, l) && SoleStep(net, l, c) && m in Track(net, l, r, c).plain
    ensures m !in r.plain ==> l.Deliver? && Copy(net.flight[l.i].pkt, c) && net.flight[l.i].pkt.rreqHop <= MAXH
    ensures m in Next(w, net, l).nodes && (m == c.s || c.s in Next(w, net, l).nodes[m].table)
    ensures Level(Next(w, net, l), c, m) == if m in r.plain then Level(net, c, m) else net.flight[l.i].pkt.rreqHop
  {
    if m in r.plain {
      LevelsSettle(w, net, l, r, c, m);
    } else {
      NewLevel(w, net, l, r, c, m);
    }
  }

  /** Copies keep the breadth-first order. */
  lemma OrderedCopies(w: Wiring, net: Net, l: Label, r: Reach, c: Quest, g: Frame)
    requires SoleInv(w, net, r, c) && OrderInv(w, net, r, c)
    requires Enabled(net, l) && SoleStep(net, l, c) && InHopOrder(net, l, c)
    requires SoleInv(w, Next(w, net, l), Track(net, l, r, c), c)
    requires g in Next(w, net, l).flight && Copy(g.pkt, c)
    ensures g.pkt.rreqHop == Level(Next(w, net, l), c, g.from.node) + 1
    ensures forall m | m in Track(net, l, r, c).plain :: Level(Next(w, net, l), c, m) <= g.pkt.rreqHop
  {
    CopiesAfter(w, net, l, r, c, g);
    if g in net.flight {
      assert FloodFrame(g, r, c);
    }
    LevelsAfter(w, net, l, r, c, g.from.node);
    forall m | m in Track(net, l, r, c).plain
      ensures Level(Next(w, net, l), c, m) <= g.pkt.rreqHop
    {
      LevelsAfter(w, net, l, r, c, m);
    }
  }

  lemma OrderInvStep(w: Wiring, net: Net, l: Label, r: Reach, c: Quest)
    requires SoleInv(w, net, r, c) && OrderInv(w, net, r, c)
    requires Enabled(net, l) && SoleStep(net, l, c) && InHopOrder(net, l, c)
    requires SoleInv(w, Next(w, net, l), Track(net, l, r, c), c)
    ensures OrderInv(w, Next(w, net, l), Track(net, l, r, c), c)
  {
    hide Next, Track, SoleStep;
    var net' := Next(w, net, l);
    var r' := Track(net, l, r, c);
    forall g | g in net'.flight && Copy(g.pkt, c)
      ensures g.pkt.rreqHop == Level(net', c, g.from.node) + 1
      ensures forall m | m in r'.plain :: Level(net', c, m) <= g.pkt.rreqHop
    {
      OrderedCopies(w, net, l, r, c, g);
    }
    forall p, q | p in w && q in w && p.node in r'.plain && Joined(p, q) && Level(net', c, p.node) < MAXH
      ensures Within(net', c, q, Level(net', c, p.node) + 1)
    {
      OrderedNeighbours(w, net, l, r, c, p, q);
    }
  }

  /** So do the neighbours of flooding nodes. */
  lemma OrderedNeighbours(w: Wiring, net: Net, l: Label, r: Reach, c: Quest, p: Iface, q: Iface)
    requires SoleInv(w, net, r, c) && OrderInv(w, net, r, c)
    requires Enabled(net, l) && SoleStep(net, l, c)
    requires SoleInv(w, Next(w, net, l), Track(net, l, r, c), c)
    requires p in w && q in w && Joined(p, q) && p.node in Track(net, l, r, c).plain
    requires Level(Next(w, net, l), c, p.node) < MAXH
    ensures Within(Next(w, net, l), c, q, Level(Next(w, net, l), c, p.node) + 1)
  {
    LevelsAfter(w, net, l, r, c, p.node);
    if p.node in r.plain {
      StaysWithin(w, net, l, r, c, q, Level(net, c, p.node) + 1);
    } else {
      NewForwarderReaches(w, net, l, r, c, p, q);
    }
  }

  lemma OrderInvStarts(w: Wiring, before: Net, net: Net, c: Quest)
    requires SoleStart(w, before, net, c)
    ensures SoleInv(w, net, Reach({c.s}, {c.s}), c) && OrderInv(w, net, Reach({c.s}, {c.s}), c)
  {
    var r := Reach({c.s}, {c.s});
    SoleInvStarts(w, before, net, c);
    forall f | f in net.flight && Copy(f.pkt, c) ensures f.from.node == c.s {
      assert FloodFrame(f, r, c);
    }
    forall p, q | p in w && q in w && p.node == c.s && Joined(p, q) ensures Within(net, c, q, 1) {
      assert Told(net, r, c, q);
    }
  }

  ghost predicate OrderedRun(w: Wiring, before: Net, tr: seq<Net>, ls: seq<Label>, c: Quest) {
    SoleRun(w, before, tr, ls, c) && forall j | 0 <= j < |ls| :: InHopOrder(tr[j], ls[j], c)
  }

  lemma {:induction false} OrderInvRun(w: Wiring, before: Net, tr: seq<Net>, ls: seq<Label>, c: Quest, i: nat)
    requires OrderedRun(w, before, tr, ls, c) && i < |tr|
    ensures SoleInv(w, tr[i], ReachAt(w, tr, ls, c, i), c) && OrderInv(w, tr[i], ReachAt(w, tr, ls, c, i), c)
  {
    if i == 0 {
      OrderInvStarts(w, before, tr[0], c);
    } else {
      OrderInvRun(w, before, tr, ls, c, i - 1);
      SoleInvStep(w, tr[i - 1], ls[i - 1], ReachAt(w, tr, ls, c, i - 1), c);
      OrderInvStep(w, tr[i - 1], ls[i - 1], ReachAt(w, tr, ls, c, i - 1), c);
    }
  }

  /** When the flood is over, any walk of at most MAXH hops from the source bounds the level of its
      last node, or already the hop count that the destination has recorded. */
  lemma {:induction false} WalksBoundLevels(w: Wiring, net: Net, r: Reach, c: Quest, path: seq<NodeId>)
    requires SoleInv(w, net, r, c) && OrderInv(w, net, r, c) && forall f | f in net.flight :: !Copy(f.pkt, c)
    requires Walk(w, path) && path[0] == c.s && |path| - 1 <= MAXH
    ensures || (c.s in net.nodes[c.d].table && net.nodes[c.d].table[c.s].hop <= |path| - 1)
            || (path[|path| - 1] in r.plain && Level(net, c, path[|path| - 1]) <= |path| - 1)
  {
    var z := |path| - 1;
    if z > 0 {
      WalksBoundLevels(w, net, r, c, path[..z]);
      assert Adjacent(w, path[z - 1], path[z]);
      var p, q :| p in w && q in w && p.node == path[z - 1] && q.node == path[z] && Joined(p, q);
      if p.node in r.plain && Level(net, c, p.node) <= z - 1 {
        assert Within(net, c, q, Level(net, c, p.node) + 1);
      }
    }
  }

  function Reversed(path: seq<NodeId>): seq<NodeId> {
    seq(|path|, i requires 0 <= i < |path| => path[|path| - 1 - i])
  }

  lemma ReversedWalk(w: Wiring, path: seq<NodeId>)
    requires Walk(w, path)
    ensures Walk(w, Reversed(path)) && |Reversed(path)| == |path|
    ensures Reversed(path)[0] == path[|path| - 1] && Reversed(path)[|path| - 1] == path[0]
  {
    var back := Reversed(path);
    forall i | 0 <= i < |back| - 1 ensures Adjacent(w, back[i], back[i + 1]) {
      var j := |path| - 2 - i;
      assert Adjacent(w, path[j], path[j + 1]);
      var p, q :| p in w && q in w && p.node == path[j] && q.node == path[j + 1] && Joined(p, q);
      assert Joined(q, p);
    }
  }

  /** Shortest paths: in a lone discovery that processes copies in hop order, in a network of any size
      with the destination at distance at most MAXH, the destination ends up recording exactly the
      distance to the source, and its chain of next hops is a shortest path. */
  lemma ShortestPath(w: Wiring, before: Net, tr: seq<Net>, ls: seq<Label>, c: Quest, i: nat, h: nat)
    requires OrderedRun(w, before, tr, ls, c) && i < |tr|
    requires forall f | f in tr[i].flight :: !Copy(f.pkt, c)
    requires Distance(w, c.d, c.s, h) && h <= MAXH
    ensures c.d in tr[i].nodes && c.s in tr[i].nodes[c.d].table && tr[i].nodes[c.d].table[c.s].hop == h
    ensures Sane(w, tr[i]) && Backward(w, tr[i], c.s)
    ensures var chain := Chain(w, tr[i], c.d, c.s);
            Walk(w, chain) && chain[0] == c.d && chain[|chain| - 1] == c.s && |chain| == h + 1
  {
    OrderInvRun(w, before, tr, ls, c, i);
    ShortestAtRest(w, tr[i], ReachAt(w, tr, ls, c, i), c, h);
  }

  lemma ShortestAtRest(w: Wiring, net: Net, r: Reach, c: Quest, h: nat)
    requires SoleInv(w, net, r, c) && OrderInv(w, net, r, c) && forall f | f in net.flight :: !Copy(f.pkt, c)
    requires Distance(w, c.d, c.s, h) && h <= MAXH
    ensures c.s in net.nodes[c.d].table && net.nodes[c.d].table[c.s].hop == h
    ensures var chain := Chain(w, net, c.d, c.s);
            Walk(w, chain) && chain[0] == c.d && chain[|chain| - 1] == c.s && |chain| == h + 1
  {
    var path :| Walk(w, path) && path[0] == c.d && path[|path| - 1] == c.s && |path| == h + 1;
    ReversedWalk(w, path);
    WalksBoundLevels(w, net, r, c, Reversed(path));
    ChainReaches(w, net, c.d, c.s);
  }
}
