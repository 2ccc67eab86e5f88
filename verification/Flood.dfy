/** Flood coverage: when a discovery loses no copy of its request, the flood stops only where the
    destination has answered or a node has offered a route of its own.

    The statement is about one request of one source.  Other discoveries may run at the same time,
    entries may go stale, and payloads may rewrite tables. */
module Flood {
  import opened OdrTypes
  import opened TableSpec
  import opened NodeSpec
  import opened Network
  import opened Links
  import opened LoopFreedom
  import opened Forwarding

  /** The discovery in question: source, destination, broadcast id. */
  datatype Quest = Quest(s: NodeId, d: NodeId, b: int)

  /** Which nodes have processed a searching copy so far, and which of them have flooded it on. */
  datatype Reach = Reach(heard: set<NodeId>, plain: set<NodeId>)

  predicate RequestOf(p: Packet, s: NodeId) {
    p.kind == Rreq && p.src == s
  }

  /** A copy of the request that is still searching. */
  predicate Copy(p: Packet, c: Quest) {
    RequestOf(p, c.s) && p.dst == c.d && p.id == c.b && p.rrepSent != 1
  }

  /** How a node that processes a packet extends the record. */
  function Noted(r: Reach, c: Quest, n: NodeId, st: Node, p: Packet, hw: Hw, recvIf: int, now: int): Reach {
    if Copy(p, c) && !Dropped(p) then
      Reach(r.heard + {n}, if Unseen(n, st, p) && Floods(Heeded(st, p, hw, recvIf, now), p) then r.plain + {n} else r.plain)
    else r
  }

  /** How one step extends the record. */
  function Track(net: Net, l: Label, r: Reach, c: Quest): Reach
    requires Enabled(net, l)
  {
    if l.Deliver? then
      var f := net.flight[l.i];
      Noted(r, c, f.to.node, net.nodes[f.to.node], f.pkt, f.from.hw, f.to.ifNo, l.env.now)
    else r
  }

  /** The record along a run that starts with the source's own flood. */
  ghost function ReachAt(w: Wiring, tr: seq<Net>, ls: seq<Label>, c: Quest, i: nat): Reach
    requires Run(w, tr, ls) && i < |tr|
  {
    if i == 0 then Reach({c.s}, {c.s}) else Track(tr[i - 1], ls[i - 1], ReachAt(w, tr, ls, c, i - 1), c)
  }

  // ----- The invariant -----

  /** What the flood has left at node `n`: its slot tells whether it has heard, and if it has it holds a
      route to the source, and one to the destination unless it has passed the request on. */
  ghost predicate FloodNode(st: Node, r: Reach, c: Quest, n: NodeId) {
    && (n == c.s ==> Latest(st, n) > c.b)
    && (n != c.s && n != c.d ==> (n in r.heard <==> Latest(st, c.s) >= c.b))
    && (n in r.heard && n != c.s ==> c.s in st.table)
    && (n in r.heard && n !in r.plain && n != c.d ==> c.d in st.table)
  }

  ghost predicate FloodNodes(net: Net, r: Reach, c: Quest) {
    && c.s != c.d && 1 <= c.b <= 126
    && c.d in net.nodes
    && c.s in r.plain && c.d !in r.plain
    && r.plain <= r.heard <= net.nodes.Keys
    && forall n | n in net.nodes :: FloodNode(net.nodes[n], r, c, n)
  }

  predicate FloodFrame(f: Frame, r: Reach, c: Quest) {
    RequestOf(f.pkt, c.s) ==>
      && f.pkt.dst == c.d && f.pkt.id == c.b
      && (f.pkt.rrepSent != 1 ==>
            f.from.node in r.plain && f.pkt.rrepHop <= MAXH && 1 <= f.pkt.rreqHop <= |r.heard - {c.d}|)
  }

  ghost predicate FloodFrames(net: Net, r: Reach, c: Quest) {
    forall f | f in net.flight :: FloodFrame(f, r, c)
  }

  /** `q` has been reached, or a copy is on its way to it. */
  ghost predicate Told(net: Net, r: Reach, c: Quest, q: Iface) {
    q.node in r.heard || exists f :: f in net.flight && f.to == q && Copy(f.pkt, c)
  }

  ghost predicate FloodCovers(w: Wiring, net: Net, r: Reach, c: Quest) {
    forall p, q | p in w && q in w && p.node in r.plain && Joined(p, q) :: Told(net, r, c, q)
  }

  ghost predicate FloodInv(w: Wiring, net: Net, r: Reach, c: Quest) {
    Sane(w, net) && FloodNodes(net, r, c) && FloodFrames(net, r, c)
  }

  /** The network is small enough for no copy to run out of hops. */
  predicate Small(net: Net) {
    |net.nodes.Keys| <= MAXH + 1
  }

  /** The source asks nothing else meanwhile, and no copy is lost. */
  predicate KeepsFlood(net: Net, l: Label, c: Quest)
    requires Enabled(net, l)
  {
    && (l.Ask? ==> l.n != c.s)
    && (l.Lose? ==> !Copy(net.flight[l.i].pkt, c))
  }

  // ----- One step keeps it -----

  lemma SubsetSize<T>(a: set<T>, b: set<T>)
    requires a <= b
    ensures |a| <= |b|
  {
    assert b == a + (b - a);
  }

  /** No copy is ever dropped: forwarders on its way are distinct, and the destination is not one. */
  lemma CopiesAreNotDropped(net: Net, r: Reach, c: Quest, f: Frame)
    requires Small(net) && FloodNodes(net, r, c) && FloodFrames(net, r, c) && f in net.flight && Copy(f.pkt, c)
    ensures !Dropped(f.pkt)
  {
    assert FloodFrame(f, r, c);
    SubsetSize(r.heard - {c.d}, net.nodes.Keys - {c.d});
  }

  /** What processing a packet leaves at the node. */
  lemma FloodNodeStep(n: NodeId, ifs: seq<Iface>, st: Node, p: Packet, hw: Hw, recvIf: int, env: Env, r: Reach, c: Quest)
    requires FloodNode(st, r, c, n) && (RequestOf(p, c.s) ==> p.dst == c.d && p.id == c.b)
    requires c.s != c.d && 1 <= c.b <= 126 && c.s in r.plain && r.plain <= r.heard
    ensures FloodNode(Process(n, ifs, st, p, hw, recvIf, env).0, Noted(r, c, n, st, p, hw, recvIf, env.now), c, n)
  {
    ProcessSlots(n, ifs, st, p, hw, recvIf, env, c.s);
    ProcessTable(n, ifs, st, p, hw, recvIf, env);
  }

  lemma FloodNodesStep(w: Wiring, net: Net, l: Label, r: Reach, c: Quest)
    requires FloodInv(w, net, r, c) && Enabled(net, l) && KeepsFlood(net, l, c)
    ensures FloodNodes(Next(w, net, l), Track(net, l, r, c), c)
  {
    var net' := Next(w, net, l);
    var r' := Track(net, l, r, c);
    RecordGrows(w, net, l, r, c);
    forall n | n in net'.nodes ensures FloodNode(net'.nodes[n], r', c, n) {
      assert FloodNode(net.nodes[n], r, c, n);
      hide Process, Request, Track, Sane;
      if l.Deliver? && n == net.flight[l.i].to.node {
        var f := net.flight[l.i];
        assert FloodFrame(f, r, c);
        FloodNodeStep(n, IfacesOf(w, n), net.nodes[n], f.pkt, f.from.hw, f.to.ifNo, l.env, r, c);
        assert r' == Noted(r, c, n, net.nodes[n], f.pkt, f.from.hw, f.to.ifNo, l.env.now);
      } else {
        FloodNodeStays(w, net, l, r, c, n);
      }
    }
  }

  /** Nothing changes at a node to which nothing is delivered, other than in what the node sends itself. */
  lemma FloodNodeStays(w: Wiring, net: Net, l: Label, r: Reach, c: Quest, n: NodeId)
    requires Enabled(net, l) && n in net.nodes && !(l.Deliver? && n == net.flight[l.i].to.node)
    requires (l.Ask? ==> l.n != c.s) && FloodNode(net.nodes[n], r, c, n)
    ensures n in Next(w, net, l).nodes && FloodNode(Next(w, net, l).nodes[n], Track(net, l, r, c), c, n)
  {
  }

  /** The record only grows, and by the receiver alone; the destination never floods. */
  lemma RecordGrows(w: Wiring, net: Net, l: Label, r: Reach, c: Quest)
    requires FloodInv(w, net, r, c) && Enabled(net, l)
    ensures var r' := Track(net, l, r, c);
            && r.plain <= r'.plain <= r'.heard <= net.nodes.Keys && r.heard <= r'.heard && c.d !in r'.plain
    ensures Next(w, net, l).nodes.Keys == net.nodes.Keys
  {
    hide Act;
  }

  /** A request of `c.s` leaves a node only because that node has passed on a copy, one hop longer. */
  lemma NewRequests(w: Wiring, net: Net, l: Label, r: Reach, c: Quest, o: Out)
    requires FloodInv(w, net, r, c) && Enabled(net, l) && KeepsFlood(net, l, c)
    requires o in OutsOf(w, net, l) && !o.ToClient? && RequestOf(o.pkt, c.s)
    ensures l.Deliver?
    ensures var f := net.flight[l.i];
            && Copy(f.pkt, c) && !Dropped(f.pkt) && Unseen(f.to.node, net.nodes[f.to.node], f.pkt)
            && o.pkt.dst == c.d && o.pkt.id == c.b
            && (o.pkt.rrepSent != 1 ==>
                  f.to.node in Track(net, l, r, c).plain
                  && o.pkt.rrepHop == f.pkt.rrepHop && o.pkt.rreqHop == f.pkt.rreqHop + 1)
  {
    var n := Actor(net, l);
    if l.Deliver? {
      var f := net.flight[l.i];
      assert FloodFrame(f, r, c);
      ProcessOuts(n, IfacesOf(w, n), net.nodes[n], f.pkt, f.from.hw, f.to.ifNo, l.env, o);
    } else {
      RequestOuts(n, IfacesOf(w, n), net.nodes[n], l.dst, l.forced, l.msg, o);
    }
  }

  lemma NewFloodFrame(w: Wiring, net: Net, l: Label, r: Reach, c: Quest, o: Out, g: Frame)
    requires FloodInv(w, net, r, c) && Enabled(net, l) && KeepsFlood(net, l, c)
    requires o in OutsOf(w, net, l) && Carries(w, o, g) && RequestOf(g.pkt, c.s)
    ensures FloodFrame(g, Track(net, l, r, c), c)
  {
    hide Act, Sane, Process;
    OutsVia(w, net, l, o);
    NewRequests(w, net, l, r, c, o);
    var f := net.flight[l.i];
    var n := f.to.node;
    assert FloodFrame(f, r, c) && FloodNode(net.nodes[n], r, c, n) && c.s in r.heard;
    hide FloodInv, FloodNodes, FloodFrames;
    assert n !in r.heard && n != c.d;
    assert Track(net, l, r, c).heard - {c.d} == (r.heard - {c.d}) + {n};
  }

  lemma FloodFramesStep(w: Wiring, net: Net, l: Label, r: Reach, c: Quest)
    requires FloodInv(w, net, r, c) && Enabled(net, l) && KeepsFlood(net, l, c)
    ensures FloodFrames(Next(w, net, l), Track(net, l, r, c), c)
  {
    var net' := Next(w, net, l);
    var r' := Track(net, l, r, c);
    RecordGrows(w, net, l, r, c);
    SubsetSize(r.heard - {c.d}, r'.heard - {c.d});
    forall g | g in net'.flight ensures FloodFrame(g, r', c) {
      hide Next, Track;
      FramesAfter(w, net, l, g);
      if g in net.flight {
        assert FloodFrame(g, r, c);
      } else if RequestOf(g.pkt, c.s) {
        var o :| o in OutsOf(w, net, l) && Carries(w, o, g);
        NewFloodFrame(w, net, l, r, c, o, g);
      }
    }
  }

  /** A node that passes a request on without an offer floods it on every interface but one. */
  lemma FloodsOut(self: NodeId, ifs: seq<Iface>, st: Node, p: Packet, hw: Hw, recvIf: int, env: Env, via: Iface)
    requires p.kind == Rreq && !Dropped(p) && Unseen(self, st, p) && Floods(Heeded(st, p, hw, recvIf, env.now), p)
    requires via in ifs && via.ifNo != recvIf
    ensures Broadcast(via, p.(rreqHop := p.rreqHop + 1)) in Process(self, ifs, st, p, hw, recvIf, env).1
  {
    BroadcastOuts(ifs, p.(rreqHop := p.rreqHop + 1), recvIf);
  }

  /** A node that starts flooding in this step puts a copy in flight to everybody on the segments of its
      interfaces other than the one the copy came in by. */
  lemma NewForwarderSends(w: Wiring, net: Net, l: Label, r: Reach, c: Quest, p: Iface, q: Iface)
    requires Sane(w, net) && Enabled(net, l) && l.Deliver? && p != net.flight[l.i].to
    requires p in w && q in w && Joined(p, q)
    requires p.node in Track(net, l, r, c).plain && p.node !in r.plain
    ensures var copy := net.flight[l.i].pkt.(rreqHop := net.flight[l.i].pkt.rreqHop + 1);
            Copy(copy, c) && Frame(p, q, copy) in Next(w, net, l).flight
  {
    var f := net.flight[l.i];
    var n := f.to.node;
    var copy := f.pkt.(rreqHop := f.pkt.rreqHop + 1);
    var o := Broadcast(p, copy);
    assert RealFrame(w, f);
    IfacesOfIn(w, n);
    FloodsOut(n, IfacesOf(w, n), net.nodes[n], f.pkt, f.from.hw, f.to.ifNo, l.env, p);
    assert o in OutsOf(w, net, l) && Carries(w, o, Frame(p, q, copy));
    hide Process, OutsOf;
    FramesStay(w, net, l, Frame(p, q, copy));
  }

  lemma FloodCoversStep(w: Wiring, net: Net, l: Label, r: Reach, c: Quest)
    requires FloodInv(w, net, r, c) && Small(net) && FloodCovers(w, net, r, c) && Enabled(net, l) && KeepsFlood(net, l, c)
    ensures FloodCovers(w, Next(w, net, l), Track(net, l, r, c), c)
  {
    var net' := Next(w, net, l);
    var r' := Track(net, l, r, c);
    forall p, q | p in w && q in w && p.node in r'.plain && Joined(p, q) ensures Told(net', r', c, q) {
      if p.node in r.plain {
        StillTold(w, net, l, r, c, q);
      } else {
        var f := net.flight[l.i];
        if p != f.to {
          NewForwarderSends(w, net, l, r, c, p, q);
        } else {
          assert FloodFrame(f, r, c) && RealFrame(w, f);
          if q != f.from {
            assert Joined(f.from, q);
            StillTold(w, net, l, r, c, q);
          }
        }
      }
    }
  }

  lemma StillTold(w: Wiring, net: Net, l: Label, r: Reach, c: Quest, q: Iface)
    requires FloodInv(w, net, r, c) && Small(net) && Enabled(net, l) && KeepsFlood(net, l, c) && Told(net, r, c, q)
    ensures Told(Next(w, net, l), Track(net, l, r, c), c, q)
  {
    if q.node !in r.heard {
      var f :| f in net.flight && f.to == q && Copy(f.pkt, c);
      CopiesAreNotDropped(net, r, c, f);
      if l.Ask? || f != net.flight[l.i] {
        FramesStay(w, net, l, f);
      }
    }
  }

  lemma FloodInvStep(w: Wiring, net: Net, l: Label, r: Reach, c: Quest)
    requires FloodInv(w, net, r, c) && Enabled(net, l) && KeepsFlood(net, l, c)
    ensures FloodInv(w, Next(w, net, l), Track(net, l, r, c), c)
  {
    SaneStep(w, net, l);
    FloodNodesStep(w, net, l, r, c);
    FloodFramesStep(w, net, l, r, c);
  }

  lemma {:induction false} FloodInvRun(w: Wiring, tr: seq<Net>, ls: seq<Label>, c: Quest, i: nat)
    requires Run(w, tr, ls) && i < |tr|
    requires forall j | 0 <= j < i :: KeepsFlood(tr[j], ls[j], c)
    requires var r := Reach({c.s}, {c.s}); FloodInv(w, tr[0], r, c) && FloodCovers(w, tr[0], r, c)
    ensures var r := ReachAt(w, tr, ls, c, i); FloodInv(w, tr[i], r, c) && (Small(tr[0]) ==> FloodCovers(w, tr[i], r, c))
    ensures tr[i].nodes.Keys == tr[0].nodes.Keys
  {
    if i > 0 {
      FloodInvRun(w, tr, ls, c, i - 1);
      var r := ReachAt(w, tr, ls, c, i - 1);
      FloodInvStep(w, tr[i - 1], ls[i - 1], r, c);
      assert tr[i].nodes.Keys == tr[i - 1].nodes.Keys;
      if Small(tr[0]) {
        FloodCoversStep(w, tr[i - 1], ls[i - 1], r, c);
      }
    }
  }

  // ----- The start -----

  /** `net` is the state right after `c.s` has flooded the request `c`: nobody else has seen id `c.b`,
      and no request of `c.s` is in flight but the copies this flood has put there. */
  ghost predicate JustAsked(w: Wiring, before: Net, net: Net, c: Quest) {
    && Sane(w, before)
    && c.s != c.d && c.s in before.nodes && c.d in before.nodes
    && (forall f | f in before.flight :: !RequestOf(f.pkt, c.s))
    && (forall n | n in before.nodes && n != c.s && n != c.d :: Latest(before.nodes[n], c.s) < c.b)
    && 1 <= c.b <= 126 && before.nodes[c.s].running == c.b
    && exists forced, msg ::
         && !(c.d in before.nodes[c.s].table && forced == 0)
         && net == Next(w, before, Ask(c.s, c.d, forced, msg))
  }

  lemma FloodStarts(w: Wiring, before: Net, net: Net, c: Quest)
    requires JustAsked(w, before, net, c)
    ensures FloodInv(w, net, Reach({c.s}, {c.s}), c) && FloodCovers(w, net, Reach({c.s}, {c.s}), c)
    ensures net.nodes.Keys == before.nodes.Keys
  {
    var forced, msg :| !(c.d in before.nodes[c.s].table && forced == 0) && net == Next(w, before, Ask(c.s, c.d, forced, msg));
    var l := Ask(c.s, c.d, forced, msg);
    var r := Reach({c.s}, {c.s});
    SaneStep(w, before, l);
    forall f | f in net.flight ensures FloodFrame(f, r, c) {
      FirstFlood(w, before, net, c, l, f);
    }
    forall p, q | p in w && q in w && p.node in r.plain && Joined(p, q) ensures Told(net, r, c, q) {
      NeighbourTold(w, before, net, c, l, p, q);
    }
  }

  /** What is in flight after the source's own flood. */
  lemma FirstFlood(w: Wiring, before: Net, net: Net, c: Quest, l: Label, f: Frame)
    requires JustAsked(w, before, net, c) && l.Ask? && l.n == c.s && l.dst == c.d
    requires !(c.d in before.nodes[c.s].table && l.forced == 0) && net == Next(w, before, l) && f in net.flight
    ensures FloodFrame(f, Reach({c.s}, {c.s}), c)
  {
    FramesAfter(w, before, l, f);
    if f !in before.flight {
      var o :| o in OutsOf(w, before, l) && Carries(w, o, f);
      BroadcastOuts(IfacesOf(w, c.s), net.nodes[c.s].header, ALL_INTERFACES);
      IfacesOfIn(w, c.s);
      assert {c.s} - {c.d} == {c.s};
    }
  }

  /** It reaches every neighbour. */
  lemma NeighbourTold(w: Wiring, before: Net, net: Net, c: Quest, l: Label, p: Iface, q: Iface)
    requires JustAsked(w, before, net, c) && l.Ask? && l.n == c.s && l.dst == c.d
    requires !(c.d in before.nodes[c.s].table && l.forced == 0) && net == Next(w, before, l)
    requires p in w && q in w && p.node == c.s && Joined(p, q)
    ensures Told(net, Reach({c.s}, {c.s}), c, q)
  {
    var h := net.nodes[c.s].header;
    var o := Broadcast(p, h);
    IfacesOfIn(w, c.s);
    BroadcastOuts(IfacesOf(w, c.s), h, ALL_INTERFACES);
    assert o in OutsOf(w, before, l) && Carries(w, o, Frame(p, q, h));
    FramesStay(w, before, l, Frame(p, q, h));
  }

  // ----- What is left when the flood is over -----

  /** Once no copy is in flight, every neighbour of every node that flooded has processed the
      request, and (the source itself aside) holds a route to the source. */
  lemma NeighboursAreReached(w: Wiring, net: Net, r: Reach, c: Quest, m: NodeId, n: NodeId)
    requires FloodInv(w, net, r, c) && FloodCovers(w, net, r, c) && forall f | f in net.flight :: !Copy(f.pkt, c)
    requires m in r.plain && Adjacent(w, m, n)
    ensures n in r.heard && (n == c.s || c.s in net.nodes[n].table)
  {
    var p, q :| p in w && q in w && p.node == m && q.node == n && Joined(p, q);
    assert Told(net, r, c, q);
  }

  /** Along any walk from the source, the flood goes on until it meets the destination or a node that
      offered a route. */
  lemma {:induction false} FloodFollowsWalk(w: Wiring, net: Net, r: Reach, c: Quest, path: seq<NodeId>)
    requires FloodInv(w, net, r, c) && FloodCovers(w, net, r, c) && forall f | f in net.flight :: !Copy(f.pkt, c)
    requires Walk(w, path) && path[0] == c.s
    ensures path[|path| - 1] in r.plain || exists n :: n in path && n in r.heard && n !in r.plain
  {
    var z := |path| - 1;
    if z > 0 {
      var front := path[..z];
      FloodFollowsWalk(w, net, r, c, front);
      if front[z - 1] in r.plain {
        assert Adjacent(w, path[z - 1], path[z]);
        NeighboursAreReached(w, net, r, c, path[z - 1], path[z]);
        assert path[z] in path;
      }
    }
  }

  /** Flood coverage: a lossless flood in a network of at most MAXH + 1 nodes, in any delivery order,
      leaves every neighbour of every flooding node with a route to the source, and if destination and
      source are connected, then the destination has processed the request, or a node that did not flood
      it because it holds a route to the destination. */
  lemma FloodCoverage(w: Wiring, before: Net, tr: seq<Net>, ls: seq<Label>, c: Quest, i: nat, path: seq<NodeId>)
    requires Run(w, tr, ls) && i < |tr| && JustAsked(w, before, tr[0], c) && Small(before)
    requires forall j | 0 <= j < i :: KeepsFlood(tr[j], ls[j], c)
    requires forall f | f in tr[i].flight :: !Copy(f.pkt, c)
    requires Walk(w, path) && path[0] == c.s && path[|path| - 1] == c.d
    ensures var r := ReachAt(w, tr, ls, c, i);
            && r.heard <= tr[i].nodes.Keys
            && (forall m, n | m in r.plain && Adjacent(w, m, n) :: n in r.heard && (n == c.s || c.s in tr[i].nodes[n].table))
            && (c.d in r.heard || exists n :: n in r.heard && n !in r.plain && n != c.s && c.d in tr[i].nodes[n].table)
  {
    var r := ReachAt(w, tr, ls, c, i);
    FloodStarts(w, before, tr[0], c);
    hide Next, JustAsked, FloodInv, FloodCovers, Copy;
    FloodInvRun(w, tr, ls, c, i);
    CoverageAtRest(w, tr[i], r, c, path);
  }

  lemma CoverageAtRest(w: Wiring, net: Net, r: Reach, c: Quest, path: seq<NodeId>)
    requires FloodInv(w, net, r, c) && FloodCovers(w, net, r, c) && forall f | f in net.flight :: !Copy(f.pkt, c)
    requires Walk(w, path) && path[0] == c.s && path[|path| - 1] == c.d
    ensures r.heard <= net.nodes.Keys
    ensures forall m, n | m in r.plain && Adjacent(w, m, n) :: n in r.heard && (n == c.s || c.s in net.nodes[n].table)
    ensures c.d in r.heard || exists n :: n in r.heard && n !in r.plain && n != c.s && c.d in net.nodes[n].table
  {
    forall m, n | m in r.plain && Adjacent(w, m, n)
      ensures n in r.heard && (n == c.s || c.s in net.nodes[n].table)
    {
      NeighboursAreReached(w, net, r, c, m, n);
    }
    FloodFollowsWalk(w, net, r, c, path);
  }
}
