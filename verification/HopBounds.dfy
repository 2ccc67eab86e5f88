/** Hop counts stay within fixed bounds in every run, stale refreshes and payloads included. */
module HopBounds {
  import opened OdrTypes
  import opened TableSpec
  import opened NodeSpec
  import opened Network
  import opened Links

  predicate TableHops(t: Table) {
    forall k | k in t :: 1 <= t[k].hop <= MAXH
  }

  /** The bounds per kind.  A request that is still looking for its destination is incremented once
      per node, the request that accompanies a reply twice. */
  predicate PacketHops(p: Packet) {
    match p.kind
    case Rreq =>
      && 1 <= p.rreqHop <= MAXH + 2 && p.rrepHop <= MAXH + 1
      && (p.rrepSent != 1 ==> p.rreqHop <= MAXH + 1)
    case Rrep => 1 <= p.rreqHop <= MAXH + 1 && 1 <= p.rrepHop <= MAXH + 1
    case Data => 1 <= p.rreqHop <= MAXH && p.rrepHop <= MAXH
    case Unknown => false
  }

  /** The header left over from an earlier client request; on a freshly started daemon these bytes
      are whatever the stack held, so the bound on them is a hypothesis about the start only. */
  predicate HeaderHops(h: Packet) {
    1 <= h.rreqHop <= MAXH && h.rrepHop <= MAXH
  }

  ghost predicate HopsBounded(net: Net) {
    && (forall n | n in net.nodes :: TableHops(net.nodes[n].table))
    && (forall f | f in net.flight :: PacketHops(f.pkt))
  }

  ghost predicate HeadersBounded(net: Net) {
    forall n | n in net.nodes :: HeaderHops(net.nodes[n].header)
  }

  lemma UpdateHops(t: Table, p: Packet, hw: Hw, ifNo: int, now: int, sp: int)
    requires TableHops(t) && PacketHops(p) && !Dropped(p)
    ensures TableHops(Updated(t, p, hw, ifNo, now, sp))
  {
  }

  lemma HopsBoundedStep(w: Wiring, net: Net, l: Label)
    requires HopsBounded(net) && Enabled(net, l)
    requires l.Ask? ==> HeaderHops(net.nodes[l.n].header)
    ensures HopsBounded(Next(w, net, l))
  {
    var net' := Next(w, net, l);
    if l.Deliver? {
      var f := net.flight[l.i];
      var st := net.nodes[f.to.node];
      assert PacketHops(f.pkt);
      ProcessTable(f.to.node, IfacesOf(w, f.to.node), st, f.pkt, f.from.hw, f.to.ifNo, l.env);
      if !Dropped(f.pkt) {
        UpdateHops(st.table, f.pkt, f.from.hw, f.to.ifNo, l.env.now, st.sp);
      }
    }
    forall g | g in net'.flight ensures PacketHops(g.pkt) {
      FramesAfter(w, net, l, g);
      if g !in net.flight {
        var o :| o in OutsOf(w, net, l) && Carries(w, o, g);
        var n := Actor(net, l);
        if l.Deliver? {
          var f := net.flight[l.i];
          ProcessOuts(n, IfacesOf(w, n), net.nodes[n], f.pkt, f.from.hw, f.to.ifNo, l.env, o);
        } else {
          RequestOuts(n, IfacesOf(w, n), net.nodes[n], l.dst, l.forced, l.msg, o);
        }
      }
    }
  }

  lemma HeadersBoundedStep(w: Wiring, net: Net, l: Label)
    requires HeadersBounded(net) && Enabled(net, l)
    ensures HeadersBounded(Next(w, net, l))
  {
  }

  /** Stored hops stay in 1..MAXH, requests in flight in 1..MAXH+2, replies in 1..MAXH+1. */
  lemma {:induction false} HopsBoundedRun(w: Wiring, tr: seq<Net>, ls: seq<Label>, i: nat)
    requires Run(w, tr, ls) && HopsBounded(tr[0]) && HeadersBounded(tr[0]) && i < |tr|
    ensures HopsBounded(tr[i]) && HeadersBounded(tr[i])
  {
    if i > 0 {
      HopsBoundedRun(w, tr, ls, i - 1);
      HopsBoundedStep(w, tr[i - 1], ls[i - 1]);
      HeadersBoundedStep(w, tr[i - 1], ls[i - 1]);
    }
  }
}
