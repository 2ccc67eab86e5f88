/** Where loop freedom ends: exactly which steps keep next hops leading downhill, with stale entries,
    payloads and every kind of packet allowed. */
module Limits {
  import opened OdrTypes
  import opened TableSpec
  import opened NodeSpec
  import opened Network
  import opened Links
  import opened LoopFreedom

  /** The delivery of a packet that rewrites an entry the receiver already has for `k`. */
  predicate Rewrites(net: Net, l: Label, k: NodeId)
    requires Enabled(net, l)
  {
    l.Deliver? &&
    var f := net.flight[l.i];
    && !Dropped(f.pkt) && f.pkt.kind != Unknown && NamedKey(f.pkt) == k
    && (f.pkt.kind == Data ==> f.pkt.srcDest == 1 || f.pkt.srcDest == -1)
    && k in net.nodes[f.to.node].table
  }

  /** The hop count that a stale entry keeps: its own or the one in the packet's *request* header,
      whatever kind of packet it is. */
  function KeptHop(e: Entry, p: Packet): int {
    if e.hop > p.rreqHop then p.rreqHop else e.hop
  }

  /** Whether such a delivery is safe, judged before it happens.  A fresh entry is safe from requests and
      replies; a payload that would shorten it must come from a node that may announce the count it
      carries.  A stale entry takes over the sender whatever the counts, so the sender must be entitled
      to announce the count that the entry keeps; and if the packet is a reply that will be passed on,
      that count must not exceed the reply's. */
  predicate Safe(net: Net, l: Label, k: NodeId)
    requires Enabled(net, l) && Rewrites(net, l, k)
  {
    var f := net.flight[l.i];
    var n := f.to.node;
    var e := net.nodes[n].table[k];
    if !Stale(e, l.env.now, net.nodes[n].sp) then
      f.pkt.kind == Data && e.hop > f.pkt.rreqHop ==> Backed(net, f.from.node, k, f.pkt.rreqHop)
    else
      && Backed(net, f.from.node, k, KeptHop(e, f.pkt))
      && (f.pkt.kind == Rrep ==>
            n == k || n == f.pkt.src || f.pkt.src !in net.nodes[n].table || KeptHop(e, f.pkt) <= f.pkt.rrepHop)
  }

  /** The receiver's entry for `k` after a delivery. */
  function EntryAfter(net: Net, l: Label, k: NodeId): Entry
    requires Enabled(net, l) && Rewrites(net, l, k)
  {
    var f := net.flight[l.i];
    var n := f.to.node;
    var h := if f.pkt.kind == Rrep then f.pkt.rrepHop else f.pkt.rreqHop;
    Refreshed(net.nodes[n].table[k], Offer(k, f.from.hw, f.to.ifNo, h, f.pkt.rreqHop), l.env.now, net.nodes[n].sp)
  }

  /** What a step does to entries for `k`: only a delivery that names `k` changes any, and only at its
      receiver, where it rewrites or inserts. */
  lemma TablesAfter(w: Wiring, net: Net, l: Label, k: NodeId)
    requires Enabled(net, l)
    ensures Closer(net, Next(w, net, l), k)
    ensures forall n | n in net.nodes && !(l.Deliver? && n == net.flight[l.i].to.node) ::
              Next(w, net, l).nodes[n].table == net.nodes[n].table
    ensures l.Deliver? ==>
              var f := net.flight[l.i];
              var t := net.nodes[f.to.node].table;
              var t' := Next(w, net, l).nodes[f.to.node].table;
              if Rewrites(net, l, k) then k in t' && t'[k] == EntryAfter(net, l, k)
              else if k in t then k in t' && t'[k] == t[k]
              else k in t' ==>
                !Dropped(f.pkt) && NamedKey(f.pkt) == k && t'[k].hw == f.from.hw
                && (   (f.pkt.kind == Rreq && t'[k].hop == f.pkt.rreqHop)
                    || (f.pkt.kind == Rrep && t'[k].hop == f.pkt.rrepHop))
  {
    hide Act;
    if l.Deliver? {
      var f := net.flight[l.i];
      ProcessTable(f.to.node, IfacesOf(w, f.to.node), net.nodes[f.to.node], f.pkt, f.from.hw, f.to.ifNo, l.env);
    }
  }

  /** In every run, stale refreshes and payloads included, a route once held is kept and its hop count never
      rises. */
  lemma {:induction false} HopsNeverRise(w: Wiring, tr: seq<Net>, ls: seq<Label>, i: nat, j: nat, k: NodeId)
    requires Run(w, tr, ls) && i <= j < |tr|
    ensures Closer(tr[i], tr[j], k)
    decreases j - i
  {
    hide Next;
    if i < j {
      HopsNeverRise(w, tr, ls, i, j - 1, k);
      TablesAfter(w, tr[j - 1], ls[j - 1], k);
    }
  }

  /** A delivery that rewrites is safe exactly when its receiver's new entry is backed, and so is the
      reply it may pass on. */
  lemma SafeMeans(w: Wiring, net: Net, l: Label, k: NodeId)
    requires Sane(w, net) && Backward(w, net, k) && Enabled(net, l) && Rewrites(net, l, k)
    ensures var f := net.flight[l.i];
            var n := f.to.node;
            var net' := Next(w, net, l);
            var e' := EntryAfter(net, l, k);
            Safe(net, l, k) <==>
              && e'.hop >= 1 && Backed(net', Owner(w, e'.hw), k, e'.hop)
              && (f.pkt.kind == Rrep && n != f.pkt.src && f.pkt.src in net'.nodes[n].table ==>
                    Backed(net', n, k, f.pkt.rrepHop + 1))
  {
    hide Next;
    var f := net.flight[l.i];
    TablesAfter(w, net, l, k);
    TablesAfter(w, net, l, f.pkt.src);
    assert RealFrame(w, f) && FrameBacked(net, k, f);
    OwnerOf(w, f.from);
  }

  /** What a step sends about `k` is backed, but for a reply passed on by a node whose entry for `k` has
      just been rewritten. */
  lemma SentIsBacked(w: Wiring, net: Net, l: Label, k: NodeId, o: Out, g: Frame)
    requires Sane(w, net) && Backward(w, net, k) && Enabled(net, l)
    requires o in OutsOf(w, net, l) && Carries(w, o, g)
    requires l.Deliver? && k in Next(w, net, l).nodes[net.flight[l.i].to.node].table ==>
               Next(w, net, l).nodes[net.flight[l.i].to.node].table[k].hop >= 1
    ensures FrameBacked(Next(w, net, l), k, g)
            || (Rewrites(net, l, k) &&
                var f := net.flight[l.i];
                f.pkt.kind == Rrep && f.to.node != f.pkt.src
                && f.pkt.src in Next(w, net, l).nodes[f.to.node].table
                && g.pkt == ForwardedReply(f.pkt))
  {
    hide Act;
    OutsVia(w, net, l, o);
    var n := Actor(net, l);
    var ifs := IfacesOf(w, n);
    TablesAfter(w, net, l, k);
    if l.Deliver? {
      var f := net.flight[l.i];
      assert FrameBacked(net, k, f);
      OutAnnounces(n, ifs, net.nodes[n], f.pkt, f.from.hw, f.to.ifNo, l.env, o, k);
      ProcessTable(n, ifs, net.nodes[n], f.pkt, f.from.hw, f.to.ifNo, l.env);
    } else {
      RequestOuts(n, ifs, net.nodes[n], l.dst, l.forced, l.msg, o);
    }
  }

  /** A reply that must be passed on is passed on. */
  lemma PassedOn(w: Wiring, net: Net, l: Label) returns (g: Frame)
    requires Sane(w, net) && Enabled(net, l) && l.Deliver?
    requires var f := net.flight[l.i];
             f.pkt.kind == Rrep && !Dropped(f.pkt) && f.to.node != f.pkt.src
             && f.pkt.src in Next(w, net, l).nodes[f.to.node].table
    ensures g in Next(w, net, l).flight && g.pkt == ForwardedReply(net.flight[l.i].pkt)
    ensures g.from.node == net.flight[l.i].to.node
  {
    var f := net.flight[l.i];
    var n := f.to.node;
    SaneStep(w, net, l);
    ProcessTable(n, IfacesOf(w, n), net.nodes[n], f.pkt, f.from.hw, f.to.ifNo, l.env);
    g := SendOverLink(w, n, Next(w, net, l).nodes[n].table, f.pkt.src, ForwardedReply(f.pkt));
    assert g in [g];
  }

  lemma SafeKeepsDescent(w: Wiring, net: Net, l: Label, k: NodeId)
    requires Sane(w, net) && Backward(w, net, k) && Enabled(net, l)
    requires Rewrites(net, l, k) ==> Safe(net, l, k)
    ensures Backward(w, Next(w, net, l), k)
  {
    var net' := Next(w, net, l);
    TablesAfter(w, net, l, k);
    if Rewrites(net, l, k) {
      SafeMeans(w, net, l, k);
    }
    forall n | n in net'.nodes && k in net'.nodes[n].table
      ensures var e := net'.nodes[n].table[k]; e.hop >= 1 && Backed(net', Owner(w, e.hw), k, e.hop)
    {
      SafeEntries(w, net, l, k, n);
    }
    forall g | g in net'.flight ensures FrameBacked(net', k, g) {
      FramesAfter(w, net, l, g);
      if g in net.flight {
        assert FrameBacked(net, k, g);
      } else {
        var o :| o in OutsOf(w, net, l) && Carries(w, o, g);
        OutsVia(w, net, l, o);
        SentIsBacked(w, net, l, k, o, g);
      }
    }
  }

  lemma SafeEntries(w: Wiring, net: Net, l: Label, k: NodeId, n: NodeId)
    requires Sane(w, net) && Backward(w, net, k) && Enabled(net, l)
    requires Rewrites(net, l, k) ==> Safe(net, l, k)
    requires n in Next(w, net, l).nodes && k in Next(w, net, l).nodes[n].table
    ensures var e := Next(w, net, l).nodes[n].table[k];
            e.hop >= 1 && Backed(Next(w, net, l), Owner(w, e.hw), k, e.hop)
  {
    TablesAfter(w, net, l, k);
    if l.Deliver? && n == net.flight[l.i].to.node {
      var f := net.flight[l.i];
      assert RealFrame(w, f) && FrameBacked(net, k, f);
      OwnerOf(w, f.from);
      if Rewrites(net, l, k) {
        SafeMeans(w, net, l, k);
      }
    }
  }

  lemma DescentNeedsSafety(w: Wiring, net: Net, l: Label, k: NodeId)
    requires Sane(w, net) && Backward(w, net, k) && Enabled(net, l) && Rewrites(net, l, k)
    requires Backward(w, Next(w, net, l), k)
    ensures Safe(net, l, k)
  {
    var f := net.flight[l.i];
    var n := f.to.node;
    var net' := Next(w, net, l);
    TablesAfter(w, net, l, k);
    SafeMeans(w, net, l, k);
    if f.pkt.kind == Rrep && n != f.pkt.src && f.pkt.src in net'.nodes[n].table {
      var g := PassedOn(w, net, l);
      assert FrameBacked(net', k, g);
    }
  }

  /** Exactly which steps keep next hops toward `k` leading downhill: all of them - requests and replies
      delivered or lost, client requests, payloads - except the deliveries that rewrite an entry for `k`
      unsafely.  No assumption on staleness, kinds of packets or broadcast ids. */
  lemma DescentKeptIff(w: Wiring, net: Net, l: Label, k: NodeId)
    requires Sane(w, net) && Backward(w, net, k) && Enabled(net, l)
    ensures Backward(w, Next(w, net, l), k) <==> (Rewrites(net, l, k) ==> Safe(net, l, k))
  {
    if Rewrites(net, l, k) ==> Safe(net, l, k) {
      SafeKeepsDescent(w, net, l, k);
    } else if Backward(w, Next(w, net, l), k) {
      DescentNeedsSafety(w, net, l, k);
    }
  }

  /** For a request, safety is a matter of the sender and the entry alone: the entry is fresh, or its
      neighbour stays the same, or the sender is `k` or nearer to it than the entry says. */
  lemma RequestSafeIff(w: Wiring, net: Net, l: Label, k: NodeId)
    requires Sane(w, net) && Backward(w, net, k) && Enabled(net, l) && Rewrites(net, l, k)
    requires net.flight[l.i].pkt.kind == Rreq
    ensures var f := net.flight[l.i];
            var e := net.nodes[f.to.node].table[k];
            Safe(net, l, k) <==>
              || !Stale(e, l.env.now, net.nodes[f.to.node].sp)
              || Owner(w, e.hw) == f.from.node
              || f.from.node == k
              || (f.from.node in net.nodes && k in net.nodes[f.from.node].table
                  && net.nodes[f.from.node].table[k].hop < e.hop)
  {
    assert FrameBacked(net, k, net.flight[l.i]);
  }
}
