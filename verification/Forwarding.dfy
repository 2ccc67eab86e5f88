/** How often a node forwards a request, and how often a reply makes a source send its payload. */
module Forwarding {
  import opened OdrTypes
  import opened TableSpec
  import opened NodeSpec
  import opened Network
  import opened Links

  /** In this step node `n` passes the guard for a request of source `k` (and floods or answers it). */
  predicate Forwards(net: Net, l: Label, n: NodeId, k: NodeId) {
    l.Deliver? && Enabled(net, l) &&
    var f := net.flight[l.i];
    f.to.node == n && f.pkt.kind == Rreq && f.pkt.src == k && !Dropped(f.pkt) && Unseen(n, net.nodes[n], f.pkt)
  }

  function ForwardedId(net: Net, l: Label): int
    requires l.Deliver? && l.i < |net.flight|
  {
    net.flight[l.i].pkt.id
  }

  /** Broadcast ids in circulation: every request in flight was issued by its source, which has
      since moved on, and a source's own slot is one ahead of everything it issued. */
  ghost predicate IdsIssued(net: Net) {
    && (forall f | f in net.flight && f.pkt.kind == Rreq ::
          f.pkt.src in net.nodes && 1 <= f.pkt.id < net.nodes[f.pkt.src].running)
    && (forall n | n in net.nodes ::
          net.nodes[n].running >= 1 && (net.nodes[n].running > 1 ==> Latest(net.nodes[n], n) == net.nodes[n].running))
  }

  /** No node has used up the ids that fit in a slot, the one set ahead included. */
  ghost predicate IdsFit(net: Net) {
    forall n | n in net.nodes :: net.nodes[n].running <= 127
  }

  lemma ProcessSlots(self: NodeId, ifs: seq<Iface>, st: Node, p: Packet, hw: Hw, recvIf: int, env: Env, k: NodeId)
    ensures var st' := Process(self, ifs, st, p, hw, recvIf, env).0;
            && st'.running == st.running && st'.header == st.header
            && st'.msg == st.msg && st'.sp == st.sp && st'.forced == st.forced
            && Latest(st', k) == if p.kind == Rreq && p.src == k && !Dropped(p) && Unseen(self, st, p)
                                 then AsChar(p.id) else Latest(st, k)
  {
  }

  /** Only a reply that reaches its source raises the flag. */
  lemma ProcessFlag(self: NodeId, ifs: seq<Iface>, st: Node, p: Packet, hw: Hw, recvIf: int, env: Env)
    ensures Process(self, ifs, st, p, hw, recvIf, env).0.discovered
            == if p.kind == Rrep && !Dropped(p) && self == p.src && st.discovered == 0 then 1 else st.discovered
  {
  }

  lemma IdsIssuedStep(w: Wiring, net: Net, l: Label)
    requires IdsIssued(net) && Enabled(net, l) && IdsFit(Next(w, net, l))
    ensures IdsIssued(Next(w, net, l))
  {
    var net' := Next(w, net, l);
    if l.Deliver? {
      var f := net.flight[l.i];
      var n := f.to.node;
      forall k | k in net.nodes ensures net'.nodes[k].running == net.nodes[k].running {
        ProcessSlots(n, IfacesOf(w, n), net.nodes[n], f.pkt, f.from.hw, f.to.ifNo, l.env, k);
      }
      ProcessSlots(n, IfacesOf(w, n), net.nodes[n], f.pkt, f.from.hw, f.to.ifNo, l.env, n);
    }
    forall g | g in net'.flight && g.pkt.kind == Rreq
      ensures g.pkt.src in net'.nodes && 1 <= g.pkt.id < net'.nodes[g.pkt.src].running
    {
      FramesAfter(w, net, l, g);
      if g !in net.flight {
        var o :| o in OutsOf(w, net, l) && Carries(w, o, g);
        var n := Actor(net, l);
        if l.Deliver? {
          var f := net.flight[l.i];
          ProcessOuts(n, IfacesOf(w, n), net.nodes[n], f.pkt, f.from.hw, f.to.ifNo, l.env, o);
        } else {
          RequestOuts(n, IfacesOf(w, n), net.nodes[n], l.dst, l.forced, l.msg, o);
        }
      }
    }
  }

  /** A slot never falls, and forwarding lifts it to the id forwarded. */
  lemma SlotsRise(w: Wiring, net: Net, l: Label, n: NodeId, k: NodeId)
    requires IdsIssued(net) && Enabled(net, l) && IdsFit(Next(w, net, l)) && n in net.nodes
    requires Latest(net.nodes[n], n) >= 0
    ensures Latest(Next(w, net, l).nodes[n], k) >= Latest(net.nodes[n], k) || (k == n && net.nodes[n].running == 1)
    ensures Latest(Next(w, net, l).nodes[n], n) >= 0
    ensures Forwards(net, l, n, k) ==>
              Latest(net.nodes[n], k) < ForwardedId(net, l) == Latest(Next(w, net, l).nodes[n], k)
  {
    if l.Deliver? && net.flight[l.i].to.node == n {
      var f := net.flight[l.i];
      ProcessSlots(n, IfacesOf(w, n), net.nodes[n], f.pkt, f.from.hw, f.to.ifNo, l.env, k);
      ProcessSlots(n, IfacesOf(w, n), net.nodes[n], f.pkt, f.from.hw, f.to.ifNo, l.env, n);
      if f.pkt.kind == Rreq {
        assert f.pkt.id < net.nodes[f.pkt.src].running <= 127 by {
          assert Next(w, net, l).nodes[f.pkt.src].running == net.nodes[f.pkt.src].running;
        }
      }
    }
  }

  ghost predicate IdsOk(net: Net) {
    IdsIssued(net) && forall n | n in net.nodes :: Latest(net.nodes[n], n) >= 0
  }

  lemma SwitchedOnIds(w: Wiring, net: Net)
    requires SwitchedOn(w, net)
    ensures IdsOk(net)
  {
  }

  lemma {:induction false} IdsOkRun(w: Wiring, tr: seq<Net>, ls: seq<Label>, i: nat)
    requires Run(w, tr, ls) && IdsOk(tr[0]) && i < |tr|
    requires forall j | 0 <= j < |tr| :: IdsFit(tr[j])
    ensures IdsOk(tr[i]) && tr[i].nodes.Keys == tr[0].nodes.Keys
  {
    if i > 0 {
      IdsOkRun(w, tr, ls, i - 1);
      IdsIssuedStep(w, tr[i - 1], ls[i - 1]);
      forall n | n in tr[i].nodes ensures Latest(tr[i].nodes[n], n) >= 0 {
        SlotsRise(w, tr[i - 1], ls[i - 1], n, n);
      }
    }
  }

  /** A source never forwards a request of its own. */
  lemma NeverForwardsOwn(w: Wiring, tr: seq<Net>, ls: seq<Label>, i: nat, n: NodeId)
    requires Run(w, tr, ls) && IdsOk(tr[0]) && i < |ls|
    requires forall j | 0 <= j < |tr| :: IdsFit(tr[j])
    ensures !Forwards(tr[i], ls[i], n, n)
  {
    IdsOkRun(w, tr, ls, i);
  }

  lemma SlotRisesAt(w: Wiring, tr: seq<Net>, ls: seq<Label>, i: nat, n: NodeId, k: NodeId)
    requires Run(w, tr, ls) && IdsOk(tr[0]) && i < |ls| && n != k && n in tr[0].nodes
    requires forall m | 0 <= m < |tr| :: IdsFit(tr[m])
    ensures n in tr[i].nodes && n in tr[i + 1].nodes && Latest(tr[i].nodes[n], k) <= Latest(tr[i + 1].nodes[n], k)
    ensures Forwards(tr[i], ls[i], n, k) ==>
              Latest(tr[i].nodes[n], k) < ForwardedId(tr[i], ls[i]) == Latest(tr[i + 1].nodes[n], k)
  {
    IdsOkRun(w, tr, ls, i);
    assert IdsFit(tr[i + 1]);
    SlotsRise(w, tr[i], ls[i], n, k);
  }

  lemma SlotsRiseRun(w: Wiring, tr: seq<Net>, ls: seq<Label>, i: nat, j: nat, n: NodeId, k: NodeId)
    requires Run(w, tr, ls) && IdsOk(tr[0]) && i <= j < |tr| && n != k && n in tr[0].nodes
    requires forall m | 0 <= m < |tr| :: IdsFit(tr[m])
    ensures n in tr[i].nodes && n in tr[j].nodes && Latest(tr[i].nodes[n], k) <= Latest(tr[j].nodes[n], k)
  {
    forall m | 0 <= m < |tr| ensures n in tr[m].nodes {
      IdsOkRun(w, tr, ls, m);
    }
    var slots := seq(|tr|, m requires 0 <= m < |tr| => Latest(tr[m].nodes[n], k));
    forall m | i <= m < j ensures slots[m] <= slots[m + 1] {
      SlotRisesAt(w, tr, ls, m, n, k);
    }
    Rising(slots, i, j);
  }

  lemma {:induction false} Rising(s: seq<int>, i: nat, j: nat)
    requires i <= j < |s| && forall m | i <= m < j :: s[m] <= s[m + 1]
    ensures s[i] <= s[j]
    decreases j
  {
    if i < j {
      Rising(s, i, j - 1);
      assert s[j - 1] <= s[j - 1 + 1];
    }
  }

  /** While ids fit in their slots, the ids a node forwards for one source strictly increase over the
      whole run: no request is forwarded twice, and no older one after a newer one. */
  lemma ForwardsAtMostOnce(w: Wiring, tr: seq<Net>, ls: seq<Label>, i: nat, j: nat, n: NodeId, k: NodeId)
    requires Run(w, tr, ls) && IdsOk(tr[0]) && i < j < |ls|
    requires forall m | 0 <= m < |tr| :: IdsFit(tr[m])
    requires Forwards(tr[i], ls[i], n, k) && Forwards(tr[j], ls[j], n, k)
    ensures n != k && ForwardedId(tr[i], ls[i]) < ForwardedId(tr[j], ls[j])
  {
    NeverForwardsOwn(w, tr, ls, i, n);
    IdsOkRun(w, tr, ls, i);
    SlotRisesAt(w, tr, ls, i, n, k);
    SlotsRiseRun(w, tr, ls, i + 1, j, n, k);
    SlotRisesAt(w, tr, ls, j, n, k);
  }

  /** In particular from switching on, as long as no node has issued more than 126 ids. */
  lemma ForwardsAtMostOnceFromStart(w: Wiring, tr: seq<Net>, ls: seq<Label>, i: nat, j: nat, n: NodeId, k: NodeId)
    requires Run(w, tr, ls) && SwitchedOn(w, tr[0]) && i < j < |ls|
    requires forall m | 0 <= m < |tr| :: IdsFit(tr[m])
    requires Forwards(tr[i], ls[i], n, k) && Forwards(tr[j], ls[j], n, k)
    ensures n != k && ForwardedId(tr[i], ls[i]) < ForwardedId(tr[j], ls[j])
  {
    SwitchedOnIds(w, tr[0]);
    ForwardsAtMostOnce(w, tr, ls, i, j, n, k);
  }

  // ----- Payloads triggered by replies -----

  /** A reply is delivered to the source `n` of its request. */
  predicate ReplyArrives(net: Net, l: Label, n: NodeId) {
    l.Deliver? && Enabled(net, l) &&
    var f := net.flight[l.i];
    f.to.node == n && f.pkt.kind == Rrep && f.pkt.src == n && f.pkt.rreqHop <= 15 && f.pkt.rrepHop <= 15
  }

  /** In this step a reply makes its source `n` send the payload. */
  predicate ReplyReleasesPayload(net: Net, l: Label, n: NodeId) {
    ReplyArrives(net, l, n) && net.nodes[n].discovered == 0
  }

  ghost function Released(tr: seq<Net>, ls: seq<Label>, n: NodeId): nat
    requires |tr| == |ls| + 1
  {
    if ls == [] then 0
    else (if ReplyReleasesPayload(tr[0], ls[0], n) then 1 else 0) + Released(tr[1..], ls[1..], n)
  }

  ghost function Asked(ls: seq<Label>, n: NodeId): nat {
    if ls == [] then 0 else (if ls[0].Ask? && ls[0].n == n then 1 else 0) + Asked(ls[1..], n)
  }

  lemma {:induction false} AskedOneMore(ls: seq<Label>, l: Label, n: NodeId)
    ensures Asked(ls + [l], n) == Asked(ls, n) + if l.Ask? && l.n == n then 1 else 0
  {
    if ls == [] {
      assert [] + [l] == [l] && [l][1..] == [];
    } else {
      assert (ls + [l])[1..] == ls[1..] + [l];
      AskedOneMore(ls[1..], l, n);
    }
  }

  /** These steps, and no others, put payloads in flight because of a request or reply; what they send
      is the last client's message, addressed to the node that the reply speaks of. */
  lemma PayloadsComeFromReleases(w: Wiring, net: Net, l: Label, o: Out)
    requires Enabled(net, l) && l.Deliver? && o in OutsOf(w, net, l)
    requires net.flight[l.i].pkt.kind != Data
    ensures !o.ToClient?
    ensures o.pkt.kind == Data <==> ReplyReleasesPayload(net, l, net.flight[l.i].to.node)
    ensures o.pkt.kind == Data ==>
              var f := net.flight[l.i];
              && o.pkt.payload == net.nodes[f.to.node].msg && o.pkt.srcDest == 1
              && o.pkt.src == f.to.node && o.pkt.dst == f.pkt.dst
  {
    var f := net.flight[l.i];
    var n := f.to.node;
    ProcessOuts(n, IfacesOf(w, n), net.nodes[n], f.pkt, f.from.hw, f.to.ifNo, l.env, o);
  }

  /** However many replies arrive, the payloads they release number at most one more than the client
      requests in the run, and no more than these when the flag is already up at the start; between
      two requests of a client at most one payload is released. */
  lemma {:induction false} OnePayloadPerRequest(w: Wiring, tr: seq<Net>, ls: seq<Label>, n: NodeId)
    requires Run(w, tr, ls) && n in tr[0].nodes
    ensures Released(tr, ls, n) <= Asked(ls, n) + if tr[0].nodes[n].discovered == 0 then 1 else 0
  {
    if ls != [] {
      assert tr[1] == Next(w, tr[0], ls[0]);
      assert Run(w, tr[1..], ls[1..]);
      OnePayloadPerRequest(w, tr[1..], ls[1..], n);
    }
  }
}
