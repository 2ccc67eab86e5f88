/** What a node remembers of its clients, over whole runs, and what the replies to them release.

    Nothing here assumes freshness, freedom from loss, or that broadcast ids fit. */
module Releases {
  import opened OdrTypes
  import opened TableSpec
  import opened NodeSpec
  import opened Network
  import opened Links
  import opened LoopFreedom
  import opened Forwarding
  import opened Branches

  // ----- The last client -----

  predicate AsksAt(l: Label, n: NodeId) {
    l.Ask? && l.n == n
  }

  /** The step before step `i` in which a client last asked at `n`, or -1. */
  function LastAsk(ls: seq<Label>, n: NodeId, i: nat): (j: int)
    requires i <= |ls|
    ensures -1 <= j < i
    ensures j >= 0 ==> AsksAt(ls[j], n)
    ensures forall m | j < m < i :: !AsksAt(ls[m], n)
  {
    if i == 0 then -1 else if AsksAt(ls[i - 1], n) then i - 1 else LastAsk(ls, n, i - 1)
  }

  /** Only a client changes what a node remembers of its client. */
  lemma OnlyClientsAreRecorded(w: Wiring, net: Net, l: Label, n: NodeId)
    requires Enabled(net, l) && n in net.nodes
    ensures n in Next(w, net, l).nodes
    ensures var st := net.nodes[n];
            var st' := Next(w, net, l).nodes[n];
            && st'.sp == st.sp
            && (AsksAt(l, n) ==>
                  && st'.msg == l.msg && st'.forced == l.forced && st'.discovered == 0 && st'.running == st.running + 1
                  && st'.header.kind == Rreq && st'.header.src == n && st'.header.dst == l.dst
                  && st'.header.id == st.running)
            && (!AsksAt(l, n) ==>
                  st'.msg == st.msg && st'.forced == st.forced && st'.running == st.running && st'.header == st.header)
  {
    match l
    case Deliver(i, env) =>
      var f := net.flight[i];
      ProcessSlots(f.to.node, IfacesOf(w, f.to.node), net.nodes[f.to.node], f.pkt, f.from.hw, f.to.ifNo, env, n);
    case Lose(_) =>
    case Ask(m, dst, forced, msg) =>
      ClientRecorded(m, IfacesOf(w, m), net.nodes[m], dst, forced, msg);
  }

  /** At every moment of every run a node holds the message, the forced flag and the destination of its last
      client, and has used up one broadcast number for each client; before the first client it holds what it
      started with. */
  lemma {:induction false} LastClientIsRecorded(w: Wiring, tr: seq<Net>, ls: seq<Label>, i: nat, n: NodeId)
    requires Run(w, tr, ls) && i < |tr| && n in tr[0].nodes
    ensures n in tr[i].nodes
    ensures var j := LastAsk(ls, n, i);
            var st := tr[i].nodes[n];
            && st.sp == tr[0].nodes[n].sp && st.running == tr[0].nodes[n].running + Asked(ls[..i], n)
            && (if j >= 0 then
                  && st.msg == ls[j].msg && st.forced == ls[j].forced
                  && st.header.kind == Rreq && st.header.src == n && st.header.dst == ls[j].dst
                  && st.header.id == st.running - 1
                else
                  && st.msg == tr[0].nodes[n].msg && st.forced == tr[0].nodes[n].forced
                  && st.header == tr[0].nodes[n].header)
  {
    hide Next;
    if i > 0 {
      LastClientIsRecorded(w, tr, ls, i - 1, n);
      OnlyClientsAreRecorded(w, tr[i - 1], ls[i - 1], n);
      AskedOneMore(ls[..i - 1], ls[i - 1], n);
      assert ls[..i] == ls[..i - 1] + [ls[i - 1]];
    }
  }

  /** From switching on, no discovery is forced before a client has asked, and no message is held. */
  lemma NothingForcedAtFirst(w: Wiring, tr: seq<Net>, ls: seq<Label>, i: nat, n: NodeId)
    requires Run(w, tr, ls) && SwitchedOn(w, tr[0]) && i < |tr| && n in tr[0].nodes
    ensures n in tr[i].nodes
    ensures var j := LastAsk(ls, n, i);
            && tr[i].nodes[n].forced == (if j >= 0 then ls[j].forced else 0)
            && tr[i].nodes[n].msg == (if j >= 0 then ls[j].msg else "")
  {
    LastClientIsRecorded(w, tr, ls, i, n);
  }

  /** A request is delivered to a node that is not its destination and has not seen it. */
  predicate UnseenArrives(net: Net, l: Label) {
    l.Deliver? && Enabled(net, l) &&
    var f := net.flight[l.i];
    && f.pkt.kind == Rreq && f.pkt.rreqHop <= 15 && f.pkt.rrepHop <= 15 && f.pkt.rrepSent != 1
    && f.to.node != f.pkt.dst && Latest(net.nodes[f.to.node], f.pkt.src) < f.pkt.id
  }

  /** The request in `f` is flooded one hop longer on every other interface, and nothing else is sent. */
  ghost predicate FloodsOnly(w: Wiring, f: Frame, outs: seq<Out>) {
    FloodOf(outs, IfacesOf(w, f.to.node), f.pkt.(rreqHop := f.pkt.rreqHop + 1), f.to.ifNo)
  }

  /** The request in `f` is answered out of entry `e`, along `e`, and flooded flagged on every interface. */
  ghost predicate OffersAndFlags(w: Wiring, f: Frame, e: Entry, along: seq<Out>, flood: seq<Out>) {
    var reply := f.pkt.(kind := Rrep, rreqHop := f.pkt.rreqHop + 1, rrepHop := e.hop + 1, rrepId := 1, rrepForce := 0);
    && SentTo(along, IfacesOf(w, f.to.node), reply, e.hw, e.ifNo)
    && FloodOf(flood, IfacesOf(w, f.to.node), reply.(kind := Rreq, rreqHop := f.pkt.rreqHop + 2, rrepSent := 1), -1)
  }

  lemma UnseenStep(w: Wiring, net: Net, l: Label) returns (along: seq<Out>, flood: seq<Out>)
    requires WellWired(w) && UnseenArrives(net, l)
    ensures var f := net.flight[l.i];
            var n := f.to.node;
            var net' := Next(w, net, l);
            && OutsOf(w, net, l) == along + flood && n in net'.nodes
            && if net.nodes[n].forced == 1 || f.pkt.dst !in net'.nodes[n].table then along == [] && FloodsOnly(w, f, flood)
               else OffersAndFlags(w, f, net'.nodes[n].table[f.pkt.dst], along, flood)
  {
    hide Act, Updated, FloodOf, SentTo;
    var f := net.flight[l.i];
    var n := f.to.node;
    var st := net.nodes[n];
    var ifs := IfacesOf(w, n);
    IfacesOfDistinct(w, n);
    if st.forced == 1 || f.pkt.dst !in Updated(st.table, f.pkt, f.from.hw, f.to.ifNo, l.env.now, st.sp) {
      RequestFlooded(n, ifs, st, f.pkt, f.from.hw, f.to.ifNo, l.env);
      along, flood := [], OutsOf(w, net, l);
    } else {
      along, flood := RequestOffered(n, ifs, st, f.pkt, f.from.hw, f.to.ifNo, l.env);
    }
  }

  /** So whether an intermediate node floods a request that it has not seen is a matter of the run alone: if
      its own last client has forced a discovery it floods, route or no route; before any client, and
      after one that has not forced it, it floods for want of a route and otherwise answers. */
  lemma ForcedByLastClient(w: Wiring, tr: seq<Net>, ls: seq<Label>, i: nat) returns (along: seq<Out>, flood: seq<Out>)
    requires Run(w, tr, ls) && SwitchedOn(w, tr[0]) && i < |ls| && UnseenArrives(tr[i], ls[i])
    ensures var f := tr[i].flight[ls[i].i];
            var n := f.to.node;
            var j := LastAsk(ls, n, i);
            && OutsOf(w, tr[i], ls[i]) == along + flood && n in tr[i + 1].nodes
            && if (j >= 0 && ls[j].forced == 1) || f.pkt.dst !in tr[i + 1].nodes[n].table then
                 along == [] && FloodsOnly(w, f, flood)
               else
                 OffersAndFlags(w, f, tr[i + 1].nodes[n].table[f.pkt.dst], along, flood)
  {
    SwitchedOnIsSound(w, tr[0]);
    hide Next, OutsOf, SwitchedOn, Backward, FloodsOnly, OffersAndFlags;
    NodesStay(w, tr, ls, i);
    NothingForcedAtFirst(w, tr, ls, i, tr[i].flight[ls[i].i].to.node);
    along, flood := UnseenStep(w, tr[i], ls[i]);
  }

  lemma {:induction false} NodesStay(w: Wiring, tr: seq<Net>, ls: seq<Label>, i: nat)
    requires Run(w, tr, ls) && i < |tr|
    ensures tr[i].nodes.Keys == tr[0].nodes.Keys
  {
    if i > 0 {
      NodesStay(w, tr, ls, i - 1);
      assert tr[i] == Next(w, tr[i - 1], ls[i - 1]);
    }
  }

  // ----- Which reply releases the payload -----

  /** From switching on, the flag is up exactly when a reply has arrived since the last client asked. */
  lemma {:induction false} FlagTellsArrival(w: Wiring, tr: seq<Net>, ls: seq<Label>, i: nat, n: NodeId)
    requires Run(w, tr, ls) && SwitchedOn(w, tr[0]) && i < |tr| && n in tr[0].nodes
    ensures n in tr[i].nodes
    ensures tr[i].nodes[n].discovered != 0 <==> exists m :: LastAsk(ls, n, i) < m < i && ReplyArrives(tr[m], ls[m], n)
  {
    if i > 0 {
      FlagTellsArrival(w, tr, ls, i - 1, n);
      FlagStep(w, tr[i - 1], ls[i - 1], n);
      assert ReplyArrives(tr[i - 1], ls[i - 1], n) || tr[i].nodes[n].discovered == 0 || tr[i - 1].nodes[n].discovered != 0;
    }
  }

  lemma FlagStep(w: Wiring, net: Net, l: Label, n: NodeId)
    requires Enabled(net, l) && n in net.nodes
    ensures n in Next(w, net, l).nodes
    ensures Next(w, net, l).nodes[n].discovered != 0 <==>
              !AsksAt(l, n) && (net.nodes[n].discovered != 0 || ReplyArrives(net, l, n))
  {
    if l.Deliver? {
      var f := net.flight[l.i];
      ProcessFlag(f.to.node, IfacesOf(w, f.to.node), net.nodes[f.to.node], f.pkt, f.from.hw, f.to.ifNo, l.env);
    }
  }

  /** A release, in every state, stale or not: exactly one frame is put in flight.  It is the payload, from
      `n`, with `n`'s message, for the node that the reply speaks of, and it goes by the interface and to the
      neighbour that `n`'s entry for that node names after the reply has updated it. */
  lemma ReleaseSendsPayload(w: Wiring, net: Net, l: Label, n: NodeId) returns (g: Frame)
    requires Sane(w, net) && ReplyReleasesPayload(net, l, n)
    ensures var p := net.flight[l.i].pkt;
            var net' := Next(w, net, l);
            && net'.flight == Without(net.flight, l.i) + [g]
            && g.pkt == p.(kind := Data, payload := net.nodes[n].msg, srcDest := 1)
            && g.pkt.src == n && g.from.node == n
            && p.dst in net'.nodes[n].table
            && g.from.ifNo == net'.nodes[n].table[p.dst].ifNo && g.to.hw == net'.nodes[n].table[p.dst].hw
            && Joined(g.from, g.to) && g.from in w && g.to in w
            && net'.nodes[n].discovered == 1
  {
    var f := net.flight[l.i];
    var ifs := IfacesOf(w, n);
    SaneStep(w, net, l);
    IfacesOfDistinct(w, n);
    ReplyAtSource(n, ifs, net.nodes[n], f.pkt, f.from.hw, f.to.ifNo, l.env);
    var e := Next(w, net, l).nodes[n].table[f.pkt.dst];
    g := OneSent(w, n, OutsOf(w, net, l), e, f.pkt.(kind := Data, payload := net.nodes[n].msg, srcDest := 1));
  }

  /** One packet sent along an entry that names a real link is one frame over that link. */
  lemma OneSent(w: Wiring, n: NodeId, outs: seq<Out>, e: Entry, p: Packet) returns (g: Frame)
    requires WellWired(w) && Linked(w, n, e) && SentTo(outs, IfacesOf(w, n), p, e.hw, e.ifNo)
    ensures SpreadAll(w, outs) == [g]
    ensures g.pkt == p && g.from.node == n && g.from.ifNo == e.ifNo && g.to.hw == e.hw && RealFrame(w, g)
  {
    var a, b :| LinkedBy(w, n, e, a, b);
    var o := Unicast(a, e.hw, p);
    IfacesOfIn(w, n);
    assert o in outs;
    assert outs == [o];
    UnicastSpread(w, o, b);
    assert SpreadAll(w, [o]) == Spread(w, o) + SpreadAll(w, []);
    g := Frame(a, b, p);
  }

  /** A request or reply that is delivered puts a payload in flight if and only if it is a reply that arrives at
      its source with the flag down. */
  lemma PayloadSentIff(w: Wiring, net: Net, l: Label)
    requires Sane(w, net) && Enabled(net, l) && l.Deliver? && net.flight[l.i].pkt.kind != Data
    ensures (exists g :: g in SpreadAll(w, OutsOf(w, net, l)) && g.pkt.kind == Data)
            <==> ReplyReleasesPayload(net, l, net.flight[l.i].to.node)
  {
    var n := net.flight[l.i].to.node;
    if ReplyReleasesPayload(net, l, n) {
      var g := ReleaseSendsPayload(w, net, l, n);
      var before := Without(net.flight, l.i);
      assert (before + SpreadAll(w, OutsOf(w, net, l)))[|before|..] == SpreadAll(w, OutsOf(w, net, l));
      assert (before + [g])[|before|..] == [g];
      assert g in SpreadAll(w, OutsOf(w, net, l));
    } else if g :| g in SpreadAll(w, OutsOf(w, net, l)) && g.pkt.kind == Data {
      SpreadAllIn(w, OutsOf(w, net, l));
      var o :| o in OutsOf(w, net, l) && Carries(w, o, g);
      PayloadsComeFromReleases(w, net, l, o);
      assert false;
    }
  }

  // ----- Where traffic comes from -----

  /** Processing a packet never changes its two ends. */
  lemma EndsStay(self: NodeId, ifs: seq<Iface>, st: Node, p: Packet, hw: Hw, recvIf: int, env: Env, o: Out)
    requires o in Process(self, ifs, st, p, hw, recvIf, env).1 && !o.ToClient?
    ensures o.pkt.src == p.src && o.pkt.dst == p.dst
  {
    var t := Updated(st.table, p, hw, recvIf, env.now, st.sp);
    if p.kind == Data {
      if env.answer.Some? {
        TowardVia(ifs, t, p.src, p.(srcDest := -1, payload := env.answer.value));
      }
      TowardVia(ifs, t, p.src, p);
      TowardVia(ifs, t, p.dst, p);
    } else {
      ProcessOuts(self, ifs, st, p, hw, recvIf, env, o);
    }
  }

  /** What is newly in flight has the ends of the packet delivered, or those a client has just named. */
  lemma EndsStep(w: Wiring, net: Net, l: Label, g: Frame)
    requires Enabled(net, l) && g in Next(w, net, l).flight && g !in net.flight
    ensures !l.Lose?
    ensures l.Deliver? ==> g.pkt.src == net.flight[l.i].pkt.src && g.pkt.dst == net.flight[l.i].pkt.dst
    ensures l.Ask? ==> g.pkt.src == l.n && g.pkt.dst == l.dst
  {
    FramesAfter(w, net, l, g);
    var o :| o in OutsOf(w, net, l) && Carries(w, o, g);
    match l
    case Deliver(i, env) =>
      var f := net.flight[i];
      EndsStay(f.to.node, IfacesOf(w, f.to.node), net.nodes[f.to.node], f.pkt, f.from.hw, f.to.ifNo, env, o);
    case Ask(n, dst, forced, msg) =>
      RequestOuts(n, IfacesOf(w, n), net.nodes[n], dst, forced, msg, o);
  }

  /** From switching on, whatever is in flight - request, reply, payload or answer - goes back to a client of
      its source that has asked for its destination. */
  lemma {:induction false} TrafficWasAskedFor(w: Wiring, tr: seq<Net>, ls: seq<Label>, i: nat, g: Frame) returns (j: nat)
    requires Run(w, tr, ls) && SwitchedOn(w, tr[0]) && i < |tr| && g in tr[i].flight
    ensures j < i && AsksAt(ls[j], g.pkt.src) && ls[j].dst == g.pkt.dst
  {
    hide Next;
    if g in tr[i - 1].flight {
      j := TrafficWasAskedFor(w, tr, ls, i - 1, g);
    } else {
      EndsStep(w, tr[i - 1], ls[i - 1], g);
      if ls[i - 1].Ask? {
        j := i - 1;
      } else {
        j := TrafficWasAskedFor(w, tr, ls, i - 1, tr[i - 1].flight[ls[i - 1].i]);
      }
    }
  }

  // ----- From the client to the payload -----

  /** From switching on, in every run: when a reply arrives at its source, a client has asked there before.  If
      it is the first to arrive since the last client, exactly one frame is put in flight: a payload with that
      last client's message, for the node that the reply speaks of, which some client there has asked for.
      If it is not the first, nothing is put in flight. */
  lemma FirstReplyReleases(w: Wiring, tr: seq<Net>, ls: seq<Label>, i: nat, n: NodeId)
    requires Run(w, tr, ls) && SwitchedOn(w, tr[0]) && i < |ls| && ReplyArrives(tr[i], ls[i], n)
    ensures n in tr[i + 1].nodes
    ensures var p := tr[i].flight[ls[i].i].pkt;
            var rest := Without(tr[i].flight, ls[i].i);
            var j := LastAsk(ls, n, i);
            && j >= 0 && (exists m :: 0 <= m < i && AsksAt(ls[m], n) && ls[m].dst == p.dst)
            && if exists m :: j < m < i && ReplyArrives(tr[m], ls[m], n) then tr[i + 1].flight == rest
               else exists g: Frame ::
                      && tr[i + 1].flight == rest + [g] && g.pkt == p.(kind := Data, payload := ls[j].msg, srcDest := 1)
                      && g.from.node == n && p.dst in tr[i + 1].nodes[n].table
                      && g.from.ifNo == tr[i + 1].nodes[n].table[p.dst].ifNo
                      && g.to.hw == tr[i + 1].nodes[n].table[p.dst].hw
  {
    var f := tr[i].flight[ls[i].i];
    assert tr[i + 1] == Next(w, tr[i], ls[i]);
    var m := TrafficWasAskedFor(w, tr, ls, i, f);
    NodesStay(w, tr, ls, i);
    NothingForcedAtFirst(w, tr, ls, i, n);
    FlagTellsArrival(w, tr, ls, i, n);
    SwitchedOnIsSound(w, tr[0]);
    SaneRun(w, tr, ls, i);
    if tr[i].nodes[n].discovered == 0 {
      var g := ReleaseSendsPayload(w, tr[i], ls[i], n);
    } else {
      IfacesOfDistinct(w, n);
      ReplyAtSource(n, IfacesOf(w, n), tr[i].nodes[n], f.pkt, f.from.hw, f.to.ifNo, ls[i].env);
    }
  }
}
