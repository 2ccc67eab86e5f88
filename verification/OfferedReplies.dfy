/** Replies that intermediate nodes make: exactly when they are sure to reach the source.

    Such a reply is sent to the next hop toward the *destination*.  What becomes of it depends on that
    neighbour's table, and on whatever else happens before it gets there, so the question is asked of
    every fresh continuation that loses no reply. */
module OfferedReplies {
  import opened OdrTypes
  import opened TableSpec
  import opened NodeSpec
  import opened Network
  import opened Links
  import opened LoopFreedom
  import opened ReplyDelivery

  /** In this step a node answers a request of `s` for `d` out of its table. */
  predicate Offers(net: Net, l: Label, s: NodeId, d: NodeId) {
    l.Deliver? && Enabled(net, l) &&
    var f := net.flight[l.i];
    var st := net.nodes[f.to.node];
    && f.pkt.kind == Rreq && f.pkt.src == s && f.pkt.dst == d && !Dropped(f.pkt)
    && Unseen(f.to.node, st, f.pkt)
    && !Floods(Heeded(st, f.pkt, f.from.hw, f.to.ifNo, l.env.now), f.pkt)
  }

  predicate ReplyBetween(p: Packet, s: NodeId, d: NodeId) {
    p.kind == Rrep && p.src == s && p.dst == d
  }

  /** `g` is the reply that such a step puts in flight: made from the entry for `d`, addressed to the
      next hop toward `d`, and the only reply that the step adds. */
  ghost predicate Offered(w: Wiring, net: Net, l: Label, s: NodeId, d: NodeId, g: Frame)
    requires Offers(net, l, s, d)
  {
    var f := net.flight[l.i];
    var net' := Next(w, net, l);
    var n := f.to.node;
    && d in net'.nodes[n].table
    && g.pkt == ReplyFromEntry(f.pkt.(rreqHop := f.pkt.rreqHop + 1), net'.nodes[n].table[d])
    && g.to.node == NextHop(w, net', n, d) && RealFrame(w, g)
    && OnlyNewReply(net.flight, net'.flight, g)
  }

  /** There is such a reply. */
  lemma OfferedReply(w: Wiring, net: Net, l: Label, s: NodeId, d: NodeId) returns (g: Frame)
    requires Sane(w, net) && Offers(net, l, s, d)
    ensures Offered(w, net, l, s, d, g)
  {
    var f := net.flight[l.i];
    var n := f.to.node;
    var ifs := IfacesOf(w, n);
    var t := Next(w, net, l).nodes[n].table;
    var reply := ReplyFromEntry(f.pkt.(rreqHop := f.pkt.rreqHop + 1), t[d]);
    SaneStep(w, net, l);
    ProcessTable(n, ifs, net.nodes[n], f.pkt, f.from.hw, f.to.ifNo, l.env);
    g := SendOverLink(w, n, t, d, reply);
    var along, flood := SendToward(ifs, t, d, reply), BroadcastAll(ifs, FlaggedRequest(reply), ALL_INTERFACES);
    assert OutsOf(w, net, l) == along + flood;
    SpreadAllConcat(w, along, flood);
    FloodedFrames(w, ifs, FlaggedRequest(reply));
    WithoutIn(net.flight, l.i);
  }

  lemma FloodedFrames(w: Wiring, ifs: seq<Iface>, p: Packet)
    ensures forall f | f in SpreadAll(w, BroadcastAll(ifs, p, ALL_INTERFACES)) :: f.pkt == p
  {
    BroadcastOuts(ifs, p, ALL_INTERFACES);
    SpreadAllIn(w, BroadcastAll(ifs, p, ALL_INTERFACES));
  }

  // ----- Being sure to arrive -----

  /** A fresh continuation from `net` that loses no reply between `s` and `d`, at whose end none is in
      flight. */
  ghost predicate Continuation(w: Wiring, net: Net, tr: seq<Net>, ls: seq<Label>, s: NodeId, d: NodeId) {
    && FreshRun(w, tr, ls) && tr[0] == net
    && (forall i | 0 <= i < |ls| :: KeepsReplies(tr[i], ls[i], s, d))
    && (forall f | f in tr[|ls|].flight :: !ReplyBetween(f.pkt, s, d))
  }

  /** However things go on, `s` ends up with a route to `d`. */
  ghost predicate SureToArrive(w: Wiring, net: Net, s: NodeId, d: NodeId) {
    forall tr: seq<Net>, ls: seq<Label> | Continuation(w, net, tr, ls, s, d) ::
      s in tr[|ls|].nodes && d in tr[|ls|].nodes[s].table
  }

  /** A reply on course is sure to arrive. */
  lemma OnCourseArrives(w: Wiring, net: Net, s: NodeId, d: NodeId, g: Frame)
    requires Sane(w, net) && Backward(w, net, s)
    requires g in net.flight && g.pkt.dst == d && OnCourse(net, s, g)
    ensures SureToArrive(w, net, s, d)
  {
    forall tr: seq<Net>, ls: seq<Label> | Continuation(w, net, tr, ls, s, d)
      ensures s in tr[|ls|].nodes && d in tr[|ls|].nodes[s].table
    {
      PendingRun(w, tr, ls, 0, |ls|, s, d);
    }
  }

  /** Whether the receiver of the offered reply will see to it: it is `s`, or it has a route to `s`, and
      the reply has hops enough left, by the recorded hop count. */
  predicate NextHopHelps(w: Wiring, net: Net, l: Label, s: NodeId, d: NodeId)
    requires Offers(net, l, s, d)
  {
    var net' := Next(w, net, l);
    var n := net.flight[l.i].to.node;
    d in net'.nodes[n].table &&
    var m := NextHop(w, net', n, d);
    && m in net'.nodes && (m == s || s in net'.nodes[m].table)
    && Left(net', s, m) + net'.nodes[n].table[d].hop < MAXH
    && net.flight[l.i].pkt.rreqHop < MAXH
  }

  /** Offers that are delivered: in a fresh run from switching on that loses no reply between `s` and `d`,
      once a node has answered for `d` and its next hop helps, then whenever no such reply is in flight
      `s` holds a route to `d`. */
  lemma OffersAreDelivered(w: Wiring, tr: seq<Net>, ls: seq<Label>, i: nat, j: nat, s: NodeId, d: NodeId)
    requires FreshRun(w, tr, ls) && SwitchedOn(w, tr[0]) && i < j < |tr|
    requires Offers(tr[i], ls[i], s, d)
    requires NextHopHelps(w, tr[i], ls[i], s, d)
    requires forall m | i <= m < j :: KeepsReplies(tr[m], ls[m], s, d)
    requires forall f | f in tr[j].flight :: !ReplyBetween(f.pkt, s, d)
    ensures s in tr[j].nodes && d in tr[j].nodes[s].table
  {
    SwitchedOnIsSound(w, tr[0]);
    BackwardRun(w, tr, ls, i, s);
    var g := OfferedReply(w, tr[i], ls[i], s, d);
    assert g in tr[i + 1].flight && OnCourse(tr[i + 1], s, g);
    PendingRun(w, tr, ls, i + 1, j, s, d);
  }

  // ----- Not being sure to arrive -----

  /** A reply that has not arrived is passed on exactly when it is within its hop budget and its
      receiver has a route to the source; otherwise it ends there, and changes nothing but the
      receiver's own table. */
  lemma ReplyPassedOnIff(w: Wiring, net: Net, l: Label, s: NodeId)
    requires Sane(w, net) && Enabled(net, l) && l.Deliver?
    requires var f := net.flight[l.i]; f.pkt.kind == Rrep && f.pkt.src == s && f.pkt.dst != s && f.to.node != s
    ensures var f := net.flight[l.i];
            SpreadAll(w, OutsOf(w, net, l)) != [] <==> !Dropped(f.pkt) && s in net.nodes[f.to.node].table
    ensures forall n | n in net.nodes && n != net.flight[l.i].to.node :: Next(w, net, l).nodes[n] == net.nodes[n]
  {
    var f := net.flight[l.i];
    var n := f.to.node;
    SaneStep(w, net, l);
    ProcessTable(n, IfacesOf(w, n), net.nodes[n], f.pkt, f.from.hw, f.to.ifNo, l.env);
    if !Dropped(f.pkt) {
      UpdateFrame(net.nodes[n].table, f.pkt, f.from.hw, f.to.ifNo, l.env.now, net.nodes[n].sp);
      if s in net.nodes[n].table {
        var g := SendOverLink(w, n, Next(w, net, l).nodes[n].table, s, ForwardedReply(f.pkt));
      }
    }
  }

  /** The converse, in one step: if the next hop toward `d` is neither `s` nor has a route to `s`, then
      the offered reply, delivered next, puts nothing in flight and leaves `s` as it is. */
  lemma UnhelpedOfferEnds(w: Wiring, net: Net, l: Label, s: NodeId, d: NodeId, env: Env)
    requires Sane(w, net) && Offers(net, l, s, d) && s != d
    requires var net' := Next(w, net, l);
             var n := net.flight[l.i].to.node;
             d in net'.nodes[n].table ==>
               var m := NextHop(w, net', n, d); m != s && m in net'.nodes && s !in net'.nodes[m].table
    ensures var net' := Next(w, net, l);
            var l' := Deliver(|net.flight| - 1, env);
            && Enabled(net', l')
            && ReplyBetween(net'.flight[l'.i].pkt, s, d)
            && Next(w, net', l').flight == Without(net'.flight, l'.i)
            && (s in net'.nodes ==> Next(w, net', l').nodes[s] == net'.nodes[s])
  {
    var g := OfferedReply(w, net, l, s, d);
    SaneStep(w, net, l);
    ReplyPassedOnIff(w, Next(w, net, l), Deliver(|net.flight| - 1, env), s);
  }

  /** At `now` no entry is stale, and none refreshed at `now` will be. */
  ghost predicate Timely(net: Net, now: int) {
    forall n | n in net.nodes :: net.nodes[n].sp >= 0 && NoneStale(net.nodes[n].table, now, net.nodes[n].sp)
  }

  /** Hops that a reply really has to go from `m`, following next hops. */
  ghost function Way(w: Wiring, net: Net, m: NodeId, s: NodeId): nat
    requires Backward(w, net, s) && m in net.nodes
  {
    |Chain(w, net, m, s)| - 1
  }

  /** The reply at index `j`, the only one between `s` and `d`, cannot get through as things are: it will
      be dropped, or its receiver has no route, or its way is longer than its budget. */
  ghost predicate Doomed(w: Wiring, net: Net, j: nat, s: NodeId, d: NodeId)
    requires Backward(w, net, s)
  {
    && j < |net.flight|
    && (forall i | 0 <= i < |net.flight| && i != j :: !ReplyBetween(net.flight[i].pkt, s, d))
    && var g := net.flight[j];
       && ReplyBetween(g.pkt, s, d) && g.to.node in net.nodes
       && (Dropped(g.pkt)
           || (g.to.node != s
               && (s !in net.nodes[g.to.node].table || Way(w, net, g.to.node, s) + g.pkt.rrepHop > MAXH)))
  }

  /** Chains toward `s` do not change as long as entries for `s` do not. */
  lemma {:induction false} ChainStays(w: Wiring, net: Net, net': Net, n: NodeId, s: NodeId)
    requires Backward(w, net, s) && Backward(w, net', s) && n in net.nodes
    requires forall m | m in net.nodes :: m in net'.nodes
               && (s in net.nodes[m].table <==> s in net'.nodes[m].table)
               && (s in net.nodes[m].table ==> net'.nodes[m].table[s] == net.nodes[m].table[s])
    ensures Chain(w, net', n, s) == Chain(w, net, n, s)
    decreases if n == s then 0 else if s in net.nodes[n].table then net.nodes[n].table[s].hop + 1 else 0
  {
    if n != s && s in net.nodes[n].table {
      ChainStays(w, net, net', NextHop(w, net, n, s), s);
    }
  }

  /** A delivery at `now` is fresh and leaves things timely. */
  lemma TimelyStep(w: Wiring, net: Net, l: Label, now: int)
    requires Timely(net, now) && Enabled(net, l) && l.Deliver? && l.env.now == now
    requires net.flight[l.i].pkt.kind != Data
    ensures FreshStep(net, l) && Timely(Next(w, net, l), now)
  {
    hide Act;
    var f := net.flight[l.i];
    ProcessTable(f.to.node, IfacesOf(w, f.to.node), net.nodes[f.to.node], f.pkt, f.from.hw, f.to.ifNo, l.env);
    ProcessKeepsSp(f.to.node, IfacesOf(w, f.to.node), net.nodes[f.to.node], f.pkt, f.from.hw, f.to.ifNo, l.env);
  }

  /** One step of a doomed reply: it ends, or is passed on, still doomed. */
  lemma DoomedStep(w: Wiring, net: Net, j: nat, s: NodeId, d: NodeId, now: int)
    requires Sane(w, net) && Backward(w, net, s) && Timely(net, now) && s != d && Doomed(w, net, j, s, d)
    requires s in net.nodes && d !in net.nodes[s].table
    ensures var l := Deliver(j, Env(now, None));
            && Enabled(net, l) && FreshStep(net, l)
            && var net' := Next(w, net, l);
               && Sane(w, net') && Backward(w, net', s) && Timely(net', now)
               && s in net'.nodes && d !in net'.nodes[s].table
               && (forall n | n in net.nodes :: n in net'.nodes
                     && (s in net.nodes[n].table <==> s in net'.nodes[n].table)
                     && (s in net.nodes[n].table ==> net'.nodes[n].table[s] == net.nodes[n].table[s]))
  {
    hide Act, Timely, Sane, Backward, Way;
    var l := Deliver(j, Env(now, None));
    TimelyStep(w, net, l, now);
    SaneStep(w, net, l);
    BackwardStep(w, net, l, s);
    FreshEntry(w, net, l, s);
    FreshEntry(w, net, l, d);
  }

  lemma ProcessKeepsSp(self: NodeId, ifs: seq<Iface>, st: Node, p: Packet, hw: Hw, recvIf: int, env: Env)
    ensures Process(self, ifs, st, p, hw, recvIf, env).0.sp == st.sp
  {
  }

  lemma DoomedGoesOn(w: Wiring, net: Net, j: nat, s: NodeId, d: NodeId, now: int)
    requires Sane(w, net) && Backward(w, net, s) && Timely(net, now) && s != d && Doomed(w, net, j, s, d)
    requires s in net.nodes && d !in net.nodes[s].table
    ensures var l := Deliver(j, Env(now, None));
            var net' := Next(w, net, l);
            Enabled(net, l) && Backward(w, net', s) &&
            if Dropped(net.flight[j].pkt) || s !in net.nodes[net.flight[j].to.node].table then
              net'.flight == Without(net.flight, j)
            else
              && |net'.flight| == |net.flight| && Doomed(w, net', |net.flight| - 1, s, d)
              && var m := net'.flight[|net.flight| - 1].to.node;
                 m == s || s !in net'.nodes[m].table || net'.nodes[m].table[s].hop < net.nodes[net.flight[j].to.node].table[s].hop
  {
    hide OnRequest, OnPayload;
    var l := Deliver(j, Env(now, None));
    var f := net.flight[j];
    var n := f.to.node;
    var net' := Next(w, net, l);
    DoomedStep(w, net, j, s, d, now);
    if Dropped(f.pkt) {
      assert SpreadAll(w, []) == [];
    } else {
      ReplyPassedOnIff(w, net, l, s);
      if s in net.nodes[n].table {
        var g := SendOverLink(w, n, net'.nodes[n].table, s, ForwardedReply(f.pkt));
        assert net'.flight == Without(net.flight, j) + [g];
        assert Backed(net', g.to.node, s, net.nodes[n].table[s].hop);
        ChainStays(w, net, net', n, s);
        WithoutAt(net.flight, j);
      }
    }
  }

  lemma WithoutAt(s: seq<Frame>, j: nat)
    requires j < |s|
    ensures forall i | 0 <= i < |s| - 1 :: Without(s, j)[i] == s[if i < j then i else i + 1]
  {
  }

  /** A doomed reply, delivered again and again with nothing else going on, gets stuck. */
  lemma {:induction false} DoomedContinuation(w: Wiring, net: Net, j: nat, s: NodeId, d: NodeId, now: int)
    returns (tr: seq<Net>, ls: seq<Label>)
    requires Sane(w, net) && Backward(w, net, s) && Timely(net, now) && s != d && Doomed(w, net, j, s, d)
    requires s in net.nodes && d !in net.nodes[s].table
    ensures Continuation(w, net, tr, ls, s, d)
    ensures s in tr[|ls|].nodes && d !in tr[|ls|].nodes[s].table
    decreases var m := net.flight[j].to.node;
              if m != s && s in net.nodes[m].table then net.nodes[m].table[s].hop + 1 else 0
  {
    hide Next, Sane, Timely;
    var l := Deliver(j, Env(now, None));
    var net' := Next(w, net, l);
    DoomedStep(w, net, j, s, d, now);
    DoomedGoesOn(w, net, j, s, d, now);
    if Dropped(net.flight[j].pkt) || s !in net.nodes[net.flight[j].to.node].table {
      WithoutAt(net.flight, j);
      tr, ls := [net, net'], [l];
    } else {
      var tr', ls' := DoomedContinuation(w, net', |net.flight| - 1, s, d, now);
      tr, ls := Prepend(w, net, l, tr', ls', s, d);
    }
  }

  lemma Prepend(w: Wiring, net: Net, l: Label, tr: seq<Net>, ls: seq<Label>, s: NodeId, d: NodeId)
    returns (tr': seq<Net>, ls': seq<Label>)
    requires Enabled(net, l) && FreshStep(net, l) && KeepsReplies(net, l, s, d)
    requires Continuation(w, Next(w, net, l), tr, ls, s, d)
    ensures tr' == [net] + tr && ls' == [l] + ls && Continuation(w, net, tr', ls', s, d)
  {
    tr', ls' := [net] + tr, [l] + ls;
    forall i | 0 <= i < |ls'|
      ensures Enabled(tr'[i], ls'[i]) && tr'[i + 1] == Next(w, tr'[i], ls'[i])
      ensures FreshStep(tr'[i], ls'[i]) && KeepsReplies(tr'[i], ls'[i], s, d)
    {
      if i > 0 {
        assert tr'[i] == tr[i - 1] && ls'[i] == ls[i - 1] && tr'[i + 1] == tr[i];
      }
    }
  }

  /** What must hold for an offered reply to be sure to arrive: its next hop is `s` or has a route to `s`,
      and the way from there is within the reply's budget. */
  ghost predicate WayIsOpen(w: Wiring, net: Net, l: Label, s: NodeId, d: NodeId)
    requires Offers(net, l, s, d)
    requires Backward(w, Next(w, net, l), s)
  {
    var net' := Next(w, net, l);
    var n := net.flight[l.i].to.node;
    d in net'.nodes[n].table &&
    var m := NextHop(w, net', n, d);
    && m in net'.nodes && (m == s || s in net'.nodes[m].table)
    && Way(w, net', m, s) + net'.nodes[n].table[d].hop < MAXH
    && net.flight[l.i].pkt.rreqHop < MAXH
  }

  /** An intermediate node's reply is sure to arrive - in every fresh continuation that loses no reply
      between the two - if its next hop helps, and only if the way from there is open.  The two differ
      only when the next hop's recorded hop count is more than its way really takes; otherwise this is
      an equivalence. */
  lemma OfferSureIff(w: Wiring, net: Net, l: Label, s: NodeId, d: NodeId)
    requires Sane(w, net) && Backward(w, net, s) && Offers(net, l, s, d) && FreshStep(net, l) && s != d
    requires s in net.nodes && d !in net.nodes[s].table && net.flight[l.i].to.node != s
    requires forall f | f in net.flight :: !ReplyBetween(f.pkt, s, d)
    requires Timely(Next(w, net, l), l.env.now)
    ensures d in Next(w, net, l).nodes[net.flight[l.i].to.node].table && Backward(w, Next(w, net, l), s)
    ensures NextHopHelps(w, net, l, s, d) ==> SureToArrive(w, Next(w, net, l), s, d)
    ensures SureToArrive(w, Next(w, net, l), s, d) ==> WayIsOpen(w, net, l, s, d)
    ensures var net' := Next(w, net, l);
            var m := NextHop(w, net', net.flight[l.i].to.node, d);
            (m in net'.nodes && m != s && s in net'.nodes[m].table ==> net'.nodes[m].table[s].hop == Way(w, net', m, s))
            ==> (SureToArrive(w, net', s, d) <==> NextHopHelps(w, net, l, s, d))
  {
    SaneStep(w, net, l);
    BackwardStep(w, net, l, s);
    var g := OfferedReply(w, net, l, s, d);
    hide Next, Sane, Backward, Offers;
    if NextHopHelps(w, net, l, s, d) {
      HelpedOfferIsSure(w, net, l, s, d, g);
    }
    if !WayIsOpen(w, net, l, s, d) {
      BlockedOfferIsNotSure(w, net, l, s, d, g);
    }
  }

  lemma HelpedOfferIsSure(w: Wiring, net: Net, l: Label, s: NodeId, d: NodeId, g: Frame)
    requires Offers(net, l, s, d) && Sane(w, Next(w, net, l)) && Backward(w, Next(w, net, l), s)
    requires Offered(w, net, l, s, d, g) && NextHopHelps(w, net, l, s, d)
    ensures SureToArrive(w, Next(w, net, l), s, d)
  {
    hide Next;
    OnCourseArrives(w, Next(w, net, l), s, d, g);
  }

  lemma BlockedOfferIsNotSure(w: Wiring, net: Net, l: Label, s: NodeId, d: NodeId, g: Frame)
    requires Offers(net, l, s, d) && s != d && forall f | f in net.flight :: !ReplyBetween(f.pkt, s, d)
    requires Sane(w, Next(w, net, l)) && Backward(w, Next(w, net, l), s) && Timely(Next(w, net, l), l.env.now)
    requires s in Next(w, net, l).nodes && d !in Next(w, net, l).nodes[s].table
    requires Offered(w, net, l, s, d, g) && !WayIsOpen(w, net, l, s, d) && g.to.node in Next(w, net, l).nodes
    ensures !SureToArrive(w, Next(w, net, l), s, d)
  {
    OfferIsDoomed(w, net, l, s, d, g);
    hide Next, Sane, Backward, Timely, Doomed;
    var tr, ls := DoomedContinuation(w, Next(w, net, l), |net.flight| - 1, s, d, l.env.now);
  }

  /** An offer whose way is not open is a doomed reply. */
  lemma OfferIsDoomed(w: Wiring, net: Net, l: Label, s: NodeId, d: NodeId, g: Frame)
    requires Offers(net, l, s, d) && forall f | f in net.flight :: !ReplyBetween(f.pkt, s, d)
    requires Backward(w, Next(w, net, l), s)
    requires Offered(w, net, l, s, d, g) && !WayIsOpen(w, net, l, s, d) && g.to.node in Next(w, net, l).nodes
    ensures Doomed(w, Next(w, net, l), |net.flight| - 1, s, d)
  {
    hide Process, SpreadAll;
    var net' := Next(w, net, l);
    OnlyOne(net.flight, net'.flight, g, s, d);
    if g.to.node == s {
      assert Chain(w, net', s, s) == [s];
    }
  }

  /** The frames after an offer: the reply where the last frame was, and otherwise old frames and requests. */
  ghost predicate OnlyNewReply(was: seq<Frame>, now: seq<Frame>, g: Frame) {
    && 0 < |was| <= |now| && now[|was| - 1] == g
    && forall i | 0 <= i < |now| && i != |was| - 1 :: now[i] in was || now[i].pkt.kind == Rreq
  }

  lemma OnlyOne(was: seq<Frame>, now: seq<Frame>, g: Frame, s: NodeId, d: NodeId)
    requires OnlyNewReply(was, now, g) && forall f | f in was :: !ReplyBetween(f.pkt, s, d)
    ensures forall i | 0 <= i < |now| && i != |was| - 1 :: !ReplyBetween(now[i].pkt, s, d)
  {
  }
}
