/** A lone discovery, copies processed in hop order, from the client's question to the client's answer.

    Nothing is assumed about payloads here: that they leave every table alone is proved. */
module Service {
  import opened OdrTypes
  import opened TableSpec
  import opened NodeSpec
  import opened Network
  import opened Links
  import opened LoopFreedom
  import opened PayloadDelivery
  import opened ReplyDelivery
  import opened Flood
  import opened Forwarding
  import opened Discovery

  /** No client asks, nothing is lost or stale, and the server answers with `text`. */
  predicate CalmStep(net: Net, l: Label, text: string)
    requires Enabled(net, l)
  {
    l.Deliver? && l.env.answer == Some(text) &&
    var st := net.nodes[net.flight[l.i].to.node];
    NoneStale(st.table, l.env.now, st.sp)
  }

  /** The hop count that the destination has recorded for the source. */
  function Span(net: Net, c: Quest): int
    requires c.d in net.nodes && c.s in net.nodes[c.d].table
  {
    net.nodes[c.d].table[c.s].hop
  }

  /** Levels are exact: the neighbour that an entry for the source names is one hop nearer. */
  ghost predicate ExactLevels(w: Wiring, net: Net, r: Reach, c: Quest)
    requires SoleInv(w, net, r, c)
  {
    forall n | n in net.nodes && n != c.s && c.s in net.nodes[n].table ::
      Level(net, c, Owner(w, net.nodes[n].table[c.s].hw)) == net.nodes[n].table[c.s].hop - 1
  }

  /** Once the destination has answered, later copies are no shorter. */
  predicate SpanSettled(net: Net, c: Quest)
    requires c.d in net.nodes
  {
    c.s in net.nodes[c.d].table ==> forall f | f in net.flight && Copy(f.pkt, c) :: Span(net, c) <= f.pkt.rreqHop
  }

  /** A reply has come exactly as far from the destination as it is not yet near to the source. */
  predicate ExactReply(net: Net, c: Quest, f: Frame)
    requires c.d in net.nodes
  {
    f.pkt.kind == Rrep ==>
      && c.s in net.nodes[c.d].table && f.to.node in net.nodes
      && (f.to.node == c.s || c.s in net.nodes[f.to.node].table)
      && Left(net, c.s, f.to.node) + f.pkt.rrepHop == Span(net, c)
      && Span(net, c) <= f.pkt.rreqHop
  }

  /** And so have the entries that replies leave. */
  predicate ExactEntry(net: Net, c: Quest, n: NodeId)
    requires n in net.nodes && c.d in net.nodes
  {
    c.d in net.nodes[n].table ==>
      && c.s in net.nodes[c.d].table && (n == c.s || c.s in net.nodes[n].table)
      && Left(net, c.s, n) + net.nodes[n].table[c.d].hop == Span(net, c)
  }

  /** A payload that will find its way and leave tables alone. */
  predicate GoodPayload(net: Net, c: Quest, f: Frame, text: string)
    requires c.d in net.nodes
  {
    f.pkt.kind == Data ==>
      && f.pkt.src == c.s && f.pkt.dst == c.d && !Dropped(f.pkt)
      && c.s in net.nodes[c.d].table && Span(net, c) <= f.pkt.rreqHop
      && f.to.node in net.nodes
      && ((f.pkt.srcDest == 1 && f.to.node != c.s && (f.to.node == c.d || c.d in net.nodes[f.to.node].table))
          || (f.pkt.srcDest == -1 && f.pkt.payload == text && f.to.node != c.d
              && (f.to.node == c.s
                  || (c.s in net.nodes[f.to.node].table && net.nodes[f.to.node].table[c.s].hop < Span(net, c)))))
  }

  ghost predicate ServiceInv(w: Wiring, net: Net, r: Reach, c: Quest, text: string) {
    && SoleInv(w, net, r, c) && OrderInv(w, net, r, c)
    && ExactLevels(w, net, r, c) && SpanSettled(net, c)
    && (forall f | f in net.flight :: ExactReply(net, c, f) && GoodPayload(net, c, f, text))
    && (forall n | n in net.nodes :: ExactEntry(net, c, n))
    && (c.d in net.nodes[c.s].table ==> net.nodes[c.s].discovered != 0)
  }

  // ----- Payloads leave tables alone -----

  /** Every calm step is fresh: no payload finds an entry that it would rewrite. */
  lemma PayloadsLeaveTablesAlone(w: Wiring, net: Net, l: Label, r: Reach, c: Quest, text: string)
    requires ServiceInv(w, net, r, c, text) && Enabled(net, l) && CalmStep(net, l, text)
    ensures SoleStep(net, l, c)
  {
    var f := net.flight[l.i];
    if f.pkt.kind == Data {
      assert GoodPayload(net, c, f, text);
      if NamedKey(f.pkt) in net.nodes[f.to.node].table {
        PayloadFindsShortEntry(w, net, r, c, text, f);
      }
      PayloadKeepsTableIff(net.nodes[f.to.node].table, f.pkt, f.from.hw, f.to.ifNo, l.env.now, net.nodes[f.to.node].sp);
    }
  }

  lemma PayloadFindsShortEntry(w: Wiring, net: Net, r: Reach, c: Quest, text: string, f: Frame)
    requires ServiceInv(w, net, r, c, text) && f in net.flight && f.pkt.kind == Data
    requires f.to.node in net.nodes && NamedKey(f.pkt) in net.nodes[f.to.node].table
    ensures net.nodes[f.to.node].table[NamedKey(f.pkt)].hop <= f.pkt.rreqHop
  {
    assert GoodPayload(net, c, f, text) && ExactEntry(net, c, f.to.node);
  }

  // ----- What a step leaves as it is -----

  /** The destination's entry for the source, once there, stays. */
  lemma SpanStays(w: Wiring, net: Net, l: Label, r: Reach, c: Quest, text: string)
    requires ServiceInv(w, net, r, c, text) && Enabled(net, l) && l.Deliver? && SoleStep(net, l, c)
    requires c.s in net.nodes[c.d].table
    ensures c.d in Next(w, net, l).nodes && c.s in Next(w, net, l).nodes[c.d].table
    ensures Next(w, net, l).nodes[c.d].table[c.s] == net.nodes[c.d].table[c.s]
  {
    assert SoleFrame(net, r, c, net.flight[l.i]);
    FreshEntry(w, net, l, c.s);
  }

  /** So does every forwarder's. */
  lemma LeftStays(w: Wiring, net: Net, l: Label, r: Reach, c: Quest, n: NodeId)
    requires SoleInv(w, net, r, c) && OrderInv(w, net, r, c) && Enabled(net, l) && l.Deliver? && SoleStep(net, l, c)
    requires n in r.plain && n != c.s
    ensures n in net.nodes && c.s in net.nodes[n].table
    ensures n in Next(w, net, l).nodes && c.s in Next(w, net, l).nodes[n].table
    ensures Next(w, net, l).nodes[n].table[c.s] == net.nodes[n].table[c.s]
  {
    assert SoleFrame(net, r, c, net.flight[l.i]);
    FreshEntry(w, net, l, c.s);
  }

  /** A new entry for the source is one hop longer than its neighbour's level. */
  lemma ExactLevelAt(w: Wiring, net: Net, l: Label, r: Reach, c: Quest, text: string, n: NodeId)
    requires ServiceInv(w, net, r, c, text) && Enabled(net, l) && l.Deliver? && SoleStep(net, l, c)
    requires SoleInv(w, Next(w, net, l), Track(net, l, r, c), c)
    requires n in Next(w, net, l).nodes && n != c.s && c.s in Next(w, net, l).nodes[n].table
    ensures var net' := Next(w, net, l);
            var m := Owner(w, net'.nodes[n].table[c.s].hw);
            m in net'.nodes && (m == c.s || c.s in net'.nodes[m].table)
            && Level(net', c, m) == net'.nodes[n].table[c.s].hop - 1
  {
    var f := net.flight[l.i];
    var net' := Next(w, net, l);
    assert SoleFrame(net, r, c, f) && RealFrame(w, f) && FloodFrame(f, r, c);
    OwnerOf(w, f.from);
    FreshEntry(w, net, l, c.s);
    var m := Owner(w, net'.nodes[n].table[c.s].hw);
    if n in net.nodes && c.s in net.nodes[n].table && net'.nodes[n].table[c.s] == net.nodes[n].table[c.s] {
      assert m in r.plain;
    } else {
      assert m == f.from.node;
    }
    if m != c.s {
      LeftStays(w, net, l, r, c, m);
    }
  }

  // ----- One step keeps the invariant -----

  lemma SpanSettledStep(w: Wiring, net: Net, l: Label, r: Reach, c: Quest, text: string)
    requires ServiceInv(w, net, r, c, text) && Enabled(net, l) && l.Deliver? && SoleStep(net, l, c) && InHopOrder(net, l, c)
    requires SoleInv(w, Next(w, net, l), Track(net, l, r, c), c)
    ensures SpanSettled(Next(w, net, l), c)
  {
    var net' := Next(w, net, l);
    var f := net.flight[l.i];
    assert SoleFrame(net, r, c, f);
    FreshEntry(w, net, l, c.s);
    if c.s in net.nodes[c.d].table {
      SpanStays(w, net, l, r, c, text);
    }
    if c.s in net'.nodes[c.d].table {
      forall g | g in net'.flight && Copy(g.pkt, c) ensures Span(net', c) <= g.pkt.rreqHop {
        CopiesAfter(w, net, l, r, c, g);
      }
    }
  }

  /** A new reply: whose it is, and what its header says. */
  lemma NewReplyHeader(w: Wiring, net: Net, l: Label, r: Reach, c: Quest, o: Out)
    requires SoleInv(w, net, r, c) && Enabled(net, l) && l.Deliver? && SoleStep(net, l, c)
    requires o in OutsOf(w, net, l) && !o.ToClient? && o.pkt.kind == Rrep
    ensures var f := net.flight[l.i];
            var t := Next(w, net, l).nodes[f.to.node].table;
            && c.s in t && o.Unicast? && o.to == t[c.s].hw && f.to.node != c.s
            && o.pkt.rreqHop == f.pkt.rreqHop
            && ((Answers(net, l, c.s, c.d) && o.pkt.rrepHop == 1)
                || (f.pkt.kind == Rrep && f.to.node in r.plain && o.pkt.rrepHop == f.pkt.rrepHop + 1))
  {
    var f := net.flight[l.i];
    var n := f.to.node;
    NewSoleReply(w, net, l, r, c, o);
    hide Act;
    assert SoleFrame(net, r, c, f);
    ProcessOuts(n, IfacesOf(w, n), net.nodes[n], f.pkt, f.from.hw, f.to.ifNo, l.env, o);
  }

  /** When the destination answers, the copy it answers is no shorter than what it has recorded. */
  lemma AnswerSpan(w: Wiring, net: Net, l: Label, r: Reach, c: Quest, text: string)
    requires ServiceInv(w, net, r, c, text) && Enabled(net, l) && l.Deliver? && SoleStep(net, l, c)
    requires Answers(net, l, c.s, c.d)
    ensures c.d in Next(w, net, l).nodes && c.s in Next(w, net, l).nodes[c.d].table
    ensures Span(Next(w, net, l), c) <= net.flight[l.i].pkt.rreqHop
  {
    FreshEntry(w, net, l, c.s);
  }

  lemma InvFacts(w: Wiring, net: Net, r: Reach, c: Quest, text: string, f: Frame)
    requires ServiceInv(w, net, r, c, text) && f in net.flight
    ensures WellWired(w) && c.d in net.nodes && ExactReply(net, c, f)
  {
  }

  /** A forwarder and the reply it passes on add up to what the destination has recorded. */
  lemma ForwardedAddsUp(w: Wiring, net: Net, l: Label, r: Reach, c: Quest, text: string)
    requires ServiceInv(w, net, r, c, text) && Enabled(net, l) && l.Deliver? && SoleStep(net, l, c)
    requires var f := net.flight[l.i]; f.pkt.kind == Rrep && f.to.node in r.plain && f.to.node != c.s
    ensures var f := net.flight[l.i];
            var net' := Next(w, net, l);
            && f.to.node in net'.nodes && c.s in net'.nodes[f.to.node].table
            && c.d in net'.nodes && c.s in net'.nodes[c.d].table
            && net'.nodes[f.to.node].table[c.s].hop + f.pkt.rrepHop == Span(net', c)
            && Span(net', c) <= f.pkt.rreqHop
  {
    hide Next, SoleStep, SoleInv, OrderInv;
    InvFacts(w, net, r, c, text, net.flight[l.i]);
    SpanStays(w, net, l, r, c, text);
    LeftStays(w, net, l, r, c, net.flight[l.i].to.node);
  }

  /** The node that sends a reply and the reply itself add up to the destination's hop count. */
  lemma NewReplyAddsUp(w: Wiring, net: Net, l: Label, r: Reach, c: Quest, text: string, o: Out)
    requires ServiceInv(w, net, r, c, text) && Enabled(net, l) && l.Deliver? && SoleStep(net, l, c)
    requires o in OutsOf(w, net, l) && !o.ToClient? && o.pkt.kind == Rrep
    ensures var net' := Next(w, net, l);
            var n := net.flight[l.i].to.node;
            && n in net'.nodes && n != c.s && c.s in net'.nodes[n].table
            && o.Unicast? && o.to == net'.nodes[n].table[c.s].hw
            && c.d in net'.nodes && c.s in net'.nodes[c.d].table
            && net'.nodes[n].table[c.s].hop + o.pkt.rrepHop == Span(net', c) + 1
            && Span(net', c) <= o.pkt.rreqHop
  {
    assert SoleInv(w, net, r, c);
    hide Next, ServiceInv, SoleStep, OutsOf, SoleInv, OrderInv;
    NewReplyHeader(w, net, l, r, c, o);
    if Answers(net, l, c.s, c.d) {
      AnswerSpan(w, net, l, r, c, text);
    } else {
      ForwardedAddsUp(w, net, l, r, c, text);
    }
  }

  /** A new reply is as exact as the levels it follows. */
  lemma NewExactReply(w: Wiring, net: Net, l: Label, r: Reach, c: Quest, text: string, o: Out, g: Frame)
    requires ServiceInv(w, net, r, c, text) && Enabled(net, l) && l.Deliver? && SoleStep(net, l, c)
    requires SoleInv(w, Next(w, net, l), Track(net, l, r, c), c)
    requires g.pkt.kind == Rrep && o in OutsOf(w, net, l) && Carries(w, o, g)
    ensures c.d in Next(w, net, l).nodes && ExactReply(Next(w, net, l), c, g)
  {
    hide Next, Track, ServiceInv, SoleInv, SoleStep, OutsOf;
    InvFacts(w, net, r, c, text, net.flight[l.i]);
    NewReplyAddsUp(w, net, l, r, c, text, o);
    ExactLevelAt(w, net, l, r, c, text, net.flight[l.i].to.node);
    OwnerOf(w, g.to);
  }

  lemma ExactReplies(w: Wiring, net: Net, l: Label, r: Reach, c: Quest, text: string, g: Frame)
    requires ServiceInv(w, net, r, c, text) && Enabled(net, l) && l.Deliver? && SoleStep(net, l, c)
    requires SoleInv(w, Next(w, net, l), Track(net, l, r, c), c)
    requires g in Next(w, net, l).flight
    ensures ExactReply(Next(w, net, l), c, g)
  {
    if g.pkt.kind == Rrep {
      FramesAfter(w, net, l, g);
      if g in net.flight {
        assert ExactReply(net, c, g) && SoleFrame(net, r, c, g);
        SpanStays(w, net, l, r, c, text);
        if g.to.node != c.s {
          LeftStays(w, net, l, r, c, g.to.node);
        }
      } else {
        var o :| o in OutsOf(w, net, l) && Carries(w, o, g);
        NewExactReply(w, net, l, r, c, text, o, g);
      }
    }
  }

  lemma ExactEntries(w: Wiring, net: Net, l: Label, r: Reach, c: Quest, text: string, n: NodeId)
    requires ServiceInv(w, net, r, c, text) && Enabled(net, l) && l.Deliver? && SoleStep(net, l, c)
    requires n in Next(w, net, l).nodes
    ensures ExactEntry(Next(w, net, l), c, n)
  {
    var f := net.flight[l.i];
    assert SoleFrame(net, r, c, f) && ExactReply(net, c, f) && ExactEntry(net, c, n);
    FreshEntry(w, net, l, c.d);
    if c.d in Next(w, net, l).nodes[n].table {
      assert n in r.plain;
      SpanStays(w, net, l, r, c, text);
      if n != c.s {
        LeftStays(w, net, l, r, c, n);
      }
    }
  }

  /** The source's flag is up as soon as it has a route. */
  lemma RouteMeansReleased(w: Wiring, net: Net, l: Label, r: Reach, c: Quest, text: string)
    requires ServiceInv(w, net, r, c, text) && Enabled(net, l) && l.Deliver? && SoleStep(net, l, c)
    ensures c.s in Next(w, net, l).nodes
    ensures c.d in Next(w, net, l).nodes[c.s].table ==> Next(w, net, l).nodes[c.s].discovered != 0
  {
    hide Act;
    var f := net.flight[l.i];
    assert SoleFrame(net, r, c, f);
    FreshEntry(w, net, l, c.d);
    ProcessFlag(f.to.node, IfacesOf(w, f.to.node), net.nodes[f.to.node], f.pkt, f.from.hw, f.to.ifNo, l.env);
  }

  // ----- Payloads find their way -----

  /** A good payload stays good while other things happen. */
  lemma OldPayload(w: Wiring, net: Net, l: Label, r: Reach, c: Quest, text: string, g: Frame)
    requires ServiceInv(w, net, r, c, text) && Enabled(net, l) && l.Deliver? && SoleStep(net, l, c)
    requires g in net.flight
    ensures c.d in Next(w, net, l).nodes && GoodPayload(Next(w, net, l), c, g, text)
  {
    assert GoodPayload(net, c, g, text);
    CloserStep(w, net, l, c.s);
    CloserStep(w, net, l, c.d);
    if g.pkt.kind == Data {
      SpanStays(w, net, l, r, c, text);
    }
  }

  /** The payload that a reply releases sets out on a good way. */
  lemma ReleasedPayload(w: Wiring, net: Net, l: Label, r: Reach, c: Quest, text: string) returns (g: Frame)
    requires ServiceInv(w, net, r, c, text) && Enabled(net, l) && l.Deliver? && SoleStep(net, l, c)
    requires net.flight[l.i].pkt.kind == Rrep && net.flight[l.i].to.node == c.s && net.nodes[c.s].discovered == 0
    ensures SpreadAll(w, OutsOf(w, net, l)) == [g] && g.pkt.kind == Data
    ensures c.d in Next(w, net, l).nodes && GoodPayload(Next(w, net, l), c, g, text)
  {
    var f := net.flight[l.i];
    var net' := Next(w, net, l);
    assert SoleFrame(net, r, c, f) && ExactReply(net, c, f);
    SaneStep(w, net, l);
    BackwardStep(w, net, l, c.d);
    SpanStays(w, net, l, r, c, text);
    ProcessTable(c.s, IfacesOf(w, c.s), net.nodes[c.s], f.pkt, f.from.hw, f.to.ifNo, l.env);
    var t := net'.nodes[c.s].table;
    g := SendOverLink(w, c.s, t, c.d, FirstPayload(f.pkt, net.nodes[c.s].msg));
    assert Backed(net', g.to.node, c.d, t[c.d].hop);
  }

  /** On from a node on the way to the destination. */
  lemma ForthFrom(w: Wiring, net: Net, r: Reach, c: Quest, text: string, n: NodeId, p: Packet) returns (g: Frame)
    requires ServiceInv(w, net, r, c, text) && n in net.nodes && n != c.s && n != c.d && c.d in net.nodes[n].table
    requires p.kind == Data && p.src == c.s && p.dst == c.d && !Dropped(p) && p.srcDest == 1
    requires c.s in net.nodes[c.d].table && Span(net, c) <= p.rreqHop
    ensures SpreadAll(w, SendToward(IfacesOf(w, n), net.nodes[n].table, c.d, p)) == [g]
    ensures g.pkt == p && GoodPayload(net, c, g, text)
  {
    g := SendOverLink(w, n, net.nodes[n].table, c.d, p);
    assert Backed(net, g.to.node, c.d, net.nodes[n].table[c.d].hop);
    assert ExactEntry(net, c, n) && ExactEntry(net, c, c.s);
  }

  /** Back from the destination, or on from a node on the way back. */
  lemma BackFrom(w: Wiring, net: Net, r: Reach, c: Quest, text: string, n: NodeId, p: Packet) returns (g: Frame)
    requires ServiceInv(w, net, r, c, text) && n in net.nodes && n != c.s && c.s in net.nodes[n].table
    requires p.kind == Data && p.src == c.s && p.dst == c.d && !Dropped(p) && p.srcDest == -1 && p.payload == text
    requires c.s in net.nodes[c.d].table && Span(net, c) <= p.rreqHop && net.nodes[n].table[c.s].hop <= Span(net, c)
    ensures SpreadAll(w, SendToward(IfacesOf(w, n), net.nodes[n].table, c.s, p)) == [g]
    ensures g.pkt == p && GoodPayload(net, c, g, text)
  {
    g := SendOverLink(w, n, net.nodes[n].table, c.s, p);
    assert Backed(net, g.to.node, c.s, net.nodes[n].table[c.s].hop);
  }

  lemma PayloadOuts(w: Wiring, net: Net, l: Label)
    requires Enabled(net, l) && l.Deliver? && FreshStep(net, l)
    requires net.flight[l.i].pkt.kind == Data && !Dropped(net.flight[l.i].pkt)
    ensures var f := net.flight[l.i];
            OutsOf(w, net, l) == OnPayload(f.to.node, IfacesOf(w, f.to.node), net.nodes[f.to.node], f.pkt, l.env.answer).1
  {
    var f := net.flight[l.i];
    assert Heeded(net.nodes[f.to.node], f.pkt, f.from.hw, f.to.ifNo, l.env.now) == net.nodes[f.to.node];
  }

  /** A payload that is delivered goes on as one good payload, or is the answer and is handed to the
      client; no node changes. */
  lemma PayloadGoesOn(w: Wiring, net: Net, l: Label, r: Reach, c: Quest, text: string) returns (g: Frame)
    requires ServiceInv(w, net, r, c, text) && Enabled(net, l) && CalmStep(net, l, text) && SoleStep(net, l, c)
    requires net.flight[l.i].pkt.kind == Data
    ensures Next(w, net, l).nodes == net.nodes
    ensures net.flight[l.i].to.node == c.s ==>
              OutsOf(w, net, l) == [ToClient(text, c.d)] && Next(w, net, l).flight == Without(net.flight, l.i)
    ensures net.flight[l.i].to.node != c.s ==>
              Next(w, net, l).flight == Without(net.flight, l.i) + [g] && g.pkt.kind == Data && GoodPayload(net, c, g, text)
  {
    var f := net.flight[l.i];
    var n := f.to.node;
    g := f;
    assert GoodPayload(net, c, f, text);
    PayloadStep(w, net, l);
    PayloadOuts(w, net, l);
    hide Next, OutsOf, SendToward;
    if n == c.s {
      AnswerIsHandedOver(w, net, c.s, c.d, f, text);
    } else if n == c.d {
      g := BackFrom(w, net, r, c, text, n, f.pkt.(srcDest := -1, payload := text));
    } else if f.pkt.srcDest == 1 {
      g := ForthFrom(w, net, r, c, text, n, f.pkt);
    } else {
      g := BackFrom(w, net, r, c, text, n, f.pkt);
    }
  }

  lemma GoodPayloads(w: Wiring, net: Net, l: Label, r: Reach, c: Quest, text: string, g: Frame)
    requires ServiceInv(w, net, r, c, text) && Enabled(net, l) && CalmStep(net, l, text) && SoleStep(net, l, c)
    requires g in Next(w, net, l).flight
    ensures c.d in Next(w, net, l).nodes && GoodPayload(Next(w, net, l), c, g, text)
  {
    var f := net.flight[l.i];
    FramesAfter(w, net, l, g);
    if g in net.flight {
      OldPayload(w, net, l, r, c, text, g);
    } else if g.pkt.kind == Data {
      SpreadAllIn(w, OutsOf(w, net, l));
      assert g in SpreadAll(w, OutsOf(w, net, l));
      if f.pkt.kind == Data {
        var a := PayloadGoesOn(w, net, l, r, c, text);
        WithoutIn(net.flight, l.i);
      } else {
        var o :| o in OutsOf(w, net, l) && Carries(w, o, g);
        assert SoleFrame(net, r, c, f);
        ProcessOuts(f.to.node, IfacesOf(w, f.to.node), net.nodes[f.to.node], f.pkt, f.from.hw, f.to.ifNo, l.env, o);
        var a := ReleasedPayload(w, net, l, r, c, text);
        assert g in [a];
      }
    }
  }

  lemma ServiceInvStep(w: Wiring, net: Net, l: Label, r: Reach, c: Quest, text: string)
    requires ServiceInv(w, net, r, c, text) && Enabled(net, l) && CalmStep(net, l, text) && InHopOrder(net, l, c)
    ensures SoleStep(net, l, c)
    ensures ServiceInv(w, Next(w, net, l), Track(net, l, r, c), c, text)
  {
    var net' := Next(w, net, l);
    var r' := Track(net, l, r, c);
    PayloadsLeaveTablesAlone(w, net, l, r, c, text);
    SoleInvStep(w, net, l, r, c);
    OrderInvStep(w, net, l, r, c);
    SpanSettledStep(w, net, l, r, c, text);
    RouteMeansReleased(w, net, l, r, c, text);
    assert ExactLevels(w, net', r', c) by {
      forall n | n in net'.nodes && n != c.s && c.s in net'.nodes[n].table
        ensures Level(net', c, Owner(w, net'.nodes[n].table[c.s].hw)) == net'.nodes[n].table[c.s].hop - 1
      {
        ExactLevelAt(w, net, l, r, c, text, n);
      }
    }
    forall g | g in net'.flight ensures ExactReply(net', c, g) && GoodPayload(net', c, g, text) {
      ExactReplies(w, net, l, r, c, text, g);
      GoodPayloads(w, net, l, r, c, text, g);
    }
    forall n | n in net'.nodes ensures ExactEntry(net', c, n) {
      ExactEntries(w, net, l, r, c, text, n);
    }
  }

  // ----- Whole runs -----

  /** A run in which a lone client asks in a network switched on or otherwise at rest, nothing is lost or
      stale, copies are processed in hop order, and the server answers with `text`. */
  ghost predicate CalmRun(w: Wiring, before: Net, tr: seq<Net>, ls: seq<Label>, c: Quest, text: string) {
    && Run(w, tr, ls) && SoleStart(w, before, tr[0], c) && before.flight == []
    && forall j | 0 <= j < |ls| :: CalmStep(tr[j], ls[j], text) && InHopOrder(tr[j], ls[j], c)
  }

  lemma ServiceInvStarts(w: Wiring, before: Net, net: Net, c: Quest, text: string)
    requires SoleStart(w, before, net, c) && before.flight == []
    ensures ServiceInv(w, net, Reach({c.s}, {c.s}), c, text)
  {
    SoleInvStarts(w, before, net, c);
    OrderInvStarts(w, before, net, c);
    forall f | f in net.flight ensures f.pkt.kind == Rreq {
      var forced, msg :| !(c.d in before.nodes[c.s].table && forced == 0) && net == Next(w, before, Ask(c.s, c.d, forced, msg));
      var l := Ask(c.s, c.d, forced, msg);
      FramesAfter(w, before, l, f);
      var o :| o in OutsOf(w, before, l) && Carries(w, o, f);
      RequestOuts(c.s, IfacesOf(w, c.s), before.nodes[c.s], c.d, forced, msg, o);
    }
  }

  lemma {:induction false} ServiceInvRun(w: Wiring, before: Net, tr: seq<Net>, ls: seq<Label>, c: Quest, text: string, i: nat)
    requires CalmRun(w, before, tr, ls, c, text) && i < |tr|
    ensures ServiceInv(w, tr[i], ReachAt(w, tr, ls, c, i), c, text)
  {
    hide Next, Track, ServiceInv, SoleStep;
    if i == 0 {
      ServiceInvStarts(w, before, tr[0], c, text);
    } else {
      var r := ReachAt(w, tr, ls, c, i - 1);
      ServiceInvRun(w, before, tr, ls, c, text, i - 1);
      assert CalmStep(tr[i - 1], ls[i - 1], text) && InHopOrder(tr[i - 1], ls[i - 1], c);
      ServiceInvStep(w, tr[i - 1], ls[i - 1], r, c, text);
    }
  }

  /** A calm run is a lone discovery in hop order, and fresh: the payloads in it leave tables alone. */
  lemma CalmRunsAreFresh(w: Wiring, before: Net, tr: seq<Net>, ls: seq<Label>, c: Quest, text: string)
    requires CalmRun(w, before, tr, ls, c, text)
    ensures OrderedRun(w, before, tr, ls, c) && FreshRun(w, tr, ls)
  {
    forall i | 0 <= i < |ls| ensures SoleStep(tr[i], ls[i], c) {
      ServiceInvRun(w, before, tr, ls, c, text, i);
      PayloadsLeaveTablesAlone(w, tr[i], ls[i], ReachAt(w, tr, ls, c, i), c, text);
    }
  }

  // ----- The client gets its answer -----

  ghost predicate Underway(net: Net) {
    exists f :: f in net.flight && f.pkt.kind == Data
  }

  /** In this step the client is handed the server's answer. */
  predicate HandsOver(w: Wiring, net: Net, l: Label, c: Quest, text: string) {
    Enabled(net, l) && l.Deliver? && net.flight[l.i].to.node == c.s && OutsOf(w, net, l) == [ToClient(text, c.d)]
  }

  /** A payload once under way stays under way until the answer is handed over, and is put under way when
      the source's flag goes up. */
  lemma Progress(w: Wiring, net: Net, l: Label, r: Reach, c: Quest, text: string)
    requires ServiceInv(w, net, r, c, text) && Enabled(net, l) && CalmStep(net, l, text) && SoleStep(net, l, c)
    requires Next(w, net, l).nodes[c.s].discovered != 0
    requires net.nodes[c.s].discovered != 0 ==> Underway(net)
    ensures Underway(Next(w, net, l)) || HandsOver(w, net, l, c, text)
  {
    var f := net.flight[l.i];
    var net' := Next(w, net, l);
    assert SoleFrame(net, r, c, f);
    if net.nodes[c.s].discovered == 0 {
      var g := ReleasedPayload(w, net, l, r, c, text);
      assert g in [g];
      assert g in net'.flight;
    } else if f.pkt.kind == Data {
      var g := PayloadGoesOn(w, net, l, r, c, text);
      if f.to.node != c.s {
        assert g in [g];
        assert g in net'.flight;
      }
    } else {
      var g :| g in net.flight && g.pkt.kind == Data;
      FramesStay(w, net, l, g);
    }
  }

  ghost predicate Handed(w: Wiring, tr: seq<Net>, ls: seq<Label>, c: Quest, text: string, i: nat)
    requires |tr| == |ls| + 1 && i < |tr|
  {
    exists j :: 0 <= j < i && HandsOver(w, tr[j], ls[j], c, text)
  }

  lemma {:induction false} UnderwayOrHanded(w: Wiring, before: Net, tr: seq<Net>, ls: seq<Label>, c: Quest, text: string, i: nat)
    requires CalmRun(w, before, tr, ls, c, text) && i < |tr|
    ensures c.s in tr[i].nodes
    ensures tr[i].nodes[c.s].discovered != 0 ==> Underway(tr[i]) || Handed(w, tr, ls, c, text, i)
  {
    ServiceInvRun(w, before, tr, ls, c, text, i);
    if i == 0 {
      AskingLowersFlag(w, before, tr[0], c);
    } else {
      UnderwayOrHanded(w, before, tr, ls, c, text, i - 1);
      ServiceInvRun(w, before, tr, ls, c, text, i - 1);
      var net, l := tr[i - 1], ls[i - 1];
      var r := ReachAt(w, tr, ls, c, i - 1);
      assert CalmStep(net, l, text);
      PayloadsLeaveTablesAlone(w, net, l, r, c, text);
      if Handed(w, tr, ls, c, text, i - 1) {
        var j :| 0 <= j < i - 1 && HandsOver(w, tr[j], ls[j], c, text);
        assert Handed(w, tr, ls, c, text, i);
      } else if tr[i].nodes[c.s].discovered != 0 {
        Progress(w, net, l, r, c, text);
      }
    }
  }

  lemma AskingLowersFlag(w: Wiring, before: Net, net: Net, c: Quest)
    requires JustAsked(w, before, net, c)
    ensures c.s in net.nodes && net.nodes[c.s].discovered == 0
  {
  }

  /** From the question to the answer.  A client of `s` asks for `d` in a network in which nobody knows
      either, and then nothing is lost or stale, copies are processed in hop order, and the server
      answers with `text`.  If `d` is at distance at most MAXH, then once nothing is in flight the client
      has been handed `text`, and both ends have recorded exactly their distance. */
  lemma ClientIsAnswered(w: Wiring, before: Net, tr: seq<Net>, ls: seq<Label>, c: Quest, text: string, i: nat, h: nat)
    requires CalmRun(w, before, tr, ls, c, text) && i < |tr| && tr[i].flight == []
    requires Distance(w, c.d, c.s, h) && h <= MAXH
    ensures Handed(w, tr, ls, c, text, i)
    ensures c.s in tr[i].nodes && c.d in tr[i].nodes
    ensures c.s in tr[i].nodes[c.d].table && tr[i].nodes[c.d].table[c.s].hop == h
    ensures c.d in tr[i].nodes[c.s].table && tr[i].nodes[c.s].table[c.d].hop == h
  {
    var r := ReachAt(w, tr, ls, c, i);
    ServiceInvRun(w, before, tr, ls, c, text, i);
    ShortestAtRest(w, tr[i], r, c, h);
    assert ExactEntry(tr[i], c, c.s);
    UnderwayOrHanded(w, before, tr, ls, c, text, i);
  }
}
