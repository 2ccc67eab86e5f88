/** Replies created at the destination always reach the source. */
module ReplyDelivery {
  import opened OdrTypes
  import opened TableSpec
  import opened NodeSpec
  import opened Network
  import opened Links
  import opened LoopFreedom

  /** Hops that a reply for `s` still has to go from `n`, by `n`'s table. */
  function Left(net: Net, s: NodeId, n: NodeId): int
    requires n in net.nodes && (n == s || s in net.nodes[n].table)
  {
    if n == s then 0 else net.nodes[n].table[s].hop
  }

  /** A reply to `s` whose receiver is `s` or has a route to it, with enough of its hop budget left. */
  predicate OnCourse(net: Net, s: NodeId, f: Frame) {
    && f.pkt.kind == Rrep && f.pkt.src == s
    && f.pkt.rreqHop <= MAXH
    && f.to.node in net.nodes
    && (f.to.node == s || s in net.nodes[f.to.node].table)
    && Left(net, s, f.to.node) + f.pkt.rrepHop <= MAXH
  }

  /** In this step `d` answers a request of `s`. */
  predicate Answers(net: Net, l: Label, s: NodeId, d: NodeId) {
    l.Deliver? && Enabled(net, l) &&
    var f := net.flight[l.i];
    f.to.node == d && f.pkt.kind == Rreq && f.pkt.src == s && f.pkt.dst == d && f.pkt.rrepSent != 1 && !Dropped(f.pkt)
  }

  /** Sending a reply along the route to `s` puts exactly one frame in flight, on course, and nearer
      to `s` than the sender. */
  lemma SentOnCourse(w: Wiring, net: Net, s: NodeId, n: NodeId, p: Packet) returns (g: Frame)
    requires Sane(w, net) && Backward(w, net, s) && n in net.nodes && n != s && s in net.nodes[n].table
    requires p.kind == Rrep && p.src == s && p.rreqHop <= MAXH && net.nodes[n].table[s].hop + p.rrepHop <= MAXH + 1
    ensures SpreadAll(w, SendToward(IfacesOf(w, n), net.nodes[n].table, s, p)) == [g]
    ensures g.pkt == p && OnCourse(net, s, g) && Left(net, s, g.to.node) < Left(net, s, n)
  {
    g := SendOverLink(w, n, net.nodes[n].table, s, p);
    assert Backed(net, g.to.node, s, net.nodes[n].table[s].hop);
  }

  /** A destination's answer goes out as one frame on course, whatever its table held before. */
  lemma AnswerOnCourse(w: Wiring, net: Net, l: Label, s: NodeId, d: NodeId) returns (g: Frame)
    requires Sane(w, net) && Backward(w, net, s) && s != d && Answers(net, l, s, d) && FreshStep(net, l)
    ensures SpreadAll(w, OutsOf(w, net, l)) == [g]
    ensures OnCourse(Next(w, net, l), s, g) && g.pkt.dst == d && g.pkt.rrepHop == 1 && g.pkt.rrepId == 1
    ensures s in Next(w, net, l).nodes[d].table
  {
    var net' := Next(w, net, l);
    SaneStep(w, net, l);
    BackwardStep(w, net, l, s);
    FreshEntry(w, net, l, s);
    g := SentOnCourse(w, net', s, d, ReplyAtDestination(net.flight[l.i].pkt));
  }

  /** What happens to other frames does not take a reply off course. */
  lemma StaysOnCourse(w: Wiring, net: Net, l: Label, s: NodeId, f: Frame)
    requires Enabled(net, l) && FreshStep(net, l) && OnCourse(net, s, f)
    ensures OnCourse(Next(w, net, l), s, f)
  {
    CloserStep(w, net, l, s);
  }

  /** A reply on course that has not arrived is forwarded as exactly one reply on course, strictly
      nearer to the source. */
  lemma ForwardedOnCourse(w: Wiring, net: Net, l: Label, s: NodeId) returns (g: Frame)
    requires Sane(w, net) && Backward(w, net, s) && Enabled(net, l) && FreshStep(net, l) && l.Deliver?
    requires var f := net.flight[l.i]; OnCourse(net, s, f) && f.to.node != s
    ensures var f := net.flight[l.i];
            var net' := Next(w, net, l);
            && !Dropped(f.pkt)
            && SpreadAll(w, OutsOf(w, net, l)) == [g]
            && g.pkt == ForwardedReply(f.pkt)
            && OnCourse(net', s, g)
            && Left(net', s, g.to.node) < Left(net, s, f.to.node)
  {
    var f := net.flight[l.i];
    var net' := Next(w, net, l);
    var n := f.to.node;
    SaneStep(w, net, l);
    BackwardStep(w, net, l, s);
    CloserStep(w, net, l, s);
    ProcessTable(n, IfacesOf(w, n), net.nodes[n], f.pkt, f.from.hw, f.to.ifNo, l.env);
    g := SentOnCourse(w, net', s, n, ForwardedReply(f.pkt));
  }

  /** A reply on course that arrives is accepted and leaves the source with a route. */
  lemma ArrivesOnCourse(w: Wiring, net: Net, l: Label, s: NodeId)
    requires Enabled(net, l) && l.Deliver?
    requires var f := net.flight[l.i]; OnCourse(net, s, f) && f.to.node == s
    ensures net.flight[l.i].pkt.dst in Next(w, net, l).nodes[s].table
  {
  }

  // ----- Whole runs -----

  /** A reply from `d` to `s` is on its way, or has been. */
  ghost predicate ReplyPendingOrDone(net: Net, s: NodeId, d: NodeId) {
    || (s in net.nodes && d in net.nodes[s].table)
    || exists f :: f in net.flight && f.pkt.dst == d && OnCourse(net, s, f)
  }

  /** No reply from `d` to `s` is lost in this step. */
  predicate KeepsReplies(net: Net, l: Label, s: NodeId, d: NodeId)
    requires Enabled(net, l)
  {
    l.Lose? ==> var p := net.flight[l.i].pkt; !(p.kind == Rrep && p.src == s && p.dst == d)
  }

  lemma PendingStep(w: Wiring, net: Net, l: Label, s: NodeId, d: NodeId)
    requires Sane(w, net) && Backward(w, net, s) && Enabled(net, l) && FreshStep(net, l) && KeepsReplies(net, l, s, d)
    requires ReplyPendingOrDone(net, s, d)
    ensures ReplyPendingOrDone(Next(w, net, l), s, d)
  {
    var net' := Next(w, net, l);
    if s in net.nodes && d in net.nodes[s].table {
      CloserStep(w, net, l, d);
    } else {
      var f :| f in net.flight && f.pkt.dst == d && OnCourse(net, s, f);
      StaysOnCourse(w, net, l, s, f);
      if l.Deliver? && f == net.flight[l.i] {
        if f.to.node == s {
          ArrivesOnCourse(w, net, l, s);
        } else {
          var g := ForwardedOnCourse(w, net, l, s);
          assert g in [g];
          assert g in net'.flight;
        }
      } else {
        FramesStay(w, net, l, f);
      }
    }
  }

  lemma {:induction false} PendingRun(w: Wiring, tr: seq<Net>, ls: seq<Label>, i: nat, j: nat, s: NodeId, d: NodeId)
    requires FreshRun(w, tr, ls) && Sane(w, tr[0]) && Backward(w, tr[0], s) && i <= j < |tr|
    requires forall m | i <= m < j :: KeepsReplies(tr[m], ls[m], s, d)
    requires ReplyPendingOrDone(tr[i], s, d)
    ensures ReplyPendingOrDone(tr[j], s, d)
    decreases j
  {
    hide Next, Sane, Backward, ReplyPendingOrDone;
    if i < j {
      PendingRun(w, tr, ls, i, j - 1, s, d);
      BackwardRun(w, tr, ls, j - 1, s);
      PendingStep(w, tr[j - 1], ls[j - 1], s, d);
    }
  }

  /** Reply delivery: once `d` has answered a request of `s` in a fresh run that loses none of the
      replies between them, then whenever none of them is in flight any more, `s` holds a route to
      `d` - whatever other discoveries, losses and reorderings go on around it. */
  lemma RepliesAreDelivered(w: Wiring, tr: seq<Net>, ls: seq<Label>, i: nat, j: nat, s: NodeId, d: NodeId)
    requires FreshRun(w, tr, ls) && SwitchedOn(w, tr[0]) && i < j < |tr| && s != d
    requires Answers(tr[i], ls[i], s, d)
    requires forall m | i <= m < j :: KeepsReplies(tr[m], ls[m], s, d)
    requires forall f | f in tr[j].flight :: !(f.pkt.kind == Rrep && f.pkt.src == s && f.pkt.dst == d)
    ensures s in tr[j].nodes && d in tr[j].nodes[s].table
  {
    SwitchedOnIsSound(w, tr[0]);
    BackwardRun(w, tr, ls, i, s);
    var g := AnswerOnCourse(w, tr[i], ls[i], s, d);
    assert g in [g];
    assert g in tr[i + 1].flight;
    PendingRun(w, tr, ls, i + 1, j, s, d);
  }
}
