/** Payloads and their answers travel along the tables to the other end and back. */
module PayloadDelivery {
  import opened OdrTypes
  import opened TableSpec
  import opened NodeSpec
  import opened Network
  import opened Links
  import opened LoopFreedom

  /** What delivering payload `f` puts in flight while tables stay as they are. */
  function PayloadHop(w: Wiring, net: Net, f: Frame, answer: Option<string>): seq<Frame>
    requires f.to.node in net.nodes
  {
    SpreadAll(w, OnPayload(f.to.node, IfacesOf(w, f.to.node), net.nodes[f.to.node], f.pkt, answer).1)
  }

  /** Each frame of `fs` is the one and only frame that the delivery of the one before it causes. */
  ghost predicate Course(w: Wiring, net: Net, fs: seq<Frame>, answer: Option<string>) {
    && fs != []
    && (forall f | f in fs :: f.to.node in net.nodes)
    && forall i | 0 <= i < |fs| - 1 :: PayloadHop(w, net, fs[i], answer) == [fs[i + 1]]
  }

  /** `p` is on its way to `k`, its destination or (as an answer) its source; `other` is its other end. */
  predicate Bound(p: Packet, k: NodeId, other: NodeId) {
    && p.kind == Data && k != other
    && ((p.srcDest == 1 && p.dst == k && p.src == other) || (p.srcDest == -1 && p.src == k && p.dst == other))
  }

  /** A payload sent toward `k` by `n` is passed on unchanged, one frame at a time, by nodes that all
      hold `k` and of which none is the other end, and gets to `k` within `n`'s recorded hops. */
  lemma {:induction false} Travels(w: Wiring, net: Net, n: NodeId, k: NodeId, other: NodeId, p: Packet, answer: Option<string>)
    returns (fs: seq<Frame>)
    requires Sane(w, net) && Backward(w, net, k) && Bound(p, k, other)
    requires n in net.nodes && n != k && k in net.nodes[n].table
    requires other in net.nodes && k in net.nodes[other].table
    requires net.nodes[n].table[k].hop <= net.nodes[other].table[k].hop
    ensures fs != [] && SpreadAll(w, SendToward(IfacesOf(w, n), net.nodes[n].table, k, p)) == [fs[0]]
    ensures Course(w, net, fs, answer)
    ensures |fs| <= net.nodes[n].table[k].hop && fs[|fs| - 1].to.node == k
    ensures forall i | 0 <= i < |fs| :: fs[i].pkt == p && fs[i].to.node != other
    ensures forall i | 0 <= i < |fs| - 1 :: fs[i].to.node != k && k in net.nodes[fs[i].to.node].table
    decreases net.nodes[n].table[k].hop
  {
    hide SendToward, SpreadAll, IfacesOf;
    var f := SendOverLink(w, n, net.nodes[n].table, k, p);
    var m := f.to.node;
    assert Backed(net, m, k, net.nodes[n].table[k].hop);
    if m == k {
      fs := [f];
    } else {
      var rest := Travels(w, net, m, k, other, p, answer);
      fs := [f] + rest;
      CourseExtends(w, net, f, rest, answer);
      assert forall i | 0 < i < |fs| :: fs[i] == rest[i - 1];
    }
  }

  lemma CourseExtends(w: Wiring, net: Net, f: Frame, fs: seq<Frame>, answer: Option<string>)
    requires Course(w, net, fs, answer) && f.to.node in net.nodes && PayloadHop(w, net, f, answer) == [fs[0]]
    ensures Course(w, net, [f] + fs, answer)
  {
    forall i | 0 <= i < |[f] + fs| - 1 ensures PayloadHop(w, net, ([f] + fs)[i], answer) == [([f] + fs)[i + 1]] {
      if i > 0 {
        assert ([f] + fs)[i] == fs[i - 1] && ([f] + fs)[i + 1] == fs[i];
      }
    }
  }

  /** The round trip: in a state in which `s` and `d` hold each other, the payload that `s` sends
      reaches `d` within `s`'s hop count, `d`'s answer reaches `s` within `d`'s hop count, and what
      the client is handed is the answer. */
  lemma RoundTrip(w: Wiring, net: Net, s: NodeId, d: NodeId, p: Packet, text: string)
    returns (there: seq<Frame>, back: seq<Frame>)
    requires Sane(w, net) && Backward(w, net, s) && Backward(w, net, d)
    requires s != d && s in net.nodes && d in net.nodes && d in net.nodes[s].table && s in net.nodes[d].table
    requires p.kind == Data && p.srcDest == 1 && p.src == s && p.dst == d
    ensures there != [] && back != []
    ensures SpreadAll(w, SendToward(IfacesOf(w, s), net.nodes[s].table, d, p)) == [there[0]]
    ensures Course(w, net, there + back, Some(text))
    ensures |there| <= net.nodes[s].table[d].hop && |back| <= net.nodes[d].table[s].hop
    ensures there[|there| - 1].to.node == d && forall i | 0 <= i < |there| :: there[i].pkt == p && there[i].to.node != s
    ensures back[|back| - 1].to.node == s && forall i | 0 <= i < |back| :: back[i].pkt == p.(srcDest := -1, payload := text) && back[i].to.node != d
    ensures PayloadHop(w, net, back[|back| - 1], Some(text)) == []
    ensures OnPayload(s, IfacesOf(w, s), net.nodes[s], back[|back| - 1].pkt, Some(text)).1 == [ToClient(text, d)]
  {
    hide SpreadAll, SendToward, PayloadHop;
    var reply := p.(srcDest := -1, payload := text);
    there := Travels(w, net, s, d, s, p, Some(text));
    back := Travels(w, net, d, s, d, reply, Some(text));
    TurnsRound(w, net, s, d, there[|there| - 1], text);
    CoursesJoin(w, net, there, back, Some(text));
    AnswerIsHandedOver(w, net, s, d, back[|back| - 1], text);
  }

  lemma CoursesJoin(w: Wiring, net: Net, fs: seq<Frame>, gs: seq<Frame>, answer: Option<string>)
    requires Course(w, net, fs, answer) && Course(w, net, gs, answer)
    requires PayloadHop(w, net, fs[|fs| - 1], answer) == [gs[0]]
    ensures Course(w, net, fs + gs, answer)
  {
    hide PayloadHop;
    var all := fs + gs;
    forall i | 0 <= i < |all| - 1 ensures PayloadHop(w, net, all[i], answer) == [all[i + 1]] {
      if i >= |fs| {
        assert all[i] == gs[i - |fs|] && all[i + 1] == gs[i + 1 - |fs|];
      }
    }
  }

  /** The destination of a payload sends its answer toward the source. */
  lemma TurnsRound(w: Wiring, net: Net, s: NodeId, d: NodeId, f: Frame, text: string)
    requires d in net.nodes && f.to.node == d && Bound(f.pkt, d, s) && f.pkt.srcDest == 1
    ensures PayloadHop(w, net, f, Some(text))
            == SpreadAll(w, SendToward(IfacesOf(w, d), net.nodes[d].table, s, f.pkt.(srcDest := -1, payload := text)))
  {
  }

  /** An answer that is back is handed to the client, and nothing more is sent. */
  lemma AnswerIsHandedOver(w: Wiring, net: Net, s: NodeId, d: NodeId, f: Frame, text: string)
    requires s in net.nodes && f.to.node == s && Bound(f.pkt, s, d) && f.pkt.srcDest == -1 && f.pkt.payload == text
    ensures OnPayload(s, IfacesOf(w, s), net.nodes[s], f.pkt, Some(text)).1 == [ToClient(text, d)]
    ensures PayloadHop(w, net, f, Some(text)) == []
  {
    assert SpreadAll(w, [ToClient(text, d)]) == Spread(w, ToClient(text, d)) + SpreadAll(w, []);
  }

  // ----- The same, as a run of the network -----

  /** Delivering a payload that leaves the receiver's table alone changes no node at all. */
  lemma PayloadStep(w: Wiring, net: Net, l: Label)
    requires Enabled(net, l) && l.Deliver? && FreshStep(net, l)
    requires net.flight[l.i].pkt.kind == Data && !Dropped(net.flight[l.i].pkt)
    ensures Next(w, net, l).nodes == net.nodes
    ensures Next(w, net, l).flight == Without(net.flight, l.i) + PayloadHop(w, net, net.flight[l.i], l.env.answer)
  {
    var f := net.flight[l.i];
    var st := net.nodes[f.to.node];
    assert Heeded(st, f.pkt, f.from.hw, f.to.ifNo, l.env.now) == st;
  }

  /** A run that delivers whatever payload is first in flight, the server answering with `text`. */
  ghost predicate PayloadRun(w: Wiring, tr: seq<Net>, ls: seq<Label>, text: string) {
    FreshRun(w, tr, ls) && forall i | 0 <= i < |ls| :: ls[i].Deliver? && ls[i].i == 0 && ls[i].env.answer == Some(text)
  }

  lemma {:induction false} FollowsCourse(w: Wiring, tr: seq<Net>, ls: seq<Label>, text: string, fs: seq<Frame>, i: nat)
    requires PayloadRun(w, tr, ls, text) && Course(w, tr[0], fs, Some(text)) && tr[0].flight == [fs[0]]
    requires forall f | f in fs :: f.pkt.kind == Data && !Dropped(f.pkt)
    requires i < |fs| && i < |tr|
    ensures tr[i].nodes == tr[0].nodes && tr[i].flight == [fs[i]]
  {
    if i > 0 {
      FollowsCourse(w, tr, ls, text, fs, i - 1);
      assert fs[i - 1] in fs;
      PayloadStep(w, tr[i - 1], ls[i - 1]);
      assert PayloadHop(w, tr[0], fs[i - 1], Some(text)) == [fs[i]];
    }
  }

  /** A payload alone in flight, just sent by `s`, in a run that keeps every table as it is: after
      some number of deliveries, at most the two recorded hop counts together, nothing is in flight
      and the last delivery has handed the server's answer to the client of `s`. */
  lemma AnsweredWithinHops(w: Wiring, tr: seq<Net>, ls: seq<Label>, s: NodeId, d: NodeId, p: Packet, text: string)
    returns (last: nat)
    requires PayloadRun(w, tr, ls, text)
    requires Sane(w, tr[0]) && Backward(w, tr[0], s) && Backward(w, tr[0], d)
    requires s != d && s in tr[0].nodes && d in tr[0].nodes
    requires d in tr[0].nodes[s].table && s in tr[0].nodes[d].table
    requires p.kind == Data && p.srcDest == 1 && p.src == s && p.dst == d && !Dropped(p)
    requires tr[0].flight == SpreadAll(w, SendToward(IfacesOf(w, s), tr[0].nodes[s].table, d, p))
    requires |ls| >= tr[0].nodes[s].table[d].hop + tr[0].nodes[d].table[s].hop
    ensures 1 < last <= tr[0].nodes[s].table[d].hop + tr[0].nodes[d].table[s].hop
    ensures tr[last].flight == [] && tr[last].nodes == tr[0].nodes
    ensures OutsOf(w, tr[last - 1], ls[last - 1]) == [ToClient(text, d)]
  {
    hide SpreadAll, OnPayload;
    var there, back := RoundTrip(w, tr[0], s, d, p, text);
    var fs := there + back;
    last := |fs|;
    FollowsCourse(w, tr, ls, text, fs, last - 1);
    var g := fs[last - 1];
    assert g == back[|back| - 1];
    PayloadStep(w, tr[last - 1], ls[last - 1]);
    assert tr[last].flight == Without([g], 0) + [];
  }
}
