/** Control traffic drains: without new client requests, only boundedly many requests and replies
    can ever be delivered, from any tables, stale or looping, in any order, with any losses. */
module Drain {
  import opened OdrTypes
  import opened TableSpec
  import opened NodeSpec
  import opened Network
  import opened Links
  import opened HopBounds

  predicate Control(p: Packet) {
    p.kind == Rreq || p.kind == Rrep
  }

  /** How many deliveries a searching request with hop count `h` can still cause, itself included,
      when a flood reaches at most `b` interfaces. */
  function SearchWeight(b: nat, h: int): nat
    decreases MAXH + 1 - h
  {
    if h > MAXH then 1 else 2 + MAXH + b * SearchWeight(b, h + 1)
  }

  /** The deliveries a packet can still cause: a flagged request causes none but its own, a reply
      one per hop it has left, and a payload is no control traffic. */
  function Weight(b: nat, p: Packet): nat {
    match p.kind
    case Rreq => if p.rrepSent == 1 then 1 else SearchWeight(b, p.rreqHop)
    case Rrep => if p.rrepHop > MAXH then 1 else MAXH + 2 - p.rrepHop
    case _ => 0
  }

  function Load(b: nat, fs: seq<Frame>): nat {
    if fs == [] then 0 else Weight(b, fs[0].pkt) + Load(b, fs[1..])
  }

  /** A bound on how many interfaces hear one flood. */
  function Fanout(w: Wiring): nat {
    |w| * |w|
  }

  lemma {:induction false} LoadConcat(b: nat, fs: seq<Frame>, gs: seq<Frame>)
    ensures Load(b, fs + gs) == Load(b, fs) + Load(b, gs)
  {
    if fs == [] {
      assert fs + gs == gs;
    } else {
      LoadConcat(b, fs[1..], gs);
      assert (fs + gs)[1..] == fs[1..] + gs;
    }
  }

  lemma LoadWithout(b: nat, fs: seq<Frame>, i: nat)
    requires i < |fs|
    ensures Load(b, fs) == Load(b, Without(fs, i)) + Weight(b, fs[i].pkt)
  {
    assert fs == fs[..i] + ([fs[i]] + fs[i + 1..]);
    LoadConcat(b, fs[..i], [fs[i]] + fs[i + 1..]);
    LoadConcat(b, fs[..i], fs[i + 1..]);
  }

  lemma {:induction false} LoadAtMost(b: nat, fs: seq<Frame>, x: nat)
    requires forall f | f in fs :: Weight(b, f.pkt) <= x
    ensures Load(b, fs) <= |fs| * x
  {
    if fs != [] {
      assert fs[0] in fs;
      LoadAtMost(b, fs[1..], x);
      assert |fs| * x == x + (|fs| - 1) * x;
    }
  }

  lemma {:induction false} SpreadSize(w: Wiring, o: Out)
    ensures |Spread(w, o)| <= |w|
  {
    if w != [] && !o.ToClient? {
      SpreadSize(w[1..], o);
    }
  }

  lemma {:induction false} SpreadAllSize(w: Wiring, outs: seq<Out>)
    ensures |SpreadAll(w, outs)| <= |outs| * |w|
  {
    if outs != [] {
      SpreadSize(w, outs[0]);
      SpreadAllSize(w, outs[1..]);
      assert |outs| * |w| == |w| + (|outs| - 1) * |w|;
    }
  }

  lemma SearchWeightPositive(b: nat, h: int)
    ensures SearchWeight(b, h) >= 1
  {
  }

  /** A flood weighs at most as much as every interface of the network hearing it everywhere. */
  lemma FloodLoad(w: Wiring, n: NodeId, p: Packet, except: int)
    requires WellWired(w)
    ensures Load(Fanout(w), SpreadAll(w, BroadcastAll(IfacesOf(w, n), p, except))) <= Fanout(w) * Weight(Fanout(w), p)
  {
    var b := Fanout(w);
    var outs := BroadcastAll(IfacesOf(w, n), p, except);
    var fs := SpreadAll(w, outs);
    IfacesOfDistinct(w, n);
    BroadcastCount(IfacesOf(w, n), p, except);
    BroadcastOuts(IfacesOf(w, n), p, except);
    SpreadAllSize(w, outs);
    SpreadAllIn(w, outs);
    LoadAtMost(b, fs, Weight(b, p));
    MulLe(|outs|, |w|, |w|);
    MulLe(|fs|, b, Weight(b, p));
  }

  lemma MulLe(x: nat, y: nat, z: nat)
    requires x <= y
    ensures x * z <= y * z
  {
  }

  /** Sending along a route weighs no more than the packet sent. */
  lemma TowardLoad(w: Wiring, n: NodeId, t: Table, key: NodeId, p: Packet)
    requires WellWired(w) && (key in t ==> Linked(w, n, t[key]))
    ensures Load(Fanout(w), SpreadAll(w, SendToward(IfacesOf(w, n), t, key, p))) <= Weight(Fanout(w), p)
  {
    if key in t {
      var f := SendOverLink(w, n, t, key, p);
      assert Load(Fanout(w), [f]) == Weight(Fanout(w), f.pkt) + Load(Fanout(w), []);
    }
  }

  /** What a delivery puts in flight weighs less than what it takes out, and a payload causes no
      control traffic. */
  lemma ReplyLoad(w: Wiring, n: NodeId, st: Node, p: Packet)
    requires WellWired(w) && p.kind == Rrep && !Dropped(p)
    requires forall k | k in st.table :: Linked(w, n, st.table[k]) && 1 <= st.table[k].hop <= MAXH
    ensures Load(Fanout(w), SpreadAll(w, OnReply(n, IfacesOf(w, n), st, p).1)) <= Weight(Fanout(w), p) - 1
  {
    TowardLoad(w, n, st.table, p.dst, FirstPayload(p, st.msg));
    TowardLoad(w, n, st.table, p.src, ForwardedReply(p));
  }

  lemma ReactionLoad(w: Wiring, net: Net, i: nat, env: Env)
    requires Sane(w, net) && HopsBounded(net) && Enabled(net, Deliver(i, env))
    ensures var b := Fanout(w);
            var p := net.flight[i].pkt;
            Load(b, SpreadAll(w, Reaction(w, net, i, env).1)) <= if Control(p) then Weight(b, p) - 1 else Weight(b, p)
  {
    var b := Fanout(w);
    var f := net.flight[i];
    var p := f.pkt;
    var n := f.to.node;
    var ifs := IfacesOf(w, n);
    SearchWeightPositive(b, p.rreqHop);
    if !Dropped(p) {
      var st := Heeded(net.nodes[n], p, f.from.hw, f.to.ifNo, env.now);
      HeededTable(w, net, i, env);
      hide Sane, HopsBounded, SearchWeight, OnRequest, OnReply, OnPayload;
      match p.kind {
        case Rreq => RequestLoad(w, n, st, p, f.to.ifNo);
        case Rrep => ReplyLoad(w, n, st, p);
        case Data => PayloadLoad(w, n, st, p, env.answer);
        case Unknown =>
      }
    }
  }

  /** The table that a reaction consults is the table it leaves behind. */
  lemma HeededTable(w: Wiring, net: Net, i: nat, env: Env)
    requires Sane(w, net) && HopsBounded(net) && Enabled(net, Deliver(i, env)) && !Dropped(net.flight[i].pkt)
    ensures var f := net.flight[i];
            var t := Heeded(net.nodes[f.to.node], f.pkt, f.from.hw, f.to.ifNo, env.now).table;
            forall k | k in t :: Linked(w, f.to.node, t[k]) && 1 <= t[k].hop <= MAXH
  {
    var f := net.flight[i];
    var l := Deliver(i, env);
    SaneStep(w, net, l);
    HopsBoundedStep(w, net, l);
    ProcessTable(f.to.node, IfacesOf(w, f.to.node), net.nodes[f.to.node], f.pkt, f.from.hw, f.to.ifNo, env);
    var t := Heeded(net.nodes[f.to.node], f.pkt, f.from.hw, f.to.ifNo, env.now).table;
    assert t == Next(w, net, l).nodes[f.to.node].table;
  }

  /** Replying and flooding the flagged request weighs less than flooding the search further. */
  lemma OfferLoad(w: Wiring, n: NodeId, t: Table, q: Packet)
    requires WellWired(w) && q.dst in t && Linked(w, n, t[q.dst]) && t[q.dst].hop >= 1
    ensures var reply := ReplyFromEntry(q, t[q.dst]);
            var outs := SendToward(IfacesOf(w, n), t, q.dst, reply)
                        + BroadcastAll(IfacesOf(w, n), FlaggedRequest(reply), ALL_INTERFACES);
            Load(Fanout(w), SpreadAll(w, outs)) <= MAXH + Fanout(w)
  {
    var b := Fanout(w);
    var reply := ReplyFromEntry(q, t[q.dst]);
    var along := SendToward(IfacesOf(w, n), t, q.dst, reply);
    var flood := BroadcastAll(IfacesOf(w, n), FlaggedRequest(reply), ALL_INTERFACES);
    SpreadAllConcat(w, along, flood);
    LoadConcat(b, SpreadAll(w, along), SpreadAll(w, flood));
    TowardLoad(w, n, t, q.dst, reply);
    FloodLoad(w, n, FlaggedRequest(reply), ALL_INTERFACES);
    OfferWeights(b, q, t[q.dst]);
  }

  lemma OfferWeights(b: nat, q: Packet, e: Entry)
    requires e.hop >= 1
    ensures Weight(b, FlaggedRequest(ReplyFromEntry(q, e))) == 1
    ensures Weight(b, ReplyFromEntry(q, e)) <= MAXH
  {
  }

  lemma RequestLoad(w: Wiring, n: NodeId, st: Node, p: Packet, recvIf: int)
    requires WellWired(w) && p.kind == Rreq && p.rreqHop <= MAXH
    requires forall k | k in st.table :: Linked(w, n, st.table[k]) && 1 <= st.table[k].hop <= MAXH
    ensures Load(Fanout(w), SpreadAll(w, OnRequest(n, IfacesOf(w, n), st, p, recvIf).1)) < Weight(Fanout(w), p)
  {
    var b := Fanout(w);
    SearchWeightPositive(b, p.rreqHop);
    if p.rrepSent != 1 {
      var q := p.(rreqHop := p.rreqHop + 1);
      SearchWeightPositive(b, q.rreqHop);
      MulLe(1, SearchWeight(b, q.rreqHop), b);
      assert Weight(b, p) == 2 + MAXH + b * SearchWeight(b, q.rreqHop) >= 2 + MAXH + b;
      if n == p.dst {
        TowardLoad(w, n, st.table, p.src, ReplyAtDestination(p));
      } else if Unseen(n, st, p) {
        if Floods(st, p) {
          FloodLoad(w, n, q, recvIf);
        } else {
          OfferLoad(w, n, st.table, q);
        }
      }
    }
  }

  lemma PayloadLoad(w: Wiring, n: NodeId, st: Node, p: Packet, answer: Option<string>)
    requires WellWired(w) && p.kind == Data
    requires forall k | k in st.table :: Linked(w, n, st.table[k])
    ensures Load(Fanout(w), SpreadAll(w, OnPayload(n, IfacesOf(w, n), st, p, answer).1)) == 0
  {
    if n == p.src {
      assert SpreadAll(w, [ToClient(p.payload, p.dst)]) == Spread(w, ToClient(p.payload, p.dst)) + SpreadAll(w, []);
    } else if n == p.dst {
      if answer.Some? {
        TowardLoad(w, n, st.table, p.src, p.(srcDest := -1, payload := answer.value));
      }
    } else {
      TowardLoad(w, n, st.table, p.src, p);
      TowardLoad(w, n, st.table, p.dst, p);
    }
  }

  // ----- Whole runs -----

  predicate ControlDelivery(net: Net, l: Label) {
    l.Deliver? && l.i < |net.flight| && Control(net.flight[l.i].pkt)
  }

  ghost function ControlDeliveries(tr: seq<Net>, ls: seq<Label>): nat
    requires |tr| == |ls| + 1
  {
    if ls == [] then 0
    else (if ControlDelivery(tr[0], ls[0]) then 1 else 0) + ControlDeliveries(tr[1..], ls[1..])
  }

  /** However a run without client requests goes, the requests and replies delivered in it are no
      more than the load in flight at its start.  The load depends on the frames in flight and the
      wiring only. */
  lemma {:induction false} ControlDrains(w: Wiring, tr: seq<Net>, ls: seq<Label>)
    requires Run(w, tr, ls) && forall i | 0 <= i < |ls| :: !ls[i].Ask?
    requires Sane(w, tr[0]) && HopsBounded(tr[0])
    ensures ControlDeliveries(tr, ls) + Load(Fanout(w), tr[|tr| - 1].flight) <= Load(Fanout(w), tr[0].flight)
  {
    if ls != [] {
      var b := Fanout(w);
      var net := tr[0];
      var l := ls[0];
      assert tr[1] == Next(w, net, l);
      SaneStep(w, net, l);
      HopsBoundedStep(w, net, l);
      LoadWithout(b, net.flight, l.i);
      if l.Deliver? {
        ReactionLoad(w, net, l.i, l.env);
        LoadConcat(b, Without(net.flight, l.i), SpreadAll(w, Reaction(w, net, l.i, l.env).1));
      }
      assert Run(w, tr[1..], ls[1..]);
      ControlDrains(w, tr[1..], ls[1..]);
    }
  }
}
