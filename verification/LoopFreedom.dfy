/** Loop freedom: in every run in which nothing goes stale and only requests and replies rewrite
    tables, next hops lead strictly downhill, whatever is lost, reordered or forced. */
module LoopFreedom {
  import opened OdrTypes
  import opened TableSpec
  import opened NodeSpec
  import opened Network
  import opened Links

  /** A step at which the receiver's table holds nothing stale, and a payload leaves it alone. */
  predicate FreshStep(net: Net, l: Label)
    requires Enabled(net, l)
  {
    l.Deliver? ==>
      var f := net.flight[l.i];
      var st := net.nodes[f.to.node];
      && NoneStale(st.table, l.env.now, st.sp)
      && (f.pkt.kind == Data && !Dropped(f.pkt) ==>
            Updated(st.table, f.pkt, f.from.hw, f.to.ifNo, l.env.now, st.sp) == st.table)
  }

  ghost predicate FreshRun(w: Wiring, tr: seq<Net>, ls: seq<Label>) {
    Run(w, tr, ls) && forall i | 0 <= i < |ls| :: FreshStep(tr[i], ls[i])
  }

  /** `m` is entitled to announce `k` at `h` hops: it is `k` itself, or knows a shorter route. */
  predicate Backed(net: Net, m: NodeId, k: NodeId, h: int) {
    && m in net.nodes
    && h >= 1
    && (m == k || (k in net.nodes[m].table && net.nodes[m].table[k].hop < h))
  }

  /** What a frame in flight announces about `k`, its sender is entitled to announce. */
  predicate FrameBacked(net: Net, k: NodeId, f: Frame) {
    && (f.pkt.kind == Rreq && f.pkt.src == k ==> Backed(net, f.from.node, k, f.pkt.rreqHop))
    && (f.pkt.kind == Rrep && f.pkt.dst == k ==> Backed(net, f.from.node, k, f.pkt.rrepHop))
  }

  /** Each entry for `k` is backed by the neighbour it names. */
  ghost predicate Backward(w: Wiring, net: Net, k: NodeId) {
    && (forall n | n in net.nodes && k in net.nodes[n].table ::
          var e := net.nodes[n].table[k]; e.hop >= 1 && Backed(net, Owner(w, e.hw), k, e.hop))
    && (forall f | f in net.flight :: FrameBacked(net, k, f))
  }

  /** Entries for `k` persist, at no greater distance. */
  ghost predicate Closer(net: Net, net': Net, k: NodeId) {
    forall n | n in net.nodes ::
      && n in net'.nodes
      && (k in net.nodes[n].table ==>
            k in net'.nodes[n].table && net'.nodes[n].table[k].hop <= net.nodes[n].table[k].hop)
  }

  lemma CloserStep(w: Wiring, net: Net, l: Label, k: NodeId)
    requires Enabled(net, l) && FreshStep(net, l)
    ensures Closer(net, Next(w, net, l), k)
  {
    if l.Deliver? {
      var f := net.flight[l.i];
      ProcessTable(f.to.node, IfacesOf(w, f.to.node), net.nodes[f.to.node], f.pkt, f.from.hw, f.to.ifNo, l.env);
    }
  }

  /** What a fresh delivery does to the receiver's entry for `k`. */
  lemma FreshEntry(w: Wiring, net: Net, l: Label, k: NodeId)
    requires Enabled(net, l) && FreshStep(net, l) && l.Deliver?
    ensures var f := net.flight[l.i];
            var t := net.nodes[f.to.node].table;
            var t' := Next(w, net, l).nodes[f.to.node].table;
            var h := if f.pkt.kind == Rreq then f.pkt.rreqHop else f.pkt.rrepHop;
            if !Dropped(f.pkt) && ((f.pkt.kind == Rreq && f.pkt.src == k) || (f.pkt.kind == Rrep && f.pkt.dst == k)) then
              && k in t'
              && if k in t && t[k].hop <= h then t'[k] == t[k] else t'[k].hop == h && t'[k].hw == f.from.hw && t'[k].ifNo == f.to.ifNo
            else
              (k in t' <==> k in t) && (k in t ==> t'[k] == t[k])
  {
    var f := net.flight[l.i];
    ProcessTable(f.to.node, IfacesOf(w, f.to.node), net.nodes[f.to.node], f.pkt, f.from.hw, f.to.ifNo, l.env);
  }

  /** What an output announces about `k`: a request for which `k` asks goes on one hop longer (two, when
      flagged); a reply about `k` is `k`'s own, or made from the entry for `k`, or passed on. */
  lemma OutAnnounces(self: NodeId, ifs: seq<Iface>, st: Node, p: Packet, hw: Hw, recvIf: int, env: Env, o: Out, k: NodeId)
    requires o in Process(self, ifs, st, p, hw, recvIf, env).1 && !o.ToClient?
    ensures !Dropped(p)
    ensures o.pkt.kind == Rreq && o.pkt.src == k ==> p.kind == Rreq && p.src == k && o.pkt.rreqHop > p.rreqHop
    ensures o.pkt.kind == Rrep && o.pkt.dst == k ==>
              var t := Heeded(st, p, hw, recvIf, env.now).table;
              || (self == k && o.pkt.rrepHop == 1)
              || (k in t && o.pkt.rrepHop == t[k].hop + 1)
              || (p.kind == Rrep && p.dst == k && self != p.src && p.src in t && o.pkt == ForwardedReply(p))
  {
    ProcessOuts(self, ifs, st, p, hw, recvIf, env, o);
  }

  /** A new output announces no more than the acting node is entitled to. */
  lemma OutBacked(w: Wiring, net: Net, l: Label, k: NodeId, f: Frame)
    requires Sane(w, net) && Backward(w, net, k) && Enabled(net, l) && FreshStep(net, l)
    requires exists o :: o in OutsOf(w, net, l) && Carries(w, o, f)
    ensures FrameBacked(Next(w, net, l), k, f)
  {
    hide Act;
    var o :| o in OutsOf(w, net, l) && Carries(w, o, f);
    OutsVia(w, net, l, o);
    var n := Actor(net, l);
    var st := net.nodes[n];
    var ifs := IfacesOf(w, n);
    CloserStep(w, net, l, k);
    if l.Deliver? {
      var g := net.flight[l.i];
      assert FrameBacked(net, k, g);
      FreshEntry(w, net, l, k);
      ProcessTable(n, ifs, st, g.pkt, g.from.hw, g.to.ifNo, l.env);
      OutAnnounces(n, ifs, st, g.pkt, g.from.hw, g.to.ifNo, l.env, o, k);
    } else {
      RequestOuts(n, ifs, st, l.dst, l.forced, l.msg, o);
    }
  }

  lemma BackwardStep(w: Wiring, net: Net, l: Label, k: NodeId)
    requires Sane(w, net) && Backward(w, net, k) && Enabled(net, l) && FreshStep(net, l)
    ensures Backward(w, Next(w, net, l), k)
  {
    var net' := Next(w, net, l);
    CloserStep(w, net, l, k);
    forall n | n in net'.nodes && k in net'.nodes[n].table
      ensures var e := net'.nodes[n].table[k]; e.hop >= 1 && Backed(net', Owner(w, e.hw), k, e.hop)
    {
      if l.Deliver? && n == net.flight[l.i].to.node {
        var f := net.flight[l.i];
        FreshEntry(w, net, l, k);
        assert FrameBacked(net, k, f) && RealFrame(w, f);
        OwnerOf(w, f.from);
      } else {
        assert net'.nodes[n].table == net.nodes[n].table;
      }
    }
    forall f | f in net'.flight ensures FrameBacked(net', k, f) {
      FramesAfter(w, net, l, f);
      if f in net.flight {
        assert FrameBacked(net, k, f);
      } else {
        OutBacked(w, net, l, k, f);
      }
    }
  }

  lemma {:induction false} BackwardRun(w: Wiring, tr: seq<Net>, ls: seq<Label>, i: nat, k: NodeId)
    requires FreshRun(w, tr, ls) && Sane(w, tr[0]) && Backward(w, tr[0], k) && i < |tr|
    ensures Sane(w, tr[i]) && Backward(w, tr[i], k)
  {
    hide Next, Sane, Backward;
    if i > 0 {
      BackwardRun(w, tr, ls, i - 1, k);
      SaneStep(w, tr[i - 1], ls[i - 1]);
      BackwardStep(w, tr[i - 1], ls[i - 1], k);
    }
  }

  lemma SwitchedOnIsSound(w: Wiring, net: Net)
    requires SwitchedOn(w, net)
    ensures Sane(w, net) && forall k :: Backward(w, net, k)
  {
  }

  // ----- Following next hops -----

  /** Two nodes with interfaces on a common segment. */
  ghost predicate Adjacent(w: Wiring, m: NodeId, n: NodeId) {
    exists p, q :: p in w && q in w && p.node == m && q.node == n && Joined(p, q)
  }

  ghost predicate Walk(w: Wiring, path: seq<NodeId>) {
    path != [] && forall i | 0 <= i < |path| - 1 :: Adjacent(w, path[i], path[i + 1])
  }

  /** The neighbour that `n`'s entry for `k` names. */
  function NextHop(w: Wiring, net: Net, n: NodeId, k: NodeId): NodeId
    requires n in net.nodes && k in net.nodes[n].table
  {
    Owner(w, net.nodes[n].table[k].hw)
  }

  /** The nodes met by following next hops toward `k`, until `k` or a node without a route. */
  ghost function Chain(w: Wiring, net: Net, n: NodeId, k: NodeId): seq<NodeId>
    requires Backward(w, net, k) && n in net.nodes
    decreases if n == k then 0 else if k in net.nodes[n].table then net.nodes[n].table[k].hop + 1 else 0
  {
    if n == k || k !in net.nodes[n].table then [n] else [n] + Chain(w, net, NextHop(w, net, n, k), k)
  }

  lemma LinkedIsAdjacent(w: Wiring, n: NodeId, e: Entry)
    requires WellWired(w) && Linked(w, n, e)
    ensures Adjacent(w, n, Owner(w, e.hw))
  {
    var p, q :| LinkedBy(w, n, e, p, q);
    OwnerOf(w, q);
  }

  /** Following next hops from a node that holds `k` is a walk over real links that ends at `k`
      after at most the recorded number of hops, with every node before `k` holding a route. */
  lemma {:induction false} ChainReaches(w: Wiring, net: Net, n: NodeId, k: NodeId)
    requires Sane(w, net) && Backward(w, net, k)
    requires n in net.nodes && k in net.nodes[n].table && n != k
    ensures var c := Chain(w, net, n, k);
            && Walk(w, c) && c[0] == n && c[|c| - 1] == k
            && 2 <= |c| <= net.nodes[n].table[k].hop + 1
            && (forall i | 0 <= i < |c| - 1 :: c[i] != k && c[i] in net.nodes && k in net.nodes[c[i]].table)
    decreases net.nodes[n].table[k].hop
  {
    var e := net.nodes[n].table[k];
    var m := NextHop(w, net, n, k);
    LinkedIsAdjacent(w, n, e);
    assert Backed(net, m, k, e.hop);
    hide Sane, Backward, Adjacent, Owner;
    if m == k {
      assert Chain(w, net, m, k) == [k];
      WalkExtends(w, n, [k]);
    } else {
      ChainReaches(w, net, m, k);
      WalkExtends(w, n, Chain(w, net, m, k));
    }
  }

  lemma WalkExtends(w: Wiring, n: NodeId, path: seq<NodeId>)
    requires Walk(w, path) && Adjacent(w, n, path[0])
    ensures Walk(w, [n] + path)
    ensures forall i | 0 < i < |[n] + path| :: ([n] + path)[i] == path[i - 1]
  {
    forall i | 0 <= i < |[n] + path| - 1 ensures Adjacent(w, ([n] + path)[i], ([n] + path)[i + 1]) {
      if i > 0 {
        assert ([n] + path)[i] == path[i - 1] && ([n] + path)[i + 1] == path[i];
      }
    }
  }

  /** Hop counts fall strictly along a chain, so no node occurs twice on it. */
  lemma {:induction false} ChainFalls(w: Wiring, net: Net, n: NodeId, k: NodeId, i: nat)
    requires Sane(w, net) && Backward(w, net, k)
    requires n in net.nodes && k in net.nodes[n].table && n != k
    requires 0 < i < |Chain(w, net, n, k)|
    ensures var m := Chain(w, net, n, k)[i];
            m == k || (m in net.nodes && k in net.nodes[m].table && net.nodes[m].table[k].hop < net.nodes[n].table[k].hop)
    decreases net.nodes[n].table[k].hop
  {
    var m := NextHop(w, net, n, k);
    assert Backed(net, m, k, net.nodes[n].table[k].hop);
    if m != k && i > 1 {
      ChainFalls(w, net, m, k, i - 1);
    }
  }

  lemma {:induction false} ChainHasNoRepeats(w: Wiring, net: Net, n: NodeId, k: NodeId, i: nat, j: nat)
    requires Sane(w, net) && Backward(w, net, k)
    requires n in net.nodes && k in net.nodes[n].table && n != k
    requires i < j < |Chain(w, net, n, k)|
    ensures Chain(w, net, n, k)[i] != Chain(w, net, n, k)[j]
    decreases net.nodes[n].table[k].hop
  {
    var m := NextHop(w, net, n, k);
    assert Backed(net, m, k, net.nodes[n].table[k].hop);
    assert Chain(w, net, n, k) == [n] + Chain(w, net, m, k);
    hide Sane, Backward, Owner, Chain;
    if i == 0 {
      ChainFalls(w, net, n, k, j);
    } else if m != k {
      ChainHasNoRepeats(w, net, m, k, i - 1, j - 1);
    }
  }

  /** Loop freedom, from switching on: at every moment of every fresh run, a node's chain toward any
      key it holds reaches that key over real links, within the recorded hop count, and without
      meeting any node twice. */
  lemma LoopFree(w: Wiring, tr: seq<Net>, ls: seq<Label>, i: nat, n: NodeId, k: NodeId)
    requires FreshRun(w, tr, ls) && SwitchedOn(w, tr[0]) && i < |tr|
    requires n in tr[i].nodes && k in tr[i].nodes[n].table && n != k
    ensures Sane(w, tr[i]) && Backward(w, tr[i], k)
    ensures var c := Chain(w, tr[i], n, k);
            && Walk(w, c) && c[0] == n && c[|c| - 1] == k && |c| - 1 <= tr[i].nodes[n].table[k].hop
            && forall a, b | 0 <= a < b < |c| :: c[a] != c[b]
  {
    SwitchedOnIsSound(w, tr[0]);
    BackwardRun(w, tr, ls, i, k);
    ChainReaches(w, tr[i], n, k);
    forall a, b | 0 <= a < b < |Chain(w, tr[i], n, k)|
      ensures Chain(w, tr[i], n, k)[a] != Chain(w, tr[i], n, k)[b]
    {
      ChainHasNoRepeats(w, tr[i], n, k, a, b);
    }
  }

  /** `h` is the length of a shortest walk from `n` to `k`. */
  ghost predicate Distance(w: Wiring, n: NodeId, k: NodeId, h: nat) {
    && (exists path :: Walk(w, path) && path[0] == n && path[|path| - 1] == k && |path| == h + 1)
    && (forall path | Walk(w, path) && path[0] == n && path[|path| - 1] == k :: |path| >= h + 1)
  }

  /** A recorded hop count is never below the true distance. */
  lemma HopsAreUpperBounds(w: Wiring, tr: seq<Net>, ls: seq<Label>, i: nat, n: NodeId, k: NodeId, h: nat)
    requires FreshRun(w, tr, ls) && SwitchedOn(w, tr[0]) && i < |tr|
    requires n in tr[i].nodes && k in tr[i].nodes[n].table && n != k
    requires Distance(w, n, k, h)
    ensures h <= tr[i].nodes[n].table[k].hop
  {
    LoopFree(w, tr, ls, i, n, k);
  }
}
