/** Nodes on shared segments, the frames in flight between them, and runs.

    Any frame in flight may be delivered next or lost, at any time; the position of a frame in
    `flight` means nothing. */
module Network {
  import opened OdrTypes
  import opened TableSpec
  import opened NodeSpec

  /** All interfaces of the network, in the order in which each node lists its own. */
  type Wiring = seq<Iface>

  datatype Frame = Frame(from: Iface, to: Iface, pkt: Packet)

  datatype Net = Net(nodes: map<NodeId, Node>, flight: seq<Frame>)

  datatype Label =
    | Deliver(i: nat, env: Env)
    | Lose(i: nat)
    | Ask(n: NodeId, dst: NodeId, forced: int, msg: string)

  predicate WellWired(w: Wiring) {
    && (forall i, j | 0 <= i < j < |w| :: w[i].hw != w[j].hw)
    && (forall i, j | 0 <= i < j < |w| && w[i].node == w[j].node :: w[i].ifNo != w[j].ifNo)
    && (forall f | f in w :: f.ifNo > 0)
  }

  /** Two interfaces on the same segment. */
  predicate Joined(p: Iface, q: Iface) {
    p.seg == q.seg && p != q
  }

  /** The interfaces of one node. */
  function IfacesOf(w: Wiring, n: NodeId): seq<Iface> {
    if w == [] then [] else (if w[0].node == n then [w[0]] else []) + IfacesOf(w[1..], n)
  }

  /** The node an address belongs to (-1 when it belongs to none). */
  function Owner(w: Wiring, hw: Hw): NodeId {
    if w == [] then -1 else if w[0].hw == hw then w[0].node else Owner(w[1..], hw)
  }

  predicate Hears(q: Iface, o: Out) {
    match o
    case Broadcast(via, _) => Joined(via, q)
    case Unicast(via, to, _) => Joined(via, q) && q.hw == to
    case ToClient(_, _) => false
  }

  /** The frames that put `o` on its segment: one for every interface that hears it. */
  function Spread(w: Wiring, o: Out): seq<Frame> {
    if w == [] || o.ToClient? then []
    else (if Hears(w[0], o) then [Frame(o.via, w[0], o.pkt)] else []) + Spread(w[1..], o)
  }

  function SpreadAll(w: Wiring, outs: seq<Out>): seq<Frame> {
    if outs == [] then [] else Spread(w, outs[0]) + SpreadAll(w, outs[1..])
  }

  // ----- Steps -----

  function Without(s: seq<Frame>, i: nat): seq<Frame>
    requires i < |s|
  {
    s[..i] + s[i + 1..]
  }

  predicate Enabled(net: Net, l: Label) {
    match l
    case Deliver(i, _) => i < |net.flight| && net.flight[i].to.node in net.nodes
    case Lose(i) => i < |net.flight|
    case Ask(n, _, _, _) => n in net.nodes
  }

  /** What the receiver of frame `i` does with it. */
  function Reaction(w: Wiring, net: Net, i: nat, env: Env): (Node, seq<Out>)
    requires Enabled(net, Deliver(i, env))
  {
    var f := net.flight[i];
    Process(f.to.node, IfacesOf(w, f.to.node), net.nodes[f.to.node], f.pkt, f.from.hw, f.to.ifNo, env)
  }

  function Next(w: Wiring, net: Net, l: Label): Net
    requires Enabled(net, l)
  {
    match l
    case Deliver(i, env) =>
      var (st, outs) := Reaction(w, net, i, env);
      Net(net.nodes[net.flight[i].to.node := st], Without(net.flight, i) + SpreadAll(w, outs))
    case Lose(i) => net.(flight := Without(net.flight, i))
    case Ask(n, dst, forced, msg) =>
      var (st, outs) := Request(n, IfacesOf(w, n), net.nodes[n], dst, forced, msg);
      Net(net.nodes[n := st], net.flight + SpreadAll(w, outs))
  }

  /** `tr` is a run: each state follows from the one before by the step that `ls` names. */
  ghost predicate Run(w: Wiring, tr: seq<Net>, ls: seq<Label>) {
    && |tr| == |ls| + 1
    && forall i | 0 <= i < |ls| :: Enabled(tr[i], ls[i]) && tr[i + 1] == Next(w, tr[i], ls[i])
  }

  /** A network that has just been switched on: every daemon just started, nothing in flight. */
  ghost predicate SwitchedOn(w: Wiring, net: Net) {
    && WellWired(w)
    && (forall p | p in w :: p.node in net.nodes)
    && net.flight == []
    && (forall n | n in net.nodes :: JustStarted(net.nodes[n]))
  }

  // ----- Membership -----

  lemma {:induction false} IfacesOfIn(w: Wiring, n: NodeId)
    ensures forall f :: f in IfacesOf(w, n) <==> f in w && f.node == n
  {
    if w != [] {
      IfacesOfIn(w[1..], n);
      assert w == [w[0]] + w[1..];
    }
  }

  lemma TailIsWired(w: Wiring)
    requires WellWired(w) && w != []
    ensures WellWired(w[1..]) && forall f | f in w[1..] :: f in w && f != w[0]
  {
    forall f | f in w[1..] ensures f in w && f != w[0] {
      var i :| 0 <= i < |w[1..]| && w[1..][i] == f;
      assert f == w[i + 1];
    }
  }

  lemma {:induction false} IfacesOfDistinct(w: Wiring, n: NodeId)
    requires WellWired(w)
    ensures DistinctIndexes(IfacesOf(w, n))
    ensures |IfacesOf(w, n)| <= |w|
  {
    if w != [] {
      TailIsWired(w);
      IfacesOfDistinct(w[1..], n);
      IfacesOfIn(w[1..], n);
    }
  }

  lemma {:induction false} OwnerOf(w: Wiring, p: Iface)
    requires WellWired(w) && p in w
    ensures Owner(w, p.hw) == p.node
  {
    if w[0] != p {
      TailIsWired(w);
      OwnerOf(w[1..], p);
    }
  }

  lemma {:induction false} SpreadIn(w: Wiring, o: Out)
    ensures forall f :: f in Spread(w, o) <==> !o.ToClient? && f.to in w && Hears(f.to, o) && f == Frame(o.via, f.to, o.pkt)
  {
    if w != [] && !o.ToClient? {
      SpreadIn(w[1..], o);
      assert w == [w[0]] + w[1..];
    }
  }

  /** A frame is in flight because of `outs` exactly when its receiver hears one of them. */
  ghost predicate Carries(w: Wiring, o: Out, f: Frame) {
    !o.ToClient? && f.to in w && Hears(f.to, o) && f == Frame(o.via, f.to, o.pkt)
  }

  lemma {:induction false} SpreadAllIn(w: Wiring, outs: seq<Out>)
    ensures forall f :: f in SpreadAll(w, outs) <==> exists o :: o in outs && Carries(w, o, f)
  {
    if outs != [] {
      SpreadIn(w, outs[0]);
      SpreadAllIn(w, outs[1..]);
      assert outs == [outs[0]] + outs[1..];
      forall f
        ensures f in SpreadAll(w, outs) <==> exists o :: o in outs && Carries(w, o, f)
      {
        assert f in Spread(w, outs[0]) <==> Carries(w, outs[0], f);
        if o :| o in outs && Carries(w, o, f) {
          assert o == outs[0] || o in outs[1..];
        }
      }
    }
  }

  lemma {:induction false} SpreadAllConcat(w: Wiring, outs: seq<Out>, more: seq<Out>)
    ensures SpreadAll(w, outs + more) == SpreadAll(w, outs) + SpreadAll(w, more)
  {
    if outs == [] {
      assert outs + more == more;
    } else {
      SpreadAllConcat(w, outs[1..], more);
      assert (outs + more)[1..] == outs[1..] + more;
    }
  }

  lemma WithoutIn(s: seq<Frame>, i: nat)
    requires i < |s|
    ensures forall f | f in Without(s, i) :: f in s
    ensures forall f | f in s && f != s[i] :: f in Without(s, i)
  {
    forall f | f in s && f != s[i] ensures f in Without(s, i) {
      var j :| 0 <= j < |s| && s[j] == f;
      assert f == if j < i then Without(s, i)[j] else Without(s, i)[j - 1];
    }
  }

  // ----- What one step can do -----

  /** The outputs of one step: of the receiver of a frame, or of the node a client asks. */
  function OutsOf(w: Wiring, net: Net, l: Label): seq<Out>
    requires Enabled(net, l)
  {
    match l
    case Deliver(i, env) => Reaction(w, net, i, env).1
    case Lose(_) => []
    case Ask(n, dst, forced, msg) => Request(n, IfacesOf(w, n), net.nodes[n], dst, forced, msg).1
  }

  /** The node that acts in a step other than a loss. */
  function Actor(net: Net, l: Label): NodeId
    requires Enabled(net, l) && !l.Lose?
  {
    if l.Deliver? then net.flight[l.i].to.node else l.n
  }

  /** Every frame after a step was there before or carries one of the step's outputs. */
  lemma FramesAfter(w: Wiring, net: Net, l: Label, f: Frame)
    requires Enabled(net, l) && f in Next(w, net, l).flight
    ensures f in net.flight || exists o :: o in OutsOf(w, net, l) && Carries(w, o, f)
  {
    SpreadAllIn(w, OutsOf(w, net, l));
    if !l.Ask? {
      WithoutIn(net.flight, l.i);
    }
  }

  /** Frames other than the one that is taken stay in flight, and every output is put in flight. */
  lemma FramesStay(w: Wiring, net: Net, l: Label, f: Frame)
    requires Enabled(net, l)
    requires || (f in net.flight && (l.Ask? || f != net.flight[l.i]))
             || exists o :: o in OutsOf(w, net, l) && Carries(w, o, f)
    ensures f in Next(w, net, l).flight
  {
    SpreadAllIn(w, OutsOf(w, net, l));
    if !l.Ask? {
      WithoutIn(net.flight, l.i);
    }
  }

  /** Everything a call sends leaves through one of the node's own interfaces. */
  lemma OutsVia(w: Wiring, net: Net, l: Label, o: Out)
    requires Enabled(net, l) && o in OutsOf(w, net, l) && !o.ToClient?
    ensures !l.Lose? && o.via in w && o.via.node == Actor(net, l)
  {
    var n := Actor(net, l);
    var ifs := IfacesOf(w, n);
    IfacesOfIn(w, n);
    match l {
      case Deliver(i, env) =>
        var f := net.flight[i];
        ProcessVia(n, ifs, net.nodes[n], f.pkt, f.from.hw, f.to.ifNo, env, o);
      case Ask(_, dst, forced, msg) =>
        RequestVia(n, ifs, net.nodes[n], dst, forced, msg, o);
    }
  }

  lemma TowardVia(ifs: seq<Iface>, t: Table, key: NodeId, p: Packet)
    ensures forall o | o in SendToward(ifs, t, key, p) ::
              && key in t && o.Unicast? && o.pkt == p && o.via in ifs
              && o.via.ifNo == t[key].ifNo && o.to == t[key].hw
  {
    if key in t {
      SendOuts(ifs, p, t[key].hw, t[key].ifNo);
    }
  }

  lemma ProcessVia(self: NodeId, ifs: seq<Iface>, st: Node, p: Packet, hw: Hw, recvIf: int, env: Env, o: Out)
    requires o in Process(self, ifs, st, p, hw, recvIf, env).1 && !o.ToClient?
    ensures o.via in ifs
  {
    ProcessOuts(self, ifs, st, p, hw, recvIf, env, o);
  }

  lemma RequestVia(self: NodeId, ifs: seq<Iface>, st: Node, dst: NodeId, forced: int, msg: string, o: Out)
    requires o in Request(self, ifs, st, dst, forced, msg).1
    ensures !o.ToClient? && o.via in ifs
  {
    RequestOuts(self, ifs, st, dst, forced, msg, o);
  }

  /** The ways in which a call can send something: where it goes, and what it says. */
  ghost predicate Sends(self: NodeId, ifs: seq<Iface>, t: Table, st: Node, p: Packet, recvIf: int, o: Out) {
    var q := p.(rreqHop := p.rreqHop + 1);
    match p.kind
    case Rreq =>
      || (self == p.dst && p.rrepSent != 1 && Along(ifs, t, p.src, ReplyAtDestination(p), o))
      || (Unseen(self, st, p) && Floods(st.(table := t), p) && Flooded(ifs, q, recvIf, o))
      || (Unseen(self, st, p) && !Floods(st.(table := t), p) && Along(ifs, t, p.dst, ReplyFromEntry(q, t[p.dst]), o))
      || (Unseen(self, st, p) && !Floods(st.(table := t), p)
          && Flooded(ifs, FlaggedRequest(ReplyFromEntry(q, t[p.dst])), ALL_INTERFACES, o))
    case Rrep =>
      || (self == p.src && st.discovered == 0 && Along(ifs, t, p.dst, FirstPayload(p, st.msg), o))
      || (self != p.src && Along(ifs, t, p.src, ForwardedReply(p), o))
    case Data =>
      || (self == p.src && o == ToClient(p.payload, p.dst))
      || (self != p.src && o.Unicast? && o.pkt.kind == Data && o.pkt.rreqHop == p.rreqHop
          && o.pkt.rrepHop == p.rrepHop && o.via in ifs
          && exists k :: k in t && o.via.ifNo == t[k].ifNo && o.to == t[k].hw)
    case Unknown => false
  }

  /** `o` sends `p` along the route to `key`. */
  ghost predicate Along(ifs: seq<Iface>, t: Table, key: NodeId, p: Packet, o: Out) {
    key in t && o.Unicast? && o.pkt == p && o.via in ifs && o.via.ifNo == t[key].ifNo && o.to == t[key].hw
  }

  /** `o` is part of the flood of `p` on all interfaces but `except`. */
  ghost predicate Flooded(ifs: seq<Iface>, p: Packet, except: int, o: Out) {
    o.Broadcast? && o.pkt == p && o.via in ifs && o.via.ifNo != except
  }

  lemma ProcessOuts(self: NodeId, ifs: seq<Iface>, st: Node, p: Packet, hw: Hw, recvIf: int, env: Env, o: Out)
    requires o in Process(self, ifs, st, p, hw, recvIf, env).1
    ensures !Dropped(p)
    ensures Sends(self, ifs, Heeded(st, p, hw, recvIf, env.now).table, st, p, recvIf, o)
  {
    var t := Heeded(st, p, hw, recvIf, env.now).table;
    var q := p.(rreqHop := p.rreqHop + 1);
    match p.kind {
      case Rreq =>
        TowardVia(ifs, t, p.src, ReplyAtDestination(p));
        BroadcastOuts(ifs, q, recvIf);
        if p.dst in t {
          TowardVia(ifs, t, p.dst, ReplyFromEntry(q, t[p.dst]));
          BroadcastOuts(ifs, FlaggedRequest(ReplyFromEntry(q, t[p.dst])), ALL_INTERFACES);
        }
      case Rrep =>
        TowardVia(ifs, t, p.dst, FirstPayload(p, st.msg));
        TowardVia(ifs, t, p.src, ForwardedReply(p));
      case Data =>
        if env.answer.Some? {
          TowardVia(ifs, t, p.src, p.(srcDest := -1, payload := env.answer.value));
        }
        TowardVia(ifs, t, p.src, p);
        TowardVia(ifs, t, p.dst, p);
      case Unknown =>
    }
  }

  lemma RequestOuts(self: NodeId, ifs: seq<Iface>, st: Node, dst: NodeId, forced: int, msg: string, o: Out)
    requires o in Request(self, ifs, st, dst, forced, msg).1
    ensures var st' := Request(self, ifs, st, dst, forced, msg).0;
            || (dst in st.table && Along(ifs, st.table, dst, st.header.(dst := dst, src := self, kind := Data, srcDest := 1), o))
            || (!(dst in st.table && forced == 0) && Flooded(ifs, st'.header, ALL_INTERFACES, o))
  {
    var h := st.header.(dst := dst, src := self);
    TowardVia(ifs, st.table, dst, h.(kind := Data, srcDest := 1));
    BroadcastOuts(ifs, RequestHeader(h, st.running), ALL_INTERFACES);
  }
}
