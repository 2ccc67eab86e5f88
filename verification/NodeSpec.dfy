/** One call of `process_pack`, and one client request, as functions on a node's variables. */
module NodeSpec {
  import opened OdrTypes
  import opened TableSpec

  // ----- Sending -----

  /** `broadcast_ll_msg`: one frame on every interface but the one with index `except`. */
  function BroadcastAll(ifs: seq<Iface>, p: Packet, except: int): seq<Out> {
    if ifs == [] then []
    else (if ifs[0].ifNo != except then [Broadcast(ifs[0], p)] else []) + BroadcastAll(ifs[1..], p, except)
  }

  /** `send_ll_msg`: one frame to `to` on every interface with index `ifNo`. */
  function SendOn(ifs: seq<Iface>, p: Packet, to: Hw, ifNo: int): seq<Out> {
    if ifs == [] then []
    else (if ifs[0].ifNo == ifNo then [Unicast(ifs[0], to, p)] else []) + SendOn(ifs[1..], p, to, ifNo)
  }

  /** Send along the table's route to `key`, if there is one (`get_rtbl_entry` followed by
      `send_ll_msg`, and `send_payload`). */
  function SendToward(ifs: seq<Iface>, t: Table, key: NodeId, p: Packet): seq<Out> {
    if key in t then SendOn(ifs, p, t[key].hw, t[key].ifNo) else []
  }

  // ----- Receiving -----

  predicate Dropped(p: Packet) {
    p.rreqHop > MAXH || p.rrepHop > MAXH
  }

  /** The reply a destination makes out of a request. */
  function ReplyAtDestination(p: Packet): Packet {
    p.(kind := Rrep, rrepHop := 1, rrepId := 1, rrepForce := 0)
  }

  /** The reply a node that already has an entry for the destination makes out of a request whose
      hop count it has already incremented. */
  function ReplyFromEntry(p: Packet, e: Entry): Packet {
    p.(kind := Rrep, rrepHop := e.hop + 1, rrepId := 1, rrepForce := 0)
  }

  /** The request that such a node floods after replying: the same packet turned back into a
      request, its hop count incremented a second time. */
  function FlaggedRequest(reply: Packet): Packet {
    reply.(kind := Rreq, rreqHop := reply.rreqHop + 1, rrepSent := 1)
  }

  /** A request that this node has not seen before and must pass on. */
  predicate Unseen(self: NodeId, st: Node, p: Packet) {
    p.rrepSent != 1 && self != p.dst && Latest(st, p.src) < p.id
  }

  /** A node that must pass a request on floods it, unless it has a route to offer instead. */
  predicate Floods(st: Node, p: Packet) {
    p.dst !in st.table || st.forced == 1
  }

  /** A request, once the table has been updated. */
  function OnRequest(self: NodeId, ifs: seq<Iface>, st: Node, p: Packet, recvIf: int): (Node, seq<Out>) {
    if p.rrepSent == 1 then (st, [])
    else if self == p.dst then (st, SendToward(ifs, st.table, p.src, ReplyAtDestination(p)))
    else if !Unseen(self, st, p) then (st, [])
    else
      var st' := st.(latest := st.latest[p.src := AsChar(p.id)]);
      var q := p.(rreqHop := p.rreqHop + 1);
      if Floods(st, p) then (st', BroadcastAll(ifs, q, recvIf))
      else
        var reply := ReplyFromEntry(q, st.table[p.dst]);
        (st', SendToward(ifs, st.table, p.dst, reply) + BroadcastAll(ifs, FlaggedRequest(reply), ALL_INTERFACES))
  }

  /** The payload that a reply triggers at the source. */
  function FirstPayload(p: Packet, msg: string): Packet {
    p.(kind := Data, payload := msg, srcDest := 1)
  }

  function ForwardedReply(p: Packet): Packet {
    p.(rrepHop := p.rrepHop + 1, rrepForce := 0)
  }

  /** A reply, once the table has been updated. */
  function OnReply(self: NodeId, ifs: seq<Iface>, st: Node, p: Packet): (Node, seq<Out>) {
    if self == p.src then
      if st.discovered == 0 then
        (st.(discovered := 1), SendToward(ifs, st.table, p.dst, FirstPayload(p, st.msg)))
      else (st, [])
    else (st, SendToward(ifs, st.table, p.src, ForwardedReply(p)))
  }

  /** A payload, once the table has been updated. */
  function OnPayload(self: NodeId, ifs: seq<Iface>, st: Node, p: Packet, answer: Option<string>): (Node, seq<Out>) {
    if self == p.src then (st, [ToClient(p.payload, p.dst)])
    else if self == p.dst then
      match answer
      case None => (st, [])
      case Some(text) => (st, SendToward(ifs, st.table, p.src, p.(srcDest := -1, payload := text)))
    else if p.srcDest == 1 then (st, SendToward(ifs, st.table, p.dst, p))
    else if p.srcDest == -1 then (st, SendToward(ifs, st.table, p.src, p))
    else (st, [])
  }

  /** The node after the table update that opens every branch. */
  function Heeded(st: Node, p: Packet, hw: Hw, recvIf: int, now: int): Node {
    st.(table := Updated(st.table, p, hw, recvIf, now, st.sp))
  }

  function Act(self: NodeId, ifs: seq<Iface>, st: Node, p: Packet, recvIf: int, env: Env): (Node, seq<Out>) {
    match p.kind
    case Rreq => OnRequest(self, ifs, st, p, recvIf)
    case Rrep => OnReply(self, ifs, st, p)
    case Data => OnPayload(self, ifs, st, p, env.answer)
    case Unknown => (st, [])
  }

  /** `process_pack` at node `self`, for a packet that arrived from `hw` on interface `recvIf`. */
  function Process(self: NodeId, ifs: seq<Iface>, st: Node, p: Packet, hw: Hw, recvIf: int, env: Env): (Node, seq<Out>) {
    if Dropped(p) then (st, [])
    else Act(self, ifs, Heeded(st, p, hw, recvIf, env.now), p, recvIf, env)
  }

  /** The variables of a daemon that has just been started. */
  ghost predicate JustStarted(st: Node) {
    && st.table == map[] && (forall k :: Latest(st, k) == 0)
    && st.running == 1 && st.discovered == 0 && st.forced == 0 && st.msg == ""
  }

  // ----- Client requests -----

  /** The request header that every client request leaves in `source_packet`. */
  function RequestHeader(h: Packet, id: int): Packet {
    h.(kind := Rreq, rreqHop := 1, id := id, rreqForce := 0, rrepSent := 0,
       rrepHop := -1, rrepId := -1, rrepForce := -1)
  }

  /** A client at `self` asks for `dst`: the payload goes out at once when there is a route and the
      client does not insist on a discovery, otherwise a request is flooded.  The broadcast number
      is used up either way. */
  function Request(self: NodeId, ifs: seq<Iface>, st: Node, dst: NodeId, forced: int, msg: string): (Node, seq<Out>) {
    var h := st.header.(dst := dst, src := self);
    var cached := dst in st.table && forced == 0;
    var sent := h.(kind := Data, srcDest := 1);
    var h' := RequestHeader(if cached then sent else h, st.running);
    var st' := st.(
      discovered := 0, forced := forced, msg := msg, running := st.running + 1,
      latest := st.latest[self := AsChar(st.running + 1)], header := h');
    (st', if cached then SendToward(ifs, st.table, dst, sent) else BroadcastAll(ifs, h', ALL_INTERFACES))
  }

  // ----- How many frames, and on which interfaces -----

  predicate DistinctIndexes(ifs: seq<Iface>) {
    forall i, j | 0 <= i < j < |ifs| :: ifs[i].ifNo != ifs[j].ifNo
  }

  lemma {:induction false} BroadcastOuts(ifs: seq<Iface>, p: Packet, except: int)
    ensures forall o :: o in BroadcastAll(ifs, p, except)
                        <==> o.Broadcast? && o.pkt == p && o.via in ifs && o.via.ifNo != except
  {
    if ifs != [] {
      BroadcastOuts(ifs[1..], p, except);
      assert ifs == [ifs[0]] + ifs[1..];
    }
  }

  lemma {:induction false} SendOuts(ifs: seq<Iface>, p: Packet, to: Hw, ifNo: int)
    ensures forall o :: o in SendOn(ifs, p, to, ifNo)
                        <==> o.Unicast? && o.pkt == p && o.to == to && o.via in ifs && o.via.ifNo == ifNo
  {
    if ifs != [] {
      SendOuts(ifs[1..], p, to, ifNo);
      assert ifs == [ifs[0]] + ifs[1..];
    }
  }

  /** A broadcast uses every interface but the one it must avoid, each once. */
  lemma {:induction false} BroadcastCount(ifs: seq<Iface>, p: Packet, except: int)
    requires DistinctIndexes(ifs)
    ensures |BroadcastAll(ifs, p, except)| == |ifs| - (if exists f :: f in ifs && f.ifNo == except then 1 else 0)
  {
    if ifs != [] {
      var rest := ifs[1..];
      BroadcastCount(rest, p, except);
      assert ifs == [ifs[0]] + rest;
      if ifs[0].ifNo == except {
        assert ifs[0] in ifs;
        assert forall f | f in rest :: f.ifNo != except;
      } else if f :| f in ifs && f.ifNo == except {
        assert f in rest;
      } else {
        assert forall f | f in rest :: f in ifs;
      }
    }
  }

  /** Sending along a route uses exactly one interface when there is a route that names an
      interface of this node, and none otherwise. */
  lemma {:induction false} SendCount(ifs: seq<Iface>, p: Packet, to: Hw, ifNo: int)
    requires DistinctIndexes(ifs)
    ensures |SendOn(ifs, p, to, ifNo)| == (if exists f :: f in ifs && f.ifNo == ifNo then 1 else 0)
    ensures forall f | f in ifs && f.ifNo == ifNo :: SendOn(ifs, p, to, ifNo) == [Unicast(f, to, p)]
  {
    if ifs != [] {
      var rest := ifs[1..];
      SendCount(rest, p, to, ifNo);
      assert ifs == [ifs[0]] + rest;
      if ifs[0].ifNo == ifNo {
        assert ifs[0] in ifs;
        assert forall f | f in rest :: f.ifNo != ifNo;
      } else if f :| f in ifs && f.ifNo == ifNo {
        assert f in rest;
      } else {
        assert forall f | f in rest :: f in ifs;
      }
    }
  }

  // ----- The duplicate guard and the width of its slots -----

  /** After a node has passed a request on, it ignores a second copy of it exactly when the
      broadcast id fits in a `char`; from 128 on the stored id is smaller than the id itself. */
  lemma DuplicateIgnoredIff(self: NodeId, ifs: seq<Iface>, st: Node, p: Packet, recvIf: int)
    requires p.kind == Rreq && Unseen(self, st, p) && p.id >= 1
    ensures var st' := OnRequest(self, ifs, st, p, recvIf).0;
            !Unseen(self, st', p) <==> p.id <= 127
  {
  }

  /** The request a client triggers is ignored by its own node exactly when the *next* id still
      fits: the slot is set one ahead. */
  lemma OwnRequestIgnoredIff(self: NodeId, ifs: seq<Iface>, st: Node, dst: NodeId, forced: int, msg: string)
    requires st.running >= 1 && dst != self
    ensures var st' := Request(self, ifs, st, dst, forced, msg).0;
            !Unseen(self, st', st'.header) <==> st.running <= 126
  {
    var st' := Request(self, ifs, st, dst, forced, msg).0;
    var c := AsChar(st.running + 1);
  }

  // ----- Where an intermediate node's reply goes -----

  /** A node that answers for the destination sends its reply through interface `f`, along its route to
      the *destination*.  That reply sets out toward the source, to which the node also has a route
      since it has just heard the request, exactly when both routes share interface and neighbour. */
  lemma IntermediateReplyDirection(self: NodeId, ifs: seq<Iface>, st: Node, p: Packet, recvIf: int, f: Iface)
    requires DistinctIndexes(ifs)
    requires Unseen(self, st, p) && !Floods(st, p) && p.src in st.table
    requires f in ifs && f.ifNo == st.table[p.dst].ifNo
    ensures var reply := ReplyFromEntry(p.(rreqHop := p.rreqHop + 1), st.table[p.dst]);
            var outs := OnRequest(self, ifs, st, p, recvIf).1;
            && |outs| > 0
            && outs[0] == Unicast(f, st.table[p.dst].hw, reply)
            && (outs[0] in SendToward(ifs, st.table, p.src, reply)
                <==> st.table[p.src].hw == st.table[p.dst].hw && st.table[p.src].ifNo == st.table[p.dst].ifNo)
  {
    var reply := ReplyFromEntry(p.(rreqHop := p.rreqHop + 1), st.table[p.dst]);
    SendCount(ifs, reply, st.table[p.dst].hw, st.table[p.dst].ifNo);
    SendOuts(ifs, reply, st.table[p.src].hw, st.table[p.src].ifNo);
  }
}
