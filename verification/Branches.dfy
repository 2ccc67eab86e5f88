/** What each branch of the daemon does to its variables and puts on its interfaces, told field by field.

    The functions of `NodeSpec` are put together from smaller ones; here every branch condition is a
    comparison of packet fields and variables, every packet sent is given by the fields in which it
    differs from the one received, and every frame by its interface and addressee.  Together with
    `TableSpec.UpdateIff`, which does the same for the table, these leave nothing of a call open. */
module Branches {
  import opened OdrTypes
  import opened TableSpec
  import opened NodeSpec
  import opened Network

  /** `outs` broadcasts `p` once on each interface but the one with index `except`, and is nothing else. */
  ghost predicate FloodOf(outs: seq<Out>, ifs: seq<Iface>, p: Packet, except: int) {
    && (forall o :: o in outs <==> o.Broadcast? && o.pkt == p && o.via in ifs && o.via.ifNo != except)
    && |outs| == |ifs| - (if exists f :: f in ifs && f.ifNo == except then 1 else 0)
  }

  /** `outs` sends `p` to `hw`, once, on the interface with index `ifNo` if there is one, and is nothing else. */
  ghost predicate SentTo(outs: seq<Out>, ifs: seq<Iface>, p: Packet, hw: Hw, ifNo: int) {
    && (forall o :: o in outs <==> o.Unicast? && o.pkt == p && o.to == hw && o.via in ifs && o.via.ifNo == ifNo)
    && |outs| <= 1
  }

  lemma FloodIs(ifs: seq<Iface>, p: Packet, except: int)
    requires DistinctIndexes(ifs)
    ensures FloodOf(BroadcastAll(ifs, p, except), ifs, p, except)
  {
    BroadcastOuts(ifs, p, except);
    BroadcastCount(ifs, p, except);
  }

  lemma TowardIs(ifs: seq<Iface>, t: Table, key: NodeId, p: Packet)
    requires DistinctIndexes(ifs)
    ensures key in t ==> SentTo(SendToward(ifs, t, key, p), ifs, p, t[key].hw, t[key].ifNo)
    ensures key !in t ==> SendToward(ifs, t, key, p) == []
  {
    if key in t {
      SendOuts(ifs, p, t[key].hw, t[key].ifNo);
      SendCount(ifs, p, t[key].hw, t[key].ifNo);
    }
  }

  // ----- No branch -----

  /** A packet that has come too far leaves no trace, whatever its kind; one of unknown kind neither. */
  lemma NothingHappens(self: NodeId, ifs: seq<Iface>, st: Node, p: Packet, hw: Hw, recvIf: int, env: Env)
    ensures p.rreqHop > 15 || p.rrepHop > 15 || p.kind == Unknown ==>
              Process(self, ifs, st, p, hw, recvIf, env) == (st, [])
  {
  }

  // ----- Requests -----

  /** A flagged request, and one that a node other than its destination has seen, end with the update. */
  lemma RequestEnds(self: NodeId, ifs: seq<Iface>, st: Node, p: Packet, hw: Hw, recvIf: int, env: Env)
    requires p.kind == Rreq && p.rreqHop <= 15 && p.rrepHop <= 15
    requires p.rrepSent == 1 || (self != p.dst && Latest(st, p.src) >= p.id)
    ensures Process(self, ifs, st, p, hw, recvIf, env)
            == (st.(table := Updated(st.table, p, hw, recvIf, env.now, st.sp)), [])
  {
  }

  /** The destination answers every other request, seen before or not, along its route to the source. */
  lemma RequestAnswered(self: NodeId, ifs: seq<Iface>, st: Node, p: Packet, hw: Hw, recvIf: int, env: Env)
    requires DistinctIndexes(ifs)
    requires p.kind == Rreq && p.rreqHop <= 15 && p.rrepHop <= 15 && p.rrepSent != 1 && self == p.dst
    ensures var t := Updated(st.table, p, hw, recvIf, env.now, st.sp);
            var (st', outs) := Process(self, ifs, st, p, hw, recvIf, env);
            && st' == st.(table := t) && p.src in t
            && SentTo(outs, ifs, p.(kind := Rrep, rrepHop := 1, rrepId := 1, rrepForce := 0), t[p.src].hw, t[p.src].ifNo)
  {
    var t := Updated(st.table, p, hw, recvIf, env.now, st.sp);
    UpdateFrame(st.table, p, hw, recvIf, env.now, st.sp);
    TowardIs(ifs, t, p.src, p.(kind := Rrep, rrepHop := 1, rrepId := 1, rrepForce := 0));
  }

  /** Any other node that has not seen the request notes its id, as far as it fits.  If it has no route
      to the destination after the update, or if its own last client has forced a discovery, it floods the
      request one hop longer on every interface but the one it came in by, and sends nothing else. */
  lemma RequestFlooded(self: NodeId, ifs: seq<Iface>, st: Node, p: Packet, hw: Hw, recvIf: int, env: Env)
    requires DistinctIndexes(ifs)
    requires p.kind == Rreq && p.rreqHop <= 15 && p.rrepHop <= 15 && p.rrepSent != 1
    requires self != p.dst && Latest(st, p.src) < p.id
    requires st.forced == 1 || p.dst !in Updated(st.table, p, hw, recvIf, env.now, st.sp)
    ensures var t := Updated(st.table, p, hw, recvIf, env.now, st.sp);
            var (st', outs) := Process(self, ifs, st, p, hw, recvIf, env);
            && st' == st.(table := t, latest := st.latest[p.src := AsChar(p.id)])
            && FloodOf(outs, ifs, p.(rreqHop := p.rreqHop + 1), recvIf)
  {
    FloodIs(ifs, p.(rreqHop := p.rreqHop + 1), recvIf);
  }

  /** Otherwise it sends a reply, one hop longer than its entry, along its route to the destination, and
      floods the request on every interface, two hops longer and flagged, the reply header left in it. */
  lemma RequestOffered(self: NodeId, ifs: seq<Iface>, st: Node, p: Packet, hw: Hw, recvIf: int, env: Env)
    returns (along: seq<Out>, flood: seq<Out>)
    requires DistinctIndexes(ifs)
    requires p.kind == Rreq && p.rreqHop <= 15 && p.rrepHop <= 15 && p.rrepSent != 1
    requires self != p.dst && Latest(st, p.src) < p.id
    requires st.forced != 1 && p.dst in Updated(st.table, p, hw, recvIf, env.now, st.sp)
    ensures var t := Updated(st.table, p, hw, recvIf, env.now, st.sp);
            var e := t[p.dst];
            && Process(self, ifs, st, p, hw, recvIf, env)
               == (st.(table := t, latest := st.latest[p.src := AsChar(p.id)]), along + flood)
            && SentTo(along, ifs,
                      p.(kind := Rrep, rreqHop := p.rreqHop + 1, rrepHop := e.hop + 1, rrepId := 1, rrepForce := 0),
                      e.hw, e.ifNo)
            && FloodOf(flood, ifs,
                       p.(rreqHop := p.rreqHop + 2, rrepSent := 1, rrepHop := e.hop + 1, rrepId := 1, rrepForce := 0), -1)
  {
    var t := Updated(st.table, p, hw, recvIf, env.now, st.sp);
    var e := t[p.dst];
    var reply := p.(kind := Rrep, rreqHop := p.rreqHop + 1, rrepHop := e.hop + 1, rrepId := 1, rrepForce := 0);
    var flagged := p.(rreqHop := p.rreqHop + 2, rrepSent := 1, rrepHop := e.hop + 1, rrepId := 1, rrepForce := 0);
    along, flood := SendToward(ifs, t, p.dst, reply), BroadcastAll(ifs, flagged, -1);
    TowardIs(ifs, t, p.dst, reply);
    FloodIs(ifs, flagged, -1);
  }

  // ----- Replies -----

  /** A reply that reaches its source with the flag down raises the flag and releases the client's message as
      a payload, along the entry that the reply itself has just refreshed or made, whatever hop counts
      it carries; with the flag up it only updates the table. */
  lemma ReplyAtSource(self: NodeId, ifs: seq<Iface>, st: Node, p: Packet, hw: Hw, recvIf: int, env: Env)
    requires DistinctIndexes(ifs)
    requires p.kind == Rrep && p.rreqHop <= 15 && p.rrepHop <= 15 && self == p.src
    ensures var t := Updated(st.table, p, hw, recvIf, env.now, st.sp);
            var (st', outs) := Process(self, ifs, st, p, hw, recvIf, env);
            && p.dst in t
            && (st.discovered == 0 ==>
                  && st' == st.(table := t, discovered := 1)
                  && SentTo(outs, ifs, p.(kind := Data, payload := st.msg, srcDest := 1), t[p.dst].hw, t[p.dst].ifNo))
            && (st.discovered != 0 ==> st' == st.(table := t) && outs == [])
  {
    var t := Updated(st.table, p, hw, recvIf, env.now, st.sp);
    UpdateFrame(st.table, p, hw, recvIf, env.now, st.sp);
    TowardIs(ifs, t, p.dst, p.(kind := Data, payload := st.msg, srcDest := 1));
  }

  /** Any other node passes a reply on, one hop longer, along its route to the source if it has one. */
  lemma ReplyElsewhere(self: NodeId, ifs: seq<Iface>, st: Node, p: Packet, hw: Hw, recvIf: int, env: Env)
    requires DistinctIndexes(ifs)
    requires p.kind == Rrep && p.rreqHop <= 15 && p.rrepHop <= 15 && self != p.src
    ensures var t := Updated(st.table, p, hw, recvIf, env.now, st.sp);
            var (st', outs) := Process(self, ifs, st, p, hw, recvIf, env);
            && st' == st.(table := t)
            && (p.src in t ==>
                  SentTo(outs, ifs, p.(rrepHop := p.rrepHop + 1, rrepForce := 0), t[p.src].hw, t[p.src].ifNo))
            && (p.src !in t ==> outs == [])
  {
    TowardIs(ifs, Updated(st.table, p, hw, recvIf, env.now, st.sp), p.src, p.(rrepHop := p.rrepHop + 1, rrepForce := 0));
  }

  // ----- Payloads -----

  /** Every payload that is back at its source is handed to the client, answered or not. */
  lemma PayloadAtSource(self: NodeId, ifs: seq<Iface>, st: Node, p: Packet, hw: Hw, recvIf: int, env: Env)
    requires p.kind == Data && p.rreqHop <= 15 && p.rrepHop <= 15 && self == p.src
    ensures Process(self, ifs, st, p, hw, recvIf, env)
            == (st.(table := Updated(st.table, p, hw, recvIf, env.now, st.sp)), [ToClient(p.payload, p.dst)])
  {
  }

  /** At its destination, which is not its source, it is answered if the server answers, whatever its
      direction, along the route to the source if there is one. */
  lemma PayloadAtDestination(self: NodeId, ifs: seq<Iface>, st: Node, p: Packet, hw: Hw, recvIf: int, env: Env)
    requires DistinctIndexes(ifs)
    requires p.kind == Data && p.rreqHop <= 15 && p.rrepHop <= 15 && self != p.src && self == p.dst
    ensures var t := Updated(st.table, p, hw, recvIf, env.now, st.sp);
            var (st', outs) := Process(self, ifs, st, p, hw, recvIf, env);
            && st' == st.(table := t)
            && (env.answer.Some? && p.src in t ==>
                  SentTo(outs, ifs, p.(srcDest := -1, payload := env.answer.value), t[p.src].hw, t[p.src].ifNo))
            && (env.answer.None? || p.src !in t ==> outs == [])
  {
    if env.answer.Some? {
      TowardIs(ifs, Updated(st.table, p, hw, recvIf, env.now, st.sp), p.src, p.(srcDest := -1, payload := env.answer.value));
    }
  }

  /** Elsewhere it is passed on unchanged in its direction, along a route to that end if there is one. */
  lemma PayloadElsewhere(self: NodeId, ifs: seq<Iface>, st: Node, p: Packet, hw: Hw, recvIf: int, env: Env)
    requires DistinctIndexes(ifs)
    requires p.kind == Data && p.rreqHop <= 15 && p.rrepHop <= 15 && self != p.src && self != p.dst
    ensures var t := Updated(st.table, p, hw, recvIf, env.now, st.sp);
            var (st', outs) := Process(self, ifs, st, p, hw, recvIf, env);
            && st' == st.(table := t)
            && (p.srcDest == 1 && p.dst in t ==> SentTo(outs, ifs, p, t[p.dst].hw, t[p.dst].ifNo))
            && (p.srcDest == -1 && p.src in t ==> SentTo(outs, ifs, p, t[p.src].hw, t[p.src].ifNo))
            && (!(p.srcDest == 1 && p.dst in t) && !(p.srcDest == -1 && p.src in t) ==> outs == [])
  {
    var t := Updated(st.table, p, hw, recvIf, env.now, st.sp);
    TowardIs(ifs, t, p.dst, p);
    TowardIs(ifs, t, p.src, p);
  }

  // ----- Client requests -----

  /** What every client request does to the daemon's variables: the message and the forced flag are
      recorded, the discovery flag is lowered, the broadcast number is used up and the node's own slot is set
      one ahead; the table stays. */
  lemma ClientRecorded(self: NodeId, ifs: seq<Iface>, st: Node, dst: NodeId, forced: int, msg: string)
    ensures var st' := Request(self, ifs, st, dst, forced, msg).0;
            && st'.msg == msg && st'.forced == forced && st'.discovered == 0
            && st'.running == st.running + 1 && st'.latest == st.latest[self := AsChar(st.running + 1)]
            && st'.table == st.table && st'.sp == st.sp
            && var sent := if dst in st.table && forced == 0 then 1 else st.header.srcDest;
               st'.header == Packet(Rreq, dst, self, 1, st.running, 0, 0, -1, -1, -1, st.header.payload, sent)
  {
  }

  /** With a route and no force, a payload goes along the route: it carries the payload and the two headers
      that the previous client request has left in `source_packet`, not this client's message.  Otherwise the new
      request is flooded on every interface. */
  lemma ClientServed(self: NodeId, ifs: seq<Iface>, st: Node, dst: NodeId, forced: int, msg: string)
    requires DistinctIndexes(ifs)
    ensures var (st', outs) := Request(self, ifs, st, dst, forced, msg);
            && (dst in st.table && forced == 0 ==>
                  SentTo(outs, ifs, st.header.(dst := dst, src := self, kind := Data, srcDest := 1),
                         st.table[dst].hw, st.table[dst].ifNo))
            && (dst !in st.table || forced != 0 ==> FloodOf(outs, ifs, st'.header, -1))
  {
    TowardIs(ifs, st.table, dst, st.header.(dst := dst, src := self, kind := Data, srcDest := 1));
    FloodIs(ifs, Request(self, ifs, st, dst, forced, msg).0.header, -1);
  }
}
