/** The daemon itself: `process_pack`, the three send routines and the client branch of `main`, as
    methods that update the daemon's variables.  Each refines its function in `NodeSpec`. */
module Daemon {
  import opened OdrTypes
  import opened TableSpec
  import opened NodeSpec
  import opened Ring
  import opened RoutingTables

  /** `latest_rreq` has a slot for each index 0..10. */
  const SLOTS := 11

  ghost function SlotMap(s: seq<int>): map<NodeId, int> {
    map k | 0 <= k < |s| :: s[k]
  }

  class OdrDaemon {
    const self: NodeId
    const sp: int
    const ifs: seq<Iface>
    const ifHead: Link<Iface>
    const rtbl: RoutingTable
    const latest: array<int>
    ghost var ifLinks: seq<Link<Iface>>
    var running: int
    var discovered: int
    var forced: int
    var msg: string
    var header: Packet

    ghost predicate Valid()
      reads this, rtbl, rtbl.Objects(), latest, ifHead, ifLinks
    {
      && rtbl.Valid()
      && IsRing(ifHead, ifLinks)
      && Holds(ifLinks, ifs)
      && latest.Length == SLOTS
      && rtbl.Objects() !! Own()
    }

    /** The ring holds `ifs`, to be read from its tail to its head. */
    static ghost predicate Holds(links: seq<Link<Iface>>, ifs: seq<Iface>)
      reads links
    {
      |links| == |ifs| && forall i | 0 <= i < |links| :: links[i].item == ifs[|ifs| - 1 - i]
    }

    ghost function Own(): set<object>
      reads this
    {
      {this, latest, ifHead} + set l | l in ifLinks
    }

    /** The daemon's variables. */
    ghost function View(): Node
      reads this, rtbl, latest
    {
      Node(rtbl.View(), SlotMap(latest[..]), running, discovered, forced, msg, header, sp)
    }

    /** The start of `main`: empty table, zeroed slots, and an interface list built with `list_add`.
        `garbage` is what `source_packet` happens to contain. */
    constructor (self: NodeId, sp: int, ifs: seq<Iface>, garbage: Packet)
      ensures Valid() && this.self == self && this.sp == sp && this.ifs == ifs
      ensures JustStarted(View()) && View().header == garbage && View().sp == sp
      ensures running == 1 && discovered == 0 && forced == 0 && msg == ""
    {
      hide IsRing, Holds;
      this.self, this.sp, this.ifs := self, sp, ifs;
      running, discovered, forced, msg, header := 1, 0, 0, "", garbage;
      latest := new int[SLOTS](_ => 0);
      rtbl := new RoutingTable();
      var h, links := ListInterfaces(ifs);
      ifHead, ifLinks := h, links;
      new;
    }

    /** `fill_if_info_list`: each interface is added behind the head, so that a reverse scan meets them
        in the order in which they were found. */
    static method ListInterfaces(ifs: seq<Iface>) returns (head: Link<Iface>, ghost links: seq<Link<Iface>>)
      ensures fresh(head) && fresh(links)
      ensures IsRing(head, links) && Holds(links, ifs)
    {
      head := new Link(Iface(0, 0, 0, 0));
      links := [];
      var i := 0;
      while i < |ifs|
        invariant 0 <= i <= |ifs|
        invariant IsRing(head, links) && Holds(links, ifs[..i])
        invariant fresh(head) && fresh(links)
      {
        links := AddInterface(ifs[i], head, links, ifs[..i]);
        i := i + 1;
        assert ifs[..i] == ifs[..i - 1] + [ifs[i - 1]];
      }
      assert ifs[..i] == ifs;
    }

    static method AddInterface(f: Iface, head: Link<Iface>, ghost links: seq<Link<Iface>>, ghost ifs: seq<Iface>)
      returns (ghost links': seq<Link<Iface>>)
      requires IsRing(head, links) && Holds(links, ifs)
      modifies head`next, head`prev, links`next, links`prev
      ensures |links'| == |links| + 1 && fresh(links'[0]) && links'[1..] == links
      ensures IsRing(head, links') && Holds(links', ifs + [f])
    {
      var x := new Link(f);
      Add(x, head, links);
      links' := [x] + links;
    }

    // ----- Sending -----

    /** `broadcast_ll_msg`. */
    method BroadcastLinkLayer(p: Packet, except: int) returns (outs: seq<Out>)
      requires Valid()
      ensures outs == BroadcastAll(ifs, p, except)
    {
      outs := [];
      ghost var i := |ifLinks| - 1;
      var tmp := ifHead.prev;
      while tmp != ifHead
        invariant -1 <= i < |ifLinks| && tmp == At(ifHead, ifLinks, i)
        invariant outs == BroadcastAll(ifs[..|ifs| - 1 - i], p, except)
        decreases i
      {
        if except != tmp.item.ifNo {
          outs := outs + [Broadcast(tmp.item, p)];
        }
        BroadcastSplits(ifs, |ifs| - 1 - i, p, except);
        i := i - 1;
        tmp := tmp.prev;
      }
      assert ifs[..|ifs|] == ifs;
    }

    /** `send_ll_msg`. */
    method SendLinkLayer(p: Packet, to: Hw, ifNo: int) returns (outs: seq<Out>)
      requires Valid()
      ensures outs == SendOn(ifs, p, to, ifNo)
    {
      outs := [];
      ghost var i := |ifLinks| - 1;
      var tmp := ifHead.prev;
      while tmp != ifHead
        invariant -1 <= i < |ifLinks| && tmp == At(ifHead, ifLinks, i)
        invariant outs == SendOn(ifs[..|ifs| - 1 - i], p, to, ifNo)
        decreases i
      {
        if ifNo == tmp.item.ifNo {
          outs := outs + [Unicast(tmp.item, to, p)];
        }
        SendSplits(ifs, |ifs| - 1 - i, p, to, ifNo);
        i := i - 1;
        tmp := tmp.prev;
      }
      assert ifs[..|ifs|] == ifs;
    }

    /** `send_payload`: for every table entry with the key, and there is at most one. */
    method SendPayload(p: Packet, key: NodeId) returns (outs: seq<Out>)
      requires Valid()
      ensures outs == SendToward(ifs, rtbl.View(), key, p)
    {
      outs := [];
      ghost var m: int := -1;
      if key in rtbl.View() {
        m := TableOfOnly(rtbl.routes, key);
        TableOfHas(rtbl.routes, m);
      }
      ghost var i := |rtbl.links| - 1;
      var tmp := rtbl.head.prev;
      while tmp != rtbl.head
        invariant -1 <= i < |rtbl.links| && tmp == At(rtbl.head, rtbl.links, i)
        invariant outs == if i < m then SendToward(ifs, rtbl.View(), key, p) else []
        decreases i
      {
        if tmp.item.key == key {
          TableOfHas(rtbl.routes, i);
          var sent := SendLinkLayer(p, tmp.item.hw, tmp.item.ifNo);
          outs := outs + sent;
        }
        i := i - 1;
        tmp := tmp.prev;
      }
    }

    /** A table lookup followed by `send_ll_msg`; `ret` is -1 when there is no entry. */
    method LookUpAndSend(p: Packet, key: NodeId) returns (ret: int, outs: seq<Out>)
      requires Valid()
      ensures outs == SendToward(ifs, rtbl.View(), key, p)
      ensures ret == if key in rtbl.View() then 1 else -1
    {
      var found, hw, ifNo, hop := rtbl.Get(key);
      if !found {
        ret, outs := -1, [];
      } else {
        outs := SendLinkLayer(p, hw, ifNo);
        ret := 1;
      }
    }

    // ----- Receiving -----

    /** The table update that opens every branch of `process_pack`. */
    method Heed(p: Packet, hw: Hw, recvIf: int, now: int)
      requires Valid()
      modifies rtbl.Objects()
      ensures Valid() && View() == Heeded(old(View()), p, hw, recvIf, now)
      ensures fresh(rtbl.Objects() - old(rtbl.Objects()))
    {
      rtbl.Update(p, hw, recvIf, now, sp);
    }

    /** The RREQ branch, after the table update. */
    method ReceiveRequest(p: Packet, recvIf: int) returns (ret: int, outs: seq<Out>)
      requires Valid() && 0 <= p.src < SLOTS && p.src in rtbl.View()
      modifies latest
      ensures Valid()
      ensures (View(), outs) == OnRequest(self, ifs, old(View()), p, recvIf)
      ensures ret != -1
    {
      var packet := p;
      ret, outs := 0, [];
      if packet.rrepSent == 1 {
        return;
      }
      if self == packet.dst {
        packet := packet.(kind := Rrep, rrepHop := 1, rrepId := 1, rrepForce := 0);
        ret, outs := LookUpAndSend(packet, packet.src);
      } else if latest[packet.src] < packet.id {
        outs := PassOn(packet, recvIf);
      }
    }

    /** What an intermediate node does with a request it has not seen before. */
    method PassOn(p: Packet, recvIf: int) returns (outs: seq<Out>)
      requires Valid() && 0 <= p.src < SLOTS && Unseen(self, View(), p)
      modifies latest
      ensures Valid()
      ensures (View(), outs) == OnRequest(self, ifs, old(View()), p, recvIf)
    {
      UnseenRequest(self, ifs, View(), p, recvIf);
      hide OnRequest, Valid, View, Unseen, Floods, SendToward, BroadcastAll, FlaggedRequest, ReplyFromEntry;
      StoreSlot(p.src, AsChar(p.id));
      outs := FloodOrOffer(p.(rreqHop := p.rreqHop + 1), recvIf);
    }

    /** Flood the request on, or answer it out of the table and flood it flagged. */
    method FloodOrOffer(p: Packet, recvIf: int) returns (outs: seq<Out>)
      requires Valid()
      ensures outs == if Floods(View(), p) then BroadcastAll(ifs, p, recvIf)
                      else SendToward(ifs, View().table, p.dst, ReplyFromEntry(p, View().table[p.dst]))
                           + BroadcastAll(ifs, FlaggedRequest(ReplyFromEntry(p, View().table[p.dst])), ALL_INTERFACES)
    {
      var packet := p;
      var exists_ := rtbl.Exists(packet.dst);
      if !exists_ || forced == 1 {
        outs := BroadcastLinkLayer(packet, recvIf);
      } else {
        var found, hw, ifNo, hop := rtbl.Get(packet.dst);
        packet := packet.(kind := Rrep, rrepHop := hop + 1, rrepId := 1, rrepForce := 0);
        var along := SendLinkLayer(packet, hw, ifNo);
        packet := packet.(kind := Rreq, rreqHop := packet.rreqHop + 1, rrepSent := 1);
        var flood := BroadcastLinkLayer(packet, ALL_INTERFACES);
        outs := along + flood;
      }
    }

    /** An assignment to `latest_rreq[k]`. */
    method StoreSlot(k: NodeId, v: int)
      requires Valid() && 0 <= k < SLOTS
      modifies latest
      ensures Valid()
      ensures View() == old(View()).(latest := old(View()).latest[k := v])
    {
      latest[k] := v;
      SlotStored(old(latest[..]), k, v);
      assert latest[..] == old(latest[..])[k := v];
    }

    /** The RREP branch, after the table update. */
    method ReceiveReply(p: Packet) returns (ret: int, outs: seq<Out>)
      requires Valid()
      modifies `discovered
      ensures Valid()
      ensures (View(), outs) == OnReply(self, ifs, old(View()), p)
      ensures ret != -1
    {
      var packet := p;
      ret, outs := 0, [];
      if self == packet.src {
        ret := 1;
        if discovered == 0 {
          packet := packet.(kind := Data, payload := msg, srcDest := 1);
          outs := SendPayload(packet, packet.dst);
          discovered := 1;
        }
      } else {
        var exists_ := rtbl.Exists(packet.src);
        if exists_ {
          packet := packet.(rrepHop := packet.rrepHop + 1, rrepForce := 0);
          ret, outs := LookUpAndSend(packet, packet.src);
        }
      }
    }

    /** The DATA branch, after the table update. */
    method ReceivePayload(p: Packet, answer: Option<string>) returns (ret: int, outs: seq<Out>)
      requires Valid()
      ensures (View(), outs) == OnPayload(self, ifs, View(), p, answer)
      ensures ret != -1
    {
      var packet := p;
      ret, outs := 1, [];
      if self == packet.src {
        outs := [ToClient(packet.payload, packet.dst)];
      } else if self == packet.dst {
        match answer {
          case None => return;
          case Some(text) =>
            packet := packet.(srcDest := -1, payload := text);
            outs := SendPayload(packet, packet.src);
        }
      } else {
        if packet.srcDest == 1 {
          var exists_ := rtbl.Exists(packet.dst);
          if exists_ {
            outs := SendPayload(packet, packet.dst);
          }
        }
        if packet.srcDest == -1 {
          var exists_ := rtbl.Exists(packet.src);
          if exists_ {
            outs := SendPayload(packet, packet.src);
          }
        }
      }
    }

    /** `process_pack`.  It reports -1, which makes `main` exit, only for a packet of unknown kind: the
        lookups that could also report -1 always find their key. */
    method ProcessPack(p: Packet, srcHw: Hw, recvIf: int, env: Env) returns (ret: int, outs: seq<Out>)
      requires Valid() && 0 <= p.src < SLOTS
      modifies this, latest, rtbl.Objects()
      ensures Valid() && fresh(rtbl.Objects() - old(rtbl.Objects()))
      ensures (View(), outs) == Process(self, ifs, old(View()), p, srcHw, recvIf, env)
      ensures ret == -1 <==> p.kind == Unknown && !Dropped(p)
    {
      if p.rreqHop > MAXH || p.rrepHop > MAXH {
        return 1, [];
      }
      match p.kind {
        case Rreq =>
          Heed(p, srcHw, recvIf, env.now);
          ret, outs := ReceiveRequest(p, recvIf);
        case Rrep =>
          Heed(p, srcHw, recvIf, env.now);
          ret, outs := ReceiveReply(p);
        case Data =>
          Heed(p, srcHw, recvIf, env.now);
          ret, outs := ReceivePayload(p, env.answer);
        case Unknown =>
          ret, outs := -1, [];
      }
    }

    // ----- Client requests -----

    /** The client branch of `main`'s loop. */
    method ClientRequest(dst: NodeId, force: int, message: string) returns (outs: seq<Out>)
      requires Valid() && 0 <= self < SLOTS
      modifies `discovered, `msg, `forced, `header, `running, latest
      ensures Valid()
      ensures (View(), outs) == Request(self, ifs, old(View()), dst, force, message)
    {
      AcceptRequest(force, message);
      var source;
      source, outs := Originate(dst);
      UseUpNumber(source);
    }

    /** Send the payload from the cache, or flood a request. */
    method Originate(to: NodeId) returns (source: Packet, outs: seq<Out>)
      requires Valid()
      ensures var h := header.(dst := to, src := self);
              var cached := to in rtbl.View() && forced == 0;
              var sent := h.(kind := Data, srcDest := 1);
              && source == RequestHeader(if cached then sent else h, running)
              && outs == if cached then SendToward(ifs, rtbl.View(), to, sent) else BroadcastAll(ifs, source, ALL_INTERFACES)
    {
      source, outs := header.(dst := to, src := self, kind := Rreq), [];
      var skip := 0;
      var exists_ := rtbl.Exists(to);
      if exists_ && forced == 0 {
        source := source.(kind := Data, srcDest := 1);
        outs := SendPayload(source, to);
        skip := 1;
      }
      source := source.(kind := Rreq, rreqHop := 1, id := running, rreqForce := 0, rrepSent := 0,
                        rrepHop := -1, rrepId := -1, rrepForce := -1);
      if skip == 0 {
        outs := BroadcastLinkLayer(source, ALL_INTERFACES);
      }
    }

    /** What a client request sets at once. */
    method AcceptRequest(force: int, message: string)
      requires Valid()
      modifies `discovered, `msg, `forced
      ensures Valid() && View() == old(View()).(discovered := 0, msg := message, forced := force)
    {
      discovered := 0;
      msg := message;
      forced := force;
    }

    /** What a client request leaves behind: the next broadcast number, this node's own slot set to it,
        and `source_packet`. */
    method UseUpNumber(source: Packet)
      requires Valid() && 0 <= self < SLOTS
      modifies `header, `running, latest
      ensures Valid()
      ensures View() == old(View()).(header := source, running := old(running) + 1,
                                     latest := old(View()).latest[self := AsChar(old(running) + 1)])
    {
      header := source;
      running := running + 1;
      StoreSlot(self, AsChar(running));
    }
  }

  lemma SlotStored(s: seq<int>, k: int, v: int)
    requires 0 <= k < |s|
    ensures SlotMap(s[k := v]) == SlotMap(s)[k := v]
  {
  }

  /** What is left of a request's specification when the node has not seen the request. */
  lemma UnseenRequest(self: NodeId, ifs: seq<Iface>, st: Node, p: Packet, recvIf: int)
    requires Unseen(self, st, p)
    ensures var st' := st.(latest := st.latest[p.src := AsChar(p.id)]);
            var q := p.(rreqHop := p.rreqHop + 1);
            OnRequest(self, ifs, st, p, recvIf)
            == (st', if Floods(st', q) then BroadcastAll(ifs, q, recvIf)
                     else SendToward(ifs, st'.table, q.dst, ReplyFromEntry(q, st'.table[q.dst]))
                          + BroadcastAll(ifs, FlaggedRequest(ReplyFromEntry(q, st'.table[q.dst])), ALL_INTERFACES))
  {
  }

  // ----- Taking one more interface into account -----

  lemma {:induction false} BroadcastSplits(ifs: seq<Iface>, k: nat, p: Packet, except: int)
    requires k < |ifs|
    ensures BroadcastAll(ifs[..k + 1], p, except)
            == BroadcastAll(ifs[..k], p, except) + if ifs[k].ifNo != except then [Broadcast(ifs[k], p)] else []
  {
    if k == 0 {
      assert ifs[..1] == [ifs[0]];
    } else {
      BroadcastSplits(ifs[1..], k - 1, p, except);
      assert ifs[..k + 1][1..] == ifs[1..][..k] && ifs[..k][1..] == ifs[1..][..k - 1];
    }
  }

  lemma {:induction false} SendSplits(ifs: seq<Iface>, k: nat, p: Packet, to: Hw, ifNo: int)
    requires k < |ifs|
    ensures SendOn(ifs[..k + 1], p, to, ifNo)
            == SendOn(ifs[..k], p, to, ifNo) + if ifs[k].ifNo == ifNo then [Unicast(ifs[k], to, p)] else []
  {
    if k == 0 {
      assert ifs[..1] == [ifs[0]];
    } else {
      SendSplits(ifs[1..], k - 1, p, to, ifNo);
      assert ifs[..k + 1][1..] == ifs[1..][..k] && ifs[..k][1..] == ifs[1..][..k - 1];
    }
  }
}
