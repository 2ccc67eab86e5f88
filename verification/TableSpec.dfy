/** The routing table as a map, and what `update_rtbl_entry` does to it. */
module TableSpec {
  import opened OdrTypes

  /** What a packet says about one key.  `staleHop` is the hop count that the stale branch compares;
      it differs from `hop` for replies, whose stale branch reads the request header. */
  datatype Offer = Offer(key: NodeId, hw: Hw, ifNo: int, hop: int, staleHop: int)

  function RequestOffer(p: Packet, hw: Hw, ifNo: int): Offer {
    Offer(p.src, hw, ifNo, p.rreqHop, p.rreqHop)
  }

  function ReplyOffer(p: Packet, hw: Hw, ifNo: int): Offer {
    Offer(p.dst, hw, ifNo, p.rrepHop, p.rreqHop)
  }

  function PayloadOffer(key: NodeId, p: Packet, hw: Hw, ifNo: int): Offer {
    Offer(key, hw, ifNo, p.rreqHop, p.rreqHop)
  }

  predicate Stale(e: Entry, now: int, sp: int) {
    now - e.ts > sp
  }

  /** An existing entry after hearing `o`. */
  function Refreshed(e: Entry, o: Offer, now: int, sp: int): Entry {
    if Stale(e, now, sp) then
      Entry(o.key, o.hw, o.ifNo, if e.hop > o.staleHop then o.staleHop else e.hop, now)
    else if e.hop > o.hop then
      e.(hw := o.hw, ifNo := o.ifNo, hop := o.hop, ts := now)
    else
      e
  }

  function Touch(t: Table, o: Offer, now: int, sp: int): Table {
    if o.key in t then t[o.key := Refreshed(t[o.key], o, now, sp)] else t
  }

  function Learn(t: Table, o: Offer, now: int, sp: int): Table {
    if o.key in t then Touch(t, o, now, sp)
    else t[o.key := Entry(o.key, o.hw, o.ifNo, o.hop, now)]
  }

  /** `update_rtbl_entry` on the map.  The repeated pass for a request with `rrep_sent` set is not
      written here: `SecondPassIsIdle` shows that it never changes anything. */
  function Updated(t: Table, p: Packet, hw: Hw, ifNo: int, now: int, sp: int): Table {
    match p.kind
    case Rreq => Learn(t, RequestOffer(p, hw, ifNo), now, sp)
    case Rrep => Learn(t, ReplyOffer(p, hw, ifNo), now, sp)
    case Data =>
      if p.srcDest == 1 then Touch(t, PayloadOffer(p.src, p, hw, ifNo), now, sp)
      else if p.srcDest == -1 then Touch(t, PayloadOffer(p.dst, p, hw, ifNo), now, sp)
      else t
    case Unknown => t
  }

  /** The one key a packet names. */
  function NamedKey(p: Packet): NodeId {
    if p.kind == Rreq || (p.kind == Data && p.srcDest == 1) then p.src else p.dst
  }

  /** Nothing in the table is stale. */
  predicate NoneStale(t: Table, now: int, sp: int) {
    forall k | k in t :: !Stale(t[k], now, sp)
  }

  /** Every entry carries its own key's address. */
  predicate Addressed(t: Table) {
    forall k | k in t :: t[k].addr == k
  }

  /** After the first pass the key is present, so the second pass cannot insert, and repeating the
      update changes nothing, whatever the clock and the staleness parameter. */
  lemma SecondPassIsIdle(t: Table, o: Offer, now: int, sp: int)
    requires Addressed(t)
    requires o.hop == o.staleHop
    ensures o.key in Learn(t, o, now, sp)
    ensures Learn(Learn(t, o, now, sp), o, now, sp) == Learn(t, o, now, sp)
  {
    var once := Learn(t, o, now, sp);
    assert Refreshed(once[o.key], o, now, sp) == once[o.key];
  }

  /** Updates never drop a key and touch no key but the one the packet names; a payload never adds
      a key, and requests and replies always leave their key present. */
  lemma UpdateFrame(t: Table, p: Packet, hw: Hw, ifNo: int, now: int, sp: int)
    ensures t.Keys <= Updated(t, p, hw, ifNo, now, sp).Keys <= t.Keys + {NamedKey(p)}
    ensures forall k | k in t && k != NamedKey(p) :: Updated(t, p, hw, ifNo, now, sp)[k] == t[k]
    ensures p.kind == Data ==> Updated(t, p, hw, ifNo, now, sp).Keys == t.Keys
    ensures p.kind == Rreq || p.kind == Rrep ==> NamedKey(p) in Updated(t, p, hw, ifNo, now, sp)
  {
  }

  /** The whole update in numbers.  A request names its source, a reply its destination, a payload the end it
      comes from, and nothing else is touched.  A held entry last written more than `sp` ago gets the
      packet's address, interface and time and the smaller of its own hop count and the one in the *request*
      header; any other held entry changes only for a strictly smaller hop count, that of the reply header if
      the packet is a reply.  A key not held is added by requests and replies alone. */
  lemma UpdateIff(t: Table, p: Packet, hw: Hw, ifNo: int, now: int, sp: int, t': Table)
    ensures t' == Updated(t, p, hw, ifNo, now, sp) <==>
            var named :=
              if p.kind == Rreq || (p.kind == Data && p.srcDest == 1) then {p.src}
              else if p.kind == Rrep || (p.kind == Data && p.srcDest == -1) then {p.dst}
              else {};
            var hop := if p.kind == Rrep then p.rrepHop else p.rreqHop;
            && t'.Keys == t.Keys + (if p.kind == Rreq || p.kind == Rrep then named else {})
            && (forall k | k in t && k !in named :: t'[k] == t[k])
            && (forall k | k in t && k in named && now - t[k].ts > sp ::
                  t'[k] == Entry(k, hw, ifNo, if t[k].hop <= p.rreqHop then t[k].hop else p.rreqHop, now))
            && (forall k | k in t && k in named && now - t[k].ts <= sp ::
                  t'[k] == if hop < t[k].hop then Entry(t[k].addr, hw, ifNo, hop, now) else t[k])
            && (forall k | k in t' && k !in t :: t'[k] == Entry(k, hw, ifNo, hop, now))
  {
    var u := Updated(t, p, hw, ifNo, now, sp);
    if t'.Keys == u.Keys && forall k | k in u :: t'[k] == u[k] {
      assert t' == u;
    }
  }

  /** Exactly when a payload leaves the table alone: its key is absent, or the entry already holds
      what the packet would write, or the entry is not stale and no farther than the packet's
      request header claims. */
  lemma PayloadKeepsTableIff(t: Table, p: Packet, hw: Hw, ifNo: int, now: int, sp: int)
    requires p.kind == Data && (p.srcDest == 1 || p.srcDest == -1)
    ensures Updated(t, p, hw, ifNo, now, sp) == t <==>
            var k := NamedKey(p);
            || k !in t
            || (Stale(t[k], now, sp) && t[k] == Entry(k, hw, ifNo, t[k].hop, now) && t[k].hop <= p.rreqHop)
            || (!Stale(t[k], now, sp) && t[k].hop <= p.rreqHop)
  {
    var k := NamedKey(p);
    if k in t {
      assert Updated(t, p, hw, ifNo, now, sp)[k] == Refreshed(t[k], PayloadOffer(k, p, hw, ifNo), now, sp);
    }
  }

  // ----- Running minimum -----

  /** An offer and the clock reading at which it was heard. */
  datatype Heard = Heard(offer: Offer, now: int)

  /** The table of a node that starts empty and hears `hs` in order. */
  function Replay(hs: seq<Heard>, sp: int): Table {
    if hs == [] then map[]
    else Learn(Replay(hs[..|hs| - 1], sp), hs[|hs| - 1].offer, hs[|hs| - 1].now, sp)
  }

  predicate NeverStale(hs: seq<Heard>, sp: int) {
    forall i | 0 <= i < |hs| :: NoneStale(Replay(hs[..i], sp), hs[i].now, sp)
  }

  /** Offer `i` is the first one about `k` with the smallest hop count of all offers about `k`. */
  predicate FirstMinimum(hs: seq<Heard>, k: NodeId, i: int) {
    && 0 <= i < |hs|
    && hs[i].offer.key == k
    && (forall j | 0 <= j < |hs| && hs[j].offer.key == k :: hs[i].offer.hop <= hs[j].offer.hop)
    && (forall j | 0 <= j < i && hs[j].offer.key == k :: hs[i].offer.hop < hs[j].offer.hop)
  }

  function EntryFor(h: Heard): Entry {
    Entry(h.offer.key, h.offer.hw, h.offer.ifNo, h.offer.hop, h.now)
  }

  /** While nothing is stale the table is a running minimum: each key heard of has the smallest hop
      count heard for it, with the address, interface and time of the first packet that carried it,
      and keys never heard of are absent. */
  lemma {:induction false} RunningMinimum(hs: seq<Heard>, sp: int, k: NodeId)
    requires NeverStale(hs, sp)
    ensures k in Replay(hs, sp) <==> exists j :: 0 <= j < |hs| && hs[j].offer.key == k
    ensures k in Replay(hs, sp) ==> exists i :: FirstMinimum(hs, k, i) && Replay(hs, sp)[k] == EntryFor(hs[i])
  {
    var i := FirstHeard(hs, sp, k);
  }

  /** Which packet that is. */
  lemma {:induction false} FirstHeard(hs: seq<Heard>, sp: int, k: NodeId) returns (i: int)
    requires NeverStale(hs, sp)
    ensures k in Replay(hs, sp) ==> FirstMinimum(hs, k, i) && Replay(hs, sp)[k] == EntryFor(hs[i])
    ensures k !in Replay(hs, sp) ==> forall j | 0 <= j < |hs| :: hs[j].offer.key != k
  {
    i := -1;
    if hs != [] {
      var n := |hs| - 1;
      var front, h := hs[..n], hs[n];
      NeverStalePrefix(hs, sp);
      i := FirstHeard(front, sp, k);
      var t := Replay(front, sp);
      assert hs == front + [h] && Replay(hs, sp) == Learn(t, h.offer, h.now, sp);
      LearnEffect(t, h, sp, k);
      if k in t {
        FirstMinimumExtends(front, h, k, i);
        i := if h.offer.key == k && h.offer.hop < front[i].offer.hop then n else i;
      } else {
        i := n;
      }
    }
  }

  /** One fresh offer, seen from one key. */
  lemma LearnEffect(t: Table, h: Heard, sp: int, k: NodeId)
    requires NoneStale(t, h.now, sp) && (k in t ==> t[k].addr == k)
    ensures var t' := Learn(t, h.offer, h.now, sp);
            if h.offer.key != k then (k in t' <==> k in t) && (k in t ==> t'[k] == t[k])
            else k in t' && t'[k] == if k in t && t[k].hop <= h.offer.hop then t[k] else EntryFor(h)
  {
  }

  lemma NeverStalePrefix(hs: seq<Heard>, sp: int)
    requires hs != [] && NeverStale(hs, sp)
    ensures NeverStale(hs[..|hs| - 1], sp)
    ensures NoneStale(Replay(hs[..|hs| - 1], sp), hs[|hs| - 1].now, sp)
  {
    var front := hs[..|hs| - 1];
    forall i | 0 <= i < |front| ensures NoneStale(Replay(front[..i], sp), front[i].now, sp) {
      assert front[..i] == hs[..i];
    }
  }

  lemma FirstMinimumExtends(hs: seq<Heard>, h: Heard, k: NodeId, i: int)
    requires FirstMinimum(hs, k, i)
    ensures FirstMinimum(hs + [h], k, if h.offer.key == k && h.offer.hop < hs[i].offer.hop then |hs| else i)
  {
  }
}
