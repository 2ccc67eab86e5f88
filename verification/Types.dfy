/** The values the routing daemon passes around: packets, interfaces, table entries, node state.

    Canonical IP addresses and the node indexes that `get_index_from_ip` derives from them are
    identified, so a `NodeId` stands for both.  Hardware addresses are opaque numbers. */
module OdrTypes {

  type NodeId = int
  type Hw = int

  /** The hop count above which a packet is discarded. */
  const MAXH := 15

  /** The `recv_if_index` that no interface carries: broadcast on every interface. */
  const ALL_INTERFACES := -1

  datatype Option<+T> = None | Some(value: T)

  datatype Kind = Rreq | Rrep | Data | Unknown

  /** `struct odr_pack`.  Every packet carries both headers, whatever its kind. */
  datatype Packet = Packet(
    kind: Kind,
    dst: NodeId,
    src: NodeId,
    rreqHop: int,
    id: int,            // rreq.broadcast_id
    rreqForce: int,
    rrepSent: int,
    rrepHop: int,
    rrepId: int,
    rrepForce: int,
    payload: string,
    srcDest: int)

  /** An element of the interface list.  `node` and `seg` say where the interface is mounted and
      which segment it is plugged into; the daemon reads only `hw` and `ifNo`. */
  datatype Iface = Iface(hw: Hw, ifNo: int, node: NodeId, seg: int)

  /** What the routing table says about one key. */
  datatype Entry = Entry(addr: NodeId, hw: Hw, ifNo: int, hop: int, ts: int)

  type Table = map<NodeId, Entry>

  /** What one call sends: a frame to everybody on a segment, a frame to one hardware address,
      or the server's answer handed to the local client. */
  datatype Out =
    | Broadcast(via: Iface, pkt: Packet)
    | Unicast(via: Iface, to: Hw, pkt: Packet)
    | ToClient(text: string, server: NodeId)

  /** The daemon's variables: `rtbl`, `latest_rreq`, `running_broadcast_no`, `route_discovered`,
      `forced_discovery`, `msg`, the `source_packet` that survives from one client request to the
      next, and the staleness parameter `sp`. */
  datatype Node = Node(
    table: Table,
    latest: map<NodeId, int>,
    running: int,
    discovered: int,
    forced: int,
    msg: string,
    header: Packet,
    sp: int)

  /** What the outside world contributes to one call: the clock, and the local server's answer
      (`None` when it does not answer in time). */
  datatype Env = Env(now: int, answer: Option<string>)

  /** The value an `int` has after being stored in a signed 8-bit `char`. */
  function AsChar(x: int): (c: int)
    ensures -128 <= c <= 127
    ensures (c - x) % 256 == 0
    ensures c == x <==> -128 <= x <= 127
  {
    (x + 128) % 256 - 128
  }

  /** A slot of `latest_rreq`, which starts out all zero. */
  function Latest(st: Node, k: NodeId): int {
    if k in st.latest then st.latest[k] else 0
  }
}
