# On-demand routing, modelled and proved

This project models the link-layer on-demand routing daemon of the repository (`odr_aa19.c`, `rtbl.h`,
`list.h`) in Dafny and proves what its protocol keeps and achieves.

A node that wants to reach another one floods a route request; every node it passes notes the way back.
The destination, or a node that already has a route to it, answers with a reply, and the reply's way is
noted too. Payloads then follow the tables. The protocol resembles AODV (sections 6.3 and 6.5 to 6.7 of
RFC 3561) but has no sequence numbers: everything rests on hop counts that only fall, on the duplicate
guard, and on the limit MAXH = 15.

## Layers

| file | contents |
|---|---|
| `Types.dfy`, `TableSpec.dfy`, `NodeSpec.dfy` | packets and node variables as values; the table as a map; one call of `process_pack`, and one client request, as functions |
| `Ring.dfy`, `HashList.dfy` | list.h: the circular list and the `pprev` list, on the heap |
| `RoutingTable.dfy`, `Daemon.dfy` | the table as a ring of entries rewritten in place, and the daemon as a class; every method is proved equal to its function in the layer above |
| `Network.dfy` | nodes on shared segments, frames in flight, steps (deliver any frame, lose any frame, a client asks), runs |
| `Branches.dfy` | each branch of `process_pack` and of the client request, field by field and frame by frame |
| `Links.dfy`, `HopBounds.dfy`, `Drain.dfy`, `Forwarding.dfy`, `Releases.dfy` | what holds in every run, stale entries and payloads included |
| `LoopFreedom.dfy`, `ReplyDelivery.dfy`, `OfferedReplies.dfy`, `PayloadDelivery.dfy` | what holds in fresh runs; what becomes of the replies that intermediate nodes make |
| `Flood.dfy`, `Discovery.dfy`, `Service.dfy` | what one discovery achieves, up to the client's answer |
| `Limits.dfy` | exactly which steps keep next hops leading downhill, staleness and payload rewrites included |
| `Witnesses.dfy` | concrete runs from switching on in which guarantees end |

A *fresh run* is one in which no entry is stale when a packet is processed and payloads leave tables
alone; frames may still be lost and reordered at will, clients may ask at any time, and forced-discovery
flags are arbitrary. Node indexes and canonical addresses are identified. The clock and the local
server's answer are inputs of each step. `latest_rreq` is an array of `char`, so a stored id is
truncated to 8 bits; theorems that need ids to fit say so.

## Where the code and its documentation differ

- README.txt:62 and README.txt:123 say that an intermediate node with a route replies *to the client*.
  The code sends that reply along the node's route to the *server* (odr_aa19.c:310, 328).
  `IntermediateReplyDirection` says exactly when that is also the way to the client. What becomes of the
  reply otherwise depends on the neighbour that gets it: `OffersAreDelivered` says that a neighbour that
  is the source or has a route to it is enough, `UnhelpedOfferEnds` that without one the reply delivered
  next is the end of the matter, and `OfferSureIff` when the client gets a route *in every* fresh
  continuation that loses no reply. `ReplyLost` is a run from switching on, without loss or staleness, in
  which the client never gets a route; in `ReplySaved`, the same run up to the offer, the neighbour learns
  a route just before the reply arrives, and the client gets one after all.
- README.txt:107 says that stale entries are deleted. The code overwrites the next hop in place and keeps
  the smaller hop count (rtbl.h:71-84), and for a stale entry compares with the request header even when
  the packet is a reply (rtbl.h:179). `DescentKeptIff` says exactly which steps, of whatever kind,
  keep next hops leading downhill; `StaleRefreshLoops` is a run in which two nodes end up as each other's
  next hop.
- README.txt:160-161 says that a destination never receives a reply. It can: an intermediate node's reply
  goes to that node's next hop toward the destination (`OfferedReply`), and if that is the destination
  itself, as in `ReplyLost`, the destination is handed it. The model follows the code.
- The forced-discovery test reads the node's own variable, not the packet (odr_aa19.c:300-301). The model
  does the same: `ForcedByLastClient` says that an intermediate node floods or answers according to what
  *its own* last client asked for, from switching on, in every run. Theorems about delivery and loop freedom
  hold for every value of it; the ones about intermediate replies ask that the node does not flood instead.
- README.txt:59 says that a client whose node has a route gets its request sent at once. The payload sent
  is whatever `source_packet` holds, under the headers of the previous request; the client's message is only
  recorded, since the line that would copy it is commented out (odr_aa19.c:724). `ClientServed` says so.

## Model

| member | source | states |
|---|---|---|
| `TableSpec.SecondPassIsIdle` | rtbl.h:62-160 | after a request has updated the table its key is present, and running the same update again, as the code does for flagged requests, changes nothing, for every clock and staleness parameter |
| `TableSpec.UpdateIff` | rtbl.h:54-289 | the table after an update, in numbers, both directions: which key is named, that an entry written more than `sp` ago takes over the packet's address, interface and time with the smaller of its own and the request header's hop count, that any other changes only for a strictly smaller hop count, and who may add a key |
| `TableSpec.UpdateFrame` | rtbl.h:54-289 | updates never drop a key and change no other key than the one the packet names; payloads never add one |
| `TableSpec.PayloadKeepsTableIff` | rtbl.h:211-288 | exactly when a payload leaves the table as it is |
| `TableSpec.RunningMinimum` | rtbl.h:62-209 | after any sequence of updates in which nothing is stale, a key's entry is that of the first packet with the smallest hop count ever heard for it, and keys never heard of are absent |
| `NodeSpec.BroadcastCount` | odr_aa19.c:34-57 | a broadcast sends one frame on every interface but the one it must avoid |
| `NodeSpec.BroadcastOuts` | odr_aa19.c:34-57 | which frames a broadcast sends, both directions |
| `NodeSpec.SendOuts` | odr_aa19.c:82-107 | which frames a unicast sends, both directions |
| `NodeSpec.SendCount` | odr_aa19.c:82-121 | sending along a route sends exactly one frame when the route names an interface, and none otherwise |
| `NodeSpec.DuplicateIgnoredIff` | odr_aa19.c:294-297 | a node ignores a second copy of a request it has passed on if and only if the broadcast id is at most 127 |
| `NodeSpec.OwnRequestIgnoredIff` | odr_aa19.c:739-747 | a source ignores its own request coming back if and only if the id it has just used is at most 126 |
| `NodeSpec.IntermediateReplyDirection` | odr_aa19.c:306-336 | an intermediate node's reply sets out along its route to the destination, and toward the source if and only if both routes share interface and neighbour |
| `Branches.NothingHappens` | odr_aa19.c:244-246 | a packet beyond the hop limit, or of unknown kind, changes nothing and causes nothing |
| `Branches.RequestEnds` | odr_aa19.c:253-257 | a flagged request, or one that a node other than its destination has seen, only updates the table |
| `Branches.RequestAnswered` | odr_aa19.c:263-284 | the destination answers every other request with one reply, hop 1 and id 1, along its route to the source |
| `Branches.RequestFlooded` | odr_aa19.c:294-304 | a node without a route, or whose own client forced a discovery, floods an unseen request one hop longer on all other interfaces, once each, and does nothing else |
| `Branches.RequestOffered` | odr_aa19.c:305-336 | any other node sends one reply along its route to the destination and floods the request flagged, two hops longer, on every interface |
| `Branches.ReplyAtSource` | odr_aa19.c:354-367 | with the flag down a reply releases the message held, whatever its hop counts, and raises the flag; with the flag up it only updates the table |
| `Branches.ReplyElsewhere` | odr_aa19.c:369-403 | elsewhere it is passed on one hop longer if there is a route to the source |
| `Branches.PayloadAtSource` | odr_aa19.c:412-433 | every payload back at its source is handed to the client, whatever its direction |
| `Branches.PayloadAtDestination` | odr_aa19.c:435-486 | at its destination it is answered if the server answers and there is a route back |
| `Branches.PayloadElsewhere` | odr_aa19.c:489-524 | elsewhere it is passed on unchanged in its direction if there is a route |
| `Branches.ClientRecorded` | odr_aa19.c:675-747 | a client request records message and force, lowers the flag, uses up a number, and leaves exactly this request header behind |
| `Branches.ClientServed` | odr_aa19.c:719-757 | with a route and no force one payload goes along the route; otherwise the request is flooded on every interface |
| `Ring.Link.constructor` | list.h:69-71 | a new link is a ring of its own |
| `Ring.Insert` | list.h:79-87 | puts a link between two others, whose outer links stay |
| `Ring.Add` | list.h:97-100 | `list_add` prepends and keeps the ring well formed |
| `Ring.AddTail` | list.h:110-113 | `list_add_tail` appends |
| `Ring.Unlink` | list.h:123-127 | takes exactly one element out of the ring, without touching it |
| `Ring.Delete` | list.h:135-140 | `list_del` removes exactly one element and poisons it |
| `Ring.DeleteInit` | list.h:148-152 | `list_del_init` removes one element and leaves it a ring of its own |
| `Ring.Move` | list.h:159-163 | `list_move` within a list makes an element the first; items stay |
| `Ring.MoveTail` | list.h:170-175 | `list_move_tail` within a list makes an element the last; items stay |
| `Ring.MoveAcross` | list.h:159-163 | `list_move` between lists removes from one and prepends to the other; items stay |
| `Ring.Splice` | list.h:186-209 | `list_splice` puts one list's elements in front of the other's; items stay |
| `Ring.SpliceInit` | list.h:218-225 | the same, leaving the first list empty |
| `Ring.VisitReverse` | list.h:295-298 | reverse iteration meets the elements last to first, each once |
| `Ring.BuildAndVisit` | list.h:97-100 | a list built by `list_add` is visited in reverse in the order in which it was built |
| `Ring.DeleteEach` | list.h:329-333 | safe iteration visits every original element once, in order, even when each is deleted |
| `HashList.Head.constructor` | list.h:381-383 | a new list is empty |
| `HashList.Node.constructor` | list.h:384 | a new element is in no list |
| `HashList.PprevIsTheCell` | list.h:373-379 | `pprev` designates the pointer variable that points to the element, and no other one does |
| `HashList.AddHead` | list.h:421-429 | prepends and keeps every `pprev` right |
| `HashList.AddBefore` | list.h:434-441 | inserts before any element, first or not |
| `HashList.AddAfter` | list.h:443-452 | inserts after any element |
| `HashList.Unhash` | list.h:396-403 | removes exactly the given element without knowing whether it is the first |
| `HashList.Delete` | list.h:405-410 | the same, and poisons the element |
| `HashList.DeleteInit` | list.h:413-419 | the same, and does nothing to an element that is in no list |
| `RoutingTables.TableOfReplaced` | rtbl.h:67-95 | rewriting the one route with a key rewrites that key's entry in the map and nothing else |
| `RoutingTables.RoutingTable.constructor` | odr_aa19.c:619-620 | the table starts empty |
| `RoutingTables.RoutingTable.Find` | list.h:295-298 | the reverse scan stops at the entry with the key, or at the head exactly when the map has no such key |
| `RoutingTables.RoutingTable.Exists` | rtbl.h:43-51 | finds a key exactly when the map has it |
| `RoutingTables.RoutingTable.Get` | rtbl.h:292-319 | finds a key exactly when the map has it, and then returns the map's next hop, interface and hop count |
| `RoutingTables.RoutingTable.Refresh` | rtbl.h:67-95 | the in-place loop has the effect of `Touch` on the map, and reports staleness |
| `RoutingTables.RoutingTable.Insert` | rtbl.h:98-107 | inserting at the front of the ring adds one key and keeps keys unique |
| `RoutingTables.RoutingTable.Update` | rtbl.h:54-289 | `update_rtbl_entry`, second pass included, has the effect of `Updated` on the map and keeps ring and keys well formed |
| `Daemon.OdrDaemon.constructor` | odr_aa19.c:612-625 | the daemon starts with empty table, zeroed slots and broadcast number 1: the state in which runs from switching on find every node; no message is held and no discovery is forced |
| `Daemon.OdrDaemon.ListInterfaces` | odr_aa19.c:142-169 | the interface ring, read in reverse, lists interfaces in the order found |
| `Daemon.OdrDaemon.BroadcastLinkLayer` | odr_aa19.c:17-64 | refines `BroadcastAll` |
| `Daemon.OdrDaemon.SendLinkLayer` | odr_aa19.c:67-112 | refines `SendOn` |
| `Daemon.OdrDaemon.SendPayload` | odr_aa19.c:114-127 | the nested loops over table and interfaces send along the one matching route, or nothing |
| `Daemon.OdrDaemon.ReceiveRequest` | odr_aa19.c:248-343 | refines `OnRequest`; never reports failure |
| `Daemon.OdrDaemon.ReceiveReply` | odr_aa19.c:344-406 | refines `OnReply`; never reports failure |
| `Daemon.OdrDaemon.ReceivePayload` | odr_aa19.c:407-526 | refines `OnPayload`; never reports failure |
| `Daemon.OdrDaemon.ProcessPack` | odr_aa19.c:234-535 | new variables and frames sent are those of `Process`; it reports -1, which ends the daemon, exactly for packets of unknown kind |
| `Daemon.OdrDaemon.ClientRequest` | odr_aa19.c:671-757 | new variables and frames sent are those of `Request` |
| `Network.ProcessOuts` | odr_aa19.c:234-535 | every frame that a call sends is one of eight kinds: answer, flood, offered reply, flagged flood, first payload, forwarded reply, forwarded or answered payload, message to the client |
| `Links.SaneStep` | odr_aa19.c:45-49 | every step keeps: each entry names one of the node's interfaces and the address of another interface on its segment, and each frame joins two such interfaces |
| `Links.SaneRun` | odr_aa19.c:635-668 | so it is in every reachable state |
| `Links.SendOverLink` | odr_aa19.c:82-107 | sending along an entry puts exactly one frame in flight, to the interface the entry names |
| `Links.UnicastsReachNeighbours` | odr_aa19.c:82-107 | every unicast frame of every step is heard by exactly the neighbour it is addressed to |
| `HopBounds.HopsBoundedStep` | odr_aa19.c:244-246 | hop bounds survive every step, stale refreshes, payloads and the double increment included |
| `HopBounds.HopsBoundedRun` | odr_aa19.c:244-336 | in every run stored hops stay in 1..MAXH, request hops in 1..MAXH+2, reply hops in 1..MAXH+1 |
| `Drain.RequestLoad` | odr_aa19.c:253-336 | what a request puts in flight weighs less than the request: flood, answer, or offered reply plus flagged flood |
| `Drain.ReactionLoad` | odr_aa19.c:244-405 | every delivery of a request or reply lowers the load in flight; payloads add none |
| `Drain.ControlDrains` | odr_aa19.c:244-405 | without client requests, the requests and replies ever delivered number at most the load at the start, from any tables, in any order |
| `Forwarding.IdsIssuedStep` | odr_aa19.c:739-747 | requests in flight carry ids their source has issued, and the source's own slot is ahead of all of them |
| `Forwarding.NeverForwardsOwn` | odr_aa19.c:294-298 | a source never forwards its own request, as long as ids fit |
| `Forwarding.ForwardsAtMostOnce` | odr_aa19.c:294-298 | the ids a node forwards for one source strictly increase over the whole run, as long as ids fit |
| `Forwarding.ForwardsAtMostOnceFromStart` | odr_aa19.c:612-625 | in particular in every run from switching on |
| `Forwarding.PayloadsComeFromReleases` | odr_aa19.c:354-367 | what a request or reply causes to be sent is a payload exactly when a reply reaches its source with the flag down, and is then the message held, for the node the reply speaks of |
| `Releases.LastClientIsRecorded` | odr_aa19.c:685-747 | at every moment of every run a node holds message, forced flag and destination of its last client, and has used up one broadcast number for each; the staleness parameter stays |
| `Releases.NothingForcedAtFirst` | common.h:34 | from switching on, no discovery is forced and no message held before the first client |
| `Releases.ForcedByLastClient` | odr_aa19.c:298-336 | in every run from switching on, a node that has not seen a request floods it unflagged, and does nothing else, if its own last client forced a discovery or it has no route; otherwise it offers its route and floods flagged |
| `Releases.FlagTellsArrival` | odr_aa19.c:354-367 | from switching on, the discovery flag is up if and only if a reply has arrived at its source since the last client asked |
| `Releases.ReleaseSendsPayload` | odr_aa19.c:354-367 | in every sound state, stale or not: a reply that reaches its source with the flag down puts exactly one frame in flight, the payload with the message held, over the link that the updated entry names |
| `Releases.PayloadSentIff` | odr_aa19.c:248-405 | a request or reply puts a payload in flight if and only if it is such a reply |
| `Releases.TrafficWasAskedFor` | odr_aa19.c:698-712 | from switching on, everything in flight goes back to a client of its source that asked for its destination |
| `Releases.FirstReplyReleases` | odr_aa19.c:344-367 | in every run from switching on, the first reply to arrive after each client request puts exactly one payload in flight, with that client's message, and later ones put nothing |
| `Forwarding.OnePayloadPerRequest` | odr_aa19.c:354-367 | however many replies arrive, they release at most one payload per client request, plus one if the flag is down at the start |
| `LoopFreedom.BackwardStep` | rtbl.h:86-107 | every fresh step keeps: whoever announces k at h hops is k or holds a shorter route, in tables and in flight |
| `LoopFreedom.ChainReaches` | rtbl.h:86-107 | following next hops reaches the key over real links within the recorded hop count |
| `LoopFreedom.ChainHasNoRepeats` | rtbl.h:86-107 | no node occurs twice on the way |
| `LoopFreedom.LoopFree` | odr_aa19.c:248-405 | both, at every moment of every fresh run from switching on, under any loss, order and forcing |
| `LoopFreedom.HopsAreUpperBounds` | rtbl.h:186-208 | a recorded hop count is never below the true distance |
| `ReplyDelivery.AnswerOnCourse` | odr_aa19.c:263-284 | a destination's answer goes out as one frame to a node that is the source or has a route to it, with hop budget to spare |
| `ReplyDelivery.ForwardedOnCourse` | odr_aa19.c:384-403 | such a reply is never dropped and is passed on as one such reply, strictly nearer to the source |
| `ReplyDelivery.RepliesAreDelivered` | odr_aa19.c:263-403 | in a fresh run that loses no reply between the two, once the destination has answered and no such reply is in flight, the source holds a route |
| `OfferedReplies.OfferedReply` | odr_aa19.c:306-336 | an intermediate node's answer puts exactly one reply in flight, made from its entry, to its next hop toward the destination |
| `OfferedReplies.OnCourseArrives` | odr_aa19.c:369-403 | a reply whose receiver is the source or holds a route to it, with budget to spare, gets there in every fresh continuation that loses no reply |
| `OfferedReplies.OffersAreDelivered` | odr_aa19.c:306-328 | in a fresh run from switching on that loses no reply between the two, once an offer has gone to a next hop that is the source or holds a route to it, within the hop budgets, and no such reply is in flight, the source holds a route |
| `OfferedReplies.ReplyPassedOnIff` | odr_aa19.c:369-403 | a reply that has not arrived is passed on if and only if it is within the hop limit and its receiver has a route to the source; only the receiver changes |
| `OfferedReplies.UnhelpedOfferEnds` | odr_aa19.c:306-403 | an offer to a next hop that is neither the source nor has a route to it, delivered next, puts nothing in flight and leaves the source as it is |
| `OfferedReplies.OfferSureIff` | odr_aa19.c:306-403 | the source is sure of a route, in every fresh continuation that loses no reply, if the next hop helps, and only if it is the source or holds a route whose real way is within the reply's budget; an equivalence when that way is as long as recorded |
| `PayloadDelivery.Travels` | odr_aa19.c:489-524 | a payload goes hop by hop to its end, one frame at a time, never meeting a node without a route nor its other end again, within the recorded hop count |
| `PayloadDelivery.RoundTrip` | odr_aa19.c:442-524 | payload and answer both arrive, and the client is handed the server's answer |
| `PayloadDelivery.AnsweredWithinHops` | odr_aa19.c:407-526 | the same as a run of the network: after at most the two hop counts together nothing is in flight and the client has its answer |
| `Flood.CopiesAreNotDropped` | odr_aa19.c:244-246 | in a network of at most MAXH + 1 nodes no copy of a flood reaches the hop limit |
| `Flood.FloodInvStep` | odr_aa19.c:286-343 | the flood's bookkeeping survives every step, other discoveries, staleness and payloads included |
| `Flood.FloodCoversStep` | odr_aa19.c:294-304 | neither dropping duplicates nor skipping the arrival interface loses anyone: neighbours of flooding nodes stay told |
| `Flood.FloodCoverage` | odr_aa19.c:294-304 | when a lossless flood is over, every neighbour of a flooding node holds a route to the source, and the destination, or a node that did not flood it because it holds a route to the destination, has processed the request |
| `Discovery.SoleInvStep` | odr_aa19.c:248-405 | in a lone discovery nobody offers a route, every reply is on course, and a destination with a route has answered |
| `Discovery.DiscoverySucceeds` | odr_aa19.c:248-405 | a lone lossless discovery ends with source and destination holding routes to each other, in any delivery order |
| `Discovery.DiscoveryServes` | odr_aa19.c:344-526 | and the payload sent then is answered |
| `Discovery.OrderInvStep` | odr_aa19.c:294-304 | breadth-first order of levels and copies survives every step that delivers copies in hop order |
| `Discovery.ShortestPath` | rtbl.h:87-107 | if copies are processed in hop order, the destination records exactly the distance to the source, and its next hops are a shortest path |
| `Service.PayloadsLeaveTablesAlone` | rtbl.h:211-288 | in such a discovery no payload, released or answered, rewrites a table: every step is fresh, which is proved and not assumed |
| `Service.ServiceInvStep` | odr_aa19.c:344-526 | every step keeps: levels are exact, replies and the entries they leave count exactly the hops to the destination, and payloads have a way to go |
| `Service.CalmRunsAreFresh` | rtbl.h:211-288 | so a run in which nothing else is assumed about payloads is a fresh one |
| `Service.ClientIsAnswered` | odr_aa19.c:344-526 | from the client's question on, with copies in hop order and nothing lost or stale: once nothing is in flight the client has been handed the server's answer, and both ends hold exactly their distance |
| `Limits.HopsNeverRise` | rtbl.h:71-93 | in every run, stale refreshes and payloads included, a route once held is kept and its hop count never rises |
| `Limits.SafeMeans` | rtbl.h:62-289 | a delivery that rewrites an entry is safe, judged by the state before it, exactly when the new entry is backed by its new neighbour and so is the reply that the node passes on |
| `Limits.DescentKeptIff` | rtbl.h:62-289 | with stale entries, payloads and every kind of packet: a step keeps next hops leading downhill if and only if it is not an unsafe rewrite |
| `Limits.RequestSafeIff` | rtbl.h:71-93 | a request rewrites safely if and only if the entry is fresh, or keeps its neighbour, or the sender is the key or nearer to it |
| `Witnesses.StaleRefreshLoops` | rtbl.h:71-84 | a run from switching on, without loss, in which stale refreshes make two nodes each other's next hop |
| `Witnesses.CachedPayloadUndercuts` | rtbl.h:237-243 | a run from switching on, nothing lost or stale, in which a payload sent from the table makes a node record one hop to a node two hops off |
| `Witnesses.ReplyLost` | odr_aa19.c:310-328 | a fresh run from switching on, without loss, in which an intermediate node answers, the destination is handed the reply, and the client never gets a route |
| `Witnesses.ReplySaved` | odr_aa19.c:329-336 | the same run up to the offer, which is not helped when it is sent; the flagged request gets to the neighbour first, and the client gets its route |
| `Witnesses.RowCanDiscover` | odr_aa19.c:671-757 | the hypotheses about the start of a lone discovery are met by three nodes just switched on |

## Left out

- Sockets, `select`, `ioctl`, host name lookups, string handling and printing: sends succeed, and addresses are node indexes.
- Node restarts, and deliveries of a unicast frame to anybody but its addressee.
- `ProcessPack`: the packet is a local value that is rewritten step by step; that the caller's buffer is overwritten too is not captured (the caller discards it).
- `SaneRun`: speaks of runs from a structurally sound start; a network just switched on is one (`SwitchedOnIsSound`).
- `HopsBoundedRun`: assumes that the bytes which `source_packet` holds before the first client request are within bounds; after it they are.
- `DiscoverySucceeds`: speaks of a discovery in a network that knows neither end yet and runs no other discovery; with routes about, `ReplyLost` shows that it fails.
- `OfferSureIff`: the sufficient condition goes by the next hop's recorded hop count, the necessary one by the length of its real way; when the way has become shorter than recorded and the reply's budget lies between the two, the outcome depends on what later floods can make of the nodes on the way, and nothing is claimed.
- `ClientIsAnswered`: assumes that copies of the request are processed in hop order; without it, `DiscoverySucceeds` and `DiscoveryServes` say what is left, and nothing is claimed about payloads rewriting entries.
- `FloodCoverage`: speaks of floods that lose no copy, and whose source asks nothing else meanwhile.
- `ForwardsAtMostOnce`: assumes broadcast numbers up to 127; `DuplicateIgnoredIff` and `OwnRequestIgnoredIff` say exactly how it fails beyond.
- `hlist_for_each` and the remaining iteration macros of list.h: the same loops as the ones modelled.
- NULL and the poison pointer are one value in `Link.next`, `Link.prev` and `Node.next`; in `pprev` they are told apart.
- The client and server programs, and the superseded `odr.c`.
