/** Concrete runs, from switching on, that end where the guarantees of the other files do. */
module Witnesses {
  import opened OdrTypes
  import opened TableSpec
  import opened NodeSpec
  import opened Network
  import opened Links
  import opened LoopFreedom
  import opened Flood
  import opened Discovery
  import opened OfferedReplies

  // ----- Extending a run -----

  lemma OneMore(w: Wiring, tr: seq<Net>, ls: seq<Label>, l: Label) returns (tr': seq<Net>, ls': seq<Label>)
    requires Run(w, tr, ls) && Enabled(tr[|ls|], l)
    ensures Run(w, tr', ls') && tr' == tr + [Next(w, tr[|ls|], l)] && ls' == ls + [l]
  {
    tr', ls' := tr + [Next(w, tr[|ls|], l)], ls + [l];
    forall i | 0 <= i < |ls'| ensures Enabled(tr'[i], ls'[i]) && tr'[i + 1] == Next(w, tr'[i], ls'[i]) {
      if i < |ls| {
        assert tr'[i] == tr[i] && tr'[i + 1] == tr[i + 1] && ls'[i] == ls[i];
      }
    }
  }

  /** The same for fresh runs; the new last state is `net`. */
  lemma OneMoreFresh(w: Wiring, tr: seq<Net>, ls: seq<Label>, l: Label, net: Net)
    returns (tr': seq<Net>, ls': seq<Label>)
    requires FreshRun(w, tr, ls) && Enabled(tr[|ls|], l) && FreshStep(tr[|ls|], l) && net == Next(w, tr[|ls|], l)
    ensures FreshRun(w, tr', ls') && tr' == tr + [net] && ls' == ls + [l]
  {
    tr', ls' := OneMore(w, tr, ls, l);
    forall i | 0 <= i < |ls'| ensures FreshStep(tr'[i], ls'[i]) {
      if i < |ls| {
        assert tr'[i] == tr[i] && ls'[i] == ls[i];
      }
    }
  }

  /** A daemon just started: staleness parameter 60, everything else empty. */
  const BLANK := Packet(Data, 0, 0, 1, 0, 0, 0, 0, 0, 0, "", 0)

  const IDLE := Node(map[], map[], 1, 0, 0, "", BLANK, 60)

  /** Networks here have nodes 0, 1 and 2, and never force a discovery. */
  ghost predicate Trio(net: Net, t0: Table, t1: Table, t2: Table, flight: seq<Frame>) {
    && net.nodes.Keys == {0, 1, 2}
    && net.nodes[0].table == t0 && net.nodes[1].table == t1 && net.nodes[2].table == t2
    && (forall n | n in {0, 1, 2} :: net.nodes[n].sp == 60 && net.nodes[n].forced == 0)
    && net.flight == flight
  }

  const START := Net(map[0 := IDLE, 1 := IDLE, 2 := IDLE], [])

  // ----- Three nodes in a row -----

  /** 0 and 1 share a segment, 1 and 2 another. */
  const P0 := Iface(10, 2, 0, 100)
  const P1 := Iface(11, 2, 1, 100)
  const Q1 := Iface(21, 3, 1, 200)
  const Q2 := Iface(22, 2, 2, 200)
  const Row: Wiring := [P0, P1, Q1, Q2]

  lemma Unfold(f: Iface, rest: Wiring)
    ensures forall hw :: Owner([f] + rest, hw) == if f.hw == hw then f.node else Owner(rest, hw)
    ensures forall n :: IfacesOf([f] + rest, n) == (if f.node == n then [f] else []) + IfacesOf(rest, n)
    ensures forall o: Out | !o.ToClient? ::
              Spread([f] + rest, o) == (if Hears(f, o) then [Frame(o.via, f, o.pkt)] else []) + Spread(rest, o)
  {
    assert ([f] + rest)[1..] == rest;
  }

  lemma NothingUnfolds()
    ensures forall hw :: Owner([], hw) == -1
    ensures forall n :: IfacesOf([], n) == []
    ensures forall o :: Spread([], o) == []
  {
  }

  lemma RowUnfolds()
    ensures forall hw :: Owner(Row, hw) == if hw == 10 then 0 else if hw == 11 || hw == 21 then 1 else if hw == 22 then 2 else -1
    ensures forall n :: IfacesOf(Row, n) == if n == 0 then [P0] else if n == 1 then [P1, Q1] else if n == 2 then [Q2] else []
    ensures forall o: Out | !o.ToClient? ::
              Spread(Row, o)
              == (if Hears(P0, o) then [Frame(o.via, P0, o.pkt)] else []) + (if Hears(P1, o) then [Frame(o.via, P1, o.pkt)] else [])
                 + (if Hears(Q1, o) then [Frame(o.via, Q1, o.pkt)] else []) + (if Hears(Q2, o) then [Frame(o.via, Q2, o.pkt)] else [])
  {
    NothingUnfolds();
    hide Owner, IfacesOf, Spread;
    var w2: Wiring := [Q2] + [];
    var w1 := [Q1] + w2;
    var w0 := [P1] + w1;
    Unfold(Q2, []);
    Unfold(Q1, w2);
    Unfold(P1, w1);
    Unfold(P0, w0);
    assert Row == [P0] + w0;
  }

  lemma RowIsWired()
    ensures SwitchedOn(Row, START)
    ensures Owner(Row, 10) == 0 && Owner(Row, 11) == 1 && Owner(Row, 21) == 1 && Owner(Row, 22) == 2
    ensures IfacesOf(Row, 0) == [P0] && IfacesOf(Row, 1) == [P1, Q1] && IfacesOf(Row, 2) == [Q2]
  {
    RowUnfolds();
  }

  lemma One(w: Wiring, o: Out)
    ensures SpreadAll(w, [o]) == Spread(w, o)
  {
    assert SpreadAll(w, [o]) == Spread(w, o) + SpreadAll(w, []);
  }

  /** Everything that is ever sent in a row. */
  lemma RowSends(p: Packet)
    ensures SpreadAll(Row, SendOn([P0], p, 11, 2)) == [Frame(P0, P1, p)]
    ensures SpreadAll(Row, SendOn([P1, Q1], p, 10, 2)) == [Frame(P1, P0, p)]
    ensures SpreadAll(Row, SendOn([P1, Q1], p, 22, 3)) == [Frame(Q1, Q2, p)]
    ensures SpreadAll(Row, SendOn([Q2], p, 21, 2)) == [Frame(Q2, Q1, p)]
  {
    RowUnfolds();
    assert [P1, Q1][1..] == [Q1];
    assert SendOn([Q1], p, 10, 2) == [] && SendOn([Q1], p, 22, 3) == [Unicast(Q1, 22, p)];
    One(Row, Unicast(P0, 11, p));
    One(Row, Unicast(P1, 10, p));
    One(Row, Unicast(Q1, 22, p));
    One(Row, Unicast(Q2, 21, p));
  }

  lemma RowFloods(p: Packet)
    ensures SpreadAll(Row, BroadcastAll([P0], p, ALL_INTERFACES)) == [Frame(P0, P1, p)]
    ensures SpreadAll(Row, BroadcastAll([Q2], p, ALL_INTERFACES)) == [Frame(Q2, Q1, p)]
    ensures SpreadAll(Row, BroadcastAll([P1, Q1], p, 2)) == [Frame(Q1, Q2, p)]
    ensures SpreadAll(Row, BroadcastAll([P1, Q1], p, ALL_INTERFACES)) == [Frame(P1, P0, p), Frame(Q1, Q2, p)]
  {
    RowUnfolds();
    assert [P1, Q1][1..] == [Q1];
    var a, b := Broadcast(P1, p), Broadcast(Q1, p);
    assert BroadcastAll([Q1], p, 2) == [b] && BroadcastAll([Q1], p, ALL_INTERFACES) == [b];
    assert BroadcastAll([P1, Q1], p, ALL_INTERFACES) == [a, b];
    assert [a, b][1..] == [b];
    One(Row, Broadcast(P0, p));
    One(Row, Broadcast(Q2, p));
    One(Row, b);
    assert SpreadAll(Row, [a, b]) == Spread(Row, a) + SpreadAll(Row, [b]);
  }

  // ----- A cached payload undercuts a hop count -----

  const NOW0 := Env(0, None)

  const R1 := Packet(Rreq, 2, 0, 1, 1, 0, 0, -1, -1, -1, "", 0)
  const R2 := R1.(rreqHop := 2)
  const REPLY1 := Packet(Rrep, 2, 0, 2, 1, 0, 0, 1, 1, 0, "", 0)
  const REPLY2 := REPLY1.(rrepHop := 2)
  const FIRST := REPLY2.(kind := Data, srcDest := 1)
  const CACHED := R1.(kind := Data, srcDest := 1)

  const TO0_AT1 := Entry(0, 10, 2, 1, 0)
  const TO2_AT1 := Entry(2, 22, 3, 1, 0)
  const TO0_AT2 := Entry(0, 21, 2, 2, 0)
  const TO2_AT0 := Entry(2, 11, 2, 2, 0)

  /** Node 0 asks for node 2. */
  lemma Cached1(net: Net)
    requires net == START
    ensures var l := Ask(0, 2, 0, "");
            Enabled(net, l) && FreshStep(net, l) &&
            var net' := Next(Row, net, l);
            Trio(net', map[], map[], map[], [Frame(P0, P1, R1)])
            && net'.nodes[1] == IDLE && net'.nodes[2] == IDLE
            && net'.nodes[0] == IDLE.(running := 2, latest := map[0 := 2], header := R1)
  {
    hide SpreadAll, SendOn, BroadcastAll, IfacesOf;
    RowIsWired();
    RowFloods(R1);
  }

  /** Node 1 floods it on. */
  lemma Cached2(net: Net)
    requires Trio(net, map[], map[], map[], [Frame(P0, P1, R1)]) && net.nodes[1] == IDLE
    ensures Enabled(net, Deliver(0, NOW0)) && FreshStep(net, Deliver(0, NOW0)) &&
            var net' := Next(Row, net, Deliver(0, NOW0));
            Trio(net', map[], map[0 := TO0_AT1], map[], [Frame(Q1, Q2, R2)])
            && net'.nodes[0] == net.nodes[0] && net'.nodes[2] == net.nodes[2]
  {
    hide SpreadAll, SendOn, BroadcastAll, IfacesOf;
    RowIsWired();
    RowFloods(R2);
  }

  /** Node 2 answers. */
  lemma Cached3(net: Net)
    requires Trio(net, map[], map[0 := TO0_AT1], map[], [Frame(Q1, Q2, R2)])
    ensures Enabled(net, Deliver(0, NOW0)) && FreshStep(net, Deliver(0, NOW0)) &&
            var net' := Next(Row, net, Deliver(0, NOW0));
            Trio(net', map[], map[0 := TO0_AT1], map[0 := TO0_AT2], [Frame(Q2, Q1, REPLY1)])
            && net'.nodes[0] == net.nodes[0]
  {
    hide SpreadAll, SendOn, BroadcastAll, IfacesOf;
    RowIsWired();
    RowSends(REPLY1);
  }

  /** Node 1 passes the reply on. */
  lemma Cached4(net: Net)
    requires Trio(net, map[], map[0 := TO0_AT1], map[0 := TO0_AT2], [Frame(Q2, Q1, REPLY1)])
    ensures Enabled(net, Deliver(0, NOW0)) && FreshStep(net, Deliver(0, NOW0)) &&
            var net' := Next(Row, net, Deliver(0, NOW0));
            Trio(net', map[], map[0 := TO0_AT1, 2 := TO2_AT1], map[0 := TO0_AT2], [Frame(P1, P0, REPLY2)])
            && net'.nodes[0] == net.nodes[0]
  {
    hide SpreadAll, SendOn, BroadcastAll, IfacesOf;
    RowIsWired();
    RowSends(REPLY2);
  }

  /** Node 0 sends its payload. */
  lemma Cached5(net: Net)
    requires Trio(net, map[], map[0 := TO0_AT1, 2 := TO2_AT1], map[0 := TO0_AT2], [Frame(P1, P0, REPLY2)])
    requires net.nodes[0].discovered == 0 && net.nodes[0].msg == ""
    ensures Enabled(net, Deliver(0, NOW0)) && FreshStep(net, Deliver(0, NOW0)) &&
            var net' := Next(Row, net, Deliver(0, NOW0));
            Trio(net', map[2 := TO2_AT0], map[0 := TO0_AT1, 2 := TO2_AT1], map[0 := TO0_AT2], [Frame(P0, P1, FIRST)])
            && net'.nodes[0].header == net.nodes[0].header
  {
    hide SpreadAll, SendOn, BroadcastAll, IfacesOf;
    RowIsWired();
    RowSends(FIRST);
  }

  /** Node 1 passes a payload on. */
  lemma Cached6(net: Net, p: Packet)
    requires Trio(net, map[2 := TO2_AT0], map[0 := TO0_AT1, 2 := TO2_AT1], map[0 := TO0_AT2], [Frame(P0, P1, p)])
    requires p == FIRST || p == CACHED
    ensures Enabled(net, Deliver(0, NOW0)) && FreshStep(net, Deliver(0, NOW0)) &&
            var net' := Next(Row, net, Deliver(0, NOW0));
            Trio(net', map[2 := TO2_AT0], map[0 := TO0_AT1, 2 := TO2_AT1], map[0 := TO0_AT2], [Frame(Q1, Q2, p)])
            && net'.nodes[0].header == net.nodes[0].header
  {
    hide SpreadAll, SendOn, BroadcastAll, IfacesOf;
    RowIsWired();
    RowSends(p);
  }

  /** Node 2 receives the first payload; its server stays silent. */
  lemma Cached7(net: Net)
    requires Trio(net, map[2 := TO2_AT0], map[0 := TO0_AT1, 2 := TO2_AT1], map[0 := TO0_AT2], [Frame(Q1, Q2, FIRST)])
    ensures Enabled(net, Deliver(0, NOW0)) && FreshStep(net, Deliver(0, NOW0)) &&
            var net' := Next(Row, net, Deliver(0, NOW0));
            Trio(net', map[2 := TO2_AT0], map[0 := TO0_AT1, 2 := TO2_AT1], map[0 := TO0_AT2], [])
            && net'.nodes[0].header == net.nodes[0].header
  {
  }

  /** Node 0 asks again, and sends from its table. */
  lemma Cached8(net: Net)
    requires Trio(net, map[2 := TO2_AT0], map[0 := TO0_AT1, 2 := TO2_AT1], map[0 := TO0_AT2], [])
    requires net.nodes[0].header == R1
    ensures var l := Ask(0, 2, 0, "");
            Enabled(net, l) && FreshStep(net, l) &&
            Trio(Next(Row, net, l), map[2 := TO2_AT0], map[0 := TO0_AT1, 2 := TO2_AT1], map[0 := TO0_AT2], [Frame(P0, P1, CACHED)])
  {
    hide SpreadAll, SendOn, BroadcastAll, IfacesOf;
    RowIsWired();
    RowSends(CACHED);
  }

  /** Node 2 believes the header. */
  lemma Cached10(net: Net)
    requires Trio(net, map[2 := TO2_AT0], map[0 := TO0_AT1, 2 := TO2_AT1], map[0 := TO0_AT2], [Frame(Q1, Q2, CACHED)])
    ensures Enabled(net, Deliver(0, NOW0)) && NoneStale(net.nodes[2].table, 0, 60)
    ensures Trio(Next(Row, net, Deliver(0, NOW0)), map[2 := TO2_AT0], map[0 := TO0_AT1, 2 := TO2_AT1], map[0 := TO0_AT2.(hop := 1)], [])
  {
  }

  lemma CachedRun0() returns (tr: seq<Net>, ls: seq<Label>)
    ensures FreshRun(Row, tr, ls) && tr[0] == START && Lossless(ls) && |ls| == 2
    ensures Trio(tr[2], map[], map[0 := TO0_AT1], map[], [Frame(Q1, Q2, R2)])
    ensures tr[2].nodes[0] == IDLE.(running := 2, latest := map[0 := 2], header := R1)
  {
    hide Next;
    RowIsWired();
    Cached1(START);
    var n1 := Next(Row, START, Ask(0, 2, 0, ""));
    tr, ls := OneMoreFresh(Row, [START], [], Ask(0, 2, 0, ""), n1);
    Cached2(n1);
    tr, ls := OneMoreFresh(Row, tr, ls, Deliver(0, NOW0), Next(Row, n1, Deliver(0, NOW0)));
  }

  lemma CachedRun1() returns (tr: seq<Net>, ls: seq<Label>)
    ensures FreshRun(Row, tr, ls) && tr[0] == START && Lossless(ls) && |ls| == 3
    ensures Trio(tr[3], map[], map[0 := TO0_AT1], map[0 := TO0_AT2], [Frame(Q2, Q1, REPLY1)])
    ensures tr[3].nodes[0] == IDLE.(running := 2, latest := map[0 := 2], header := R1)
  {
    hide Next;
    tr, ls := CachedRun0();
    Cached3(tr[2]);
    tr, ls := OneMoreFresh(Row, tr, ls, Deliver(0, NOW0), Next(Row, tr[2], Deliver(0, NOW0)));
  }

  lemma CachedRun2() returns (tr: seq<Net>, ls: seq<Label>)
    ensures FreshRun(Row, tr, ls) && tr[0] == START && Lossless(ls) && |ls| == 5
    ensures Trio(tr[5], map[2 := TO2_AT0], map[0 := TO0_AT1, 2 := TO2_AT1], map[0 := TO0_AT2], [Frame(P0, P1, FIRST)])
    ensures tr[5].nodes[0].header == R1
  {
    hide Next;
    tr, ls := CachedRun1();
    var n3 := tr[3];
    Cached4(n3);
    var n4 := Next(Row, n3, Deliver(0, NOW0));
    tr, ls := OneMoreFresh(Row, tr, ls, Deliver(0, NOW0), n4);
    Cached5(n4);
    tr, ls := OneMoreFresh(Row, tr, ls, Deliver(0, NOW0), Next(Row, n4, Deliver(0, NOW0)));
  }

  lemma CachedRun3() returns (tr: seq<Net>, ls: seq<Label>)
    ensures FreshRun(Row, tr, ls) && tr[0] == START && Lossless(ls) && |ls| == 7
    ensures Trio(tr[7], map[2 := TO2_AT0], map[0 := TO0_AT1, 2 := TO2_AT1], map[0 := TO0_AT2], [])
    ensures tr[7].nodes[0].header == R1
  {
    hide Next;
    tr, ls := CachedRun2();
    var n5 := tr[5];
    Cached6(n5, FIRST);
    var n6 := Next(Row, n5, Deliver(0, NOW0));
    tr, ls := OneMoreFresh(Row, tr, ls, Deliver(0, NOW0), n6);
    Cached7(n6);
    tr, ls := OneMoreFresh(Row, tr, ls, Deliver(0, NOW0), Next(Row, n6, Deliver(0, NOW0)));
  }

  lemma CachedRun4() returns (tr: seq<Net>, ls: seq<Label>)
    ensures FreshRun(Row, tr, ls) && tr[0] == START && Lossless(ls) && |ls| == 9
    ensures Trio(tr[9], map[2 := TO2_AT0], map[0 := TO0_AT1, 2 := TO2_AT1], map[0 := TO0_AT2], [Frame(Q1, Q2, CACHED)])
  {
    hide Next;
    tr, ls := CachedRun3();
    var n7 := tr[7];
    Cached8(n7);
    var n8 := Next(Row, n7, Ask(0, 2, 0, ""));
    tr, ls := OneMoreFresh(Row, tr, ls, Ask(0, 2, 0, ""), n8);
    Cached6(n8, CACHED);
    tr, ls := OneMoreFresh(Row, tr, ls, Deliver(0, NOW0), Next(Row, n8, Deliver(0, NOW0)));
  }

  predicate Lossless(ls: seq<Label>) {
    forall i | 0 <= i < |ls| :: !ls[i].Lose?
  }

  /** A payload sent from the table carries the hop count 1 that the last request header starts with,
      and no node increments it on the way.  From switching on, without loss and with nothing stale:
      node 0 asks for node 2, gets its route, asks again, and when the second payload arrives node 2
      records one hop to node 0, which is two hops off.  Every step but the last is fresh. */
  lemma CachedPayloadUndercuts() returns (tr: seq<Net>, ls: seq<Label>)
    ensures Run(Row, tr, ls) && SwitchedOn(Row, tr[0]) && Lossless(ls) && |ls| == 10
    ensures FreshRun(Row, tr[..10], ls[..9])
    ensures ls[9] == Deliver(0, NOW0) && 2 in tr[9].nodes && NoneStale(tr[9].nodes[2].table, 0, tr[9].nodes[2].sp)
    ensures 2 in tr[10].nodes && 0 in tr[10].nodes[2].table && tr[10].nodes[2].table[0].hop == 1
    ensures !Adjacent(Row, 2, 0)
  {
    hide Next;
    RowIsWired();
    var tr9, ls9 := CachedRun4();
    Cached10(tr9[9]);
    tr, ls := OneMore(Row, tr9, ls9, Deliver(0, NOW0));
    assert tr[..10] == tr9 && ls[..9] == ls9;
    forall p, q | p in Row && q in Row && p.node == 2 && q.node == 0 ensures !Joined(p, q) {
    }
  }

  // ----- A reply that never reaches its client -----

  const A1 := Packet(Rreq, 1, 2, 1, 1, 0, 0, -1, -1, -1, "", 0)
  const AREPLY := Packet(Rrep, 1, 2, 1, 1, 0, 0, 1, 1, 0, "", 0)
  const APAYLOAD := AREPLY.(kind := Data, srcDest := 1)
  const OFFER := Packet(Rrep, 2, 0, 2, 1, 0, 0, 2, 1, 0, "", 0)
  const FLAGGED := Packet(Rreq, 2, 0, 3, 1, 0, 1, 2, 1, 0, "", 0)

  const TO1_AT2 := Entry(1, 21, 2, 1, 0)

  /** Node 2 asks for node 1. */
  lemma Lost1(net: Net)
    requires net == START
    ensures var l := Ask(2, 1, 0, "");
            Enabled(net, l) && FreshStep(net, l) &&
            var net' := Next(Row, net, l);
            Trio(net', map[], map[], map[], [Frame(Q2, Q1, A1)]) && net'.nodes[0] == IDLE && net'.nodes[1] == IDLE
            && net'.nodes[2].discovered == 0 && net'.nodes[2].msg == ""
  {
    hide SpreadAll, SendOn, BroadcastAll, IfacesOf;
    RowIsWired();
    RowFloods(A1);
  }

  /** Node 1 answers. */
  lemma Lost2(net: Net)
    requires Trio(net, map[], map[], map[], [Frame(Q2, Q1, A1)]) && net.nodes[1] == IDLE
    ensures Enabled(net, Deliver(0, NOW0)) && FreshStep(net, Deliver(0, NOW0)) &&
            var net' := Next(Row, net, Deliver(0, NOW0));
            Trio(net', map[], map[2 := TO2_AT1], map[], [Frame(Q1, Q2, AREPLY)])
            && net'.nodes[0] == net.nodes[0] && net'.nodes[2] == net.nodes[2] && Latest(net'.nodes[1], 0) == 0
  {
    hide SpreadAll, SendOn, BroadcastAll, IfacesOf;
    RowIsWired();
    RowSends(AREPLY);
  }

  /** Node 2 sends its payload. */
  lemma Lost3(net: Net)
    requires Trio(net, map[], map[2 := TO2_AT1], map[], [Frame(Q1, Q2, AREPLY)])
    requires net.nodes[2].discovered == 0 && net.nodes[2].msg == ""
    ensures Enabled(net, Deliver(0, NOW0)) && FreshStep(net, Deliver(0, NOW0)) &&
            var net' := Next(Row, net, Deliver(0, NOW0));
            Trio(net', map[], map[2 := TO2_AT1], map[1 := TO1_AT2], [Frame(Q2, Q1, APAYLOAD)])
            && net'.nodes[0] == net.nodes[0] && net'.nodes[1] == net.nodes[1]
  {
    hide SpreadAll, SendOn, BroadcastAll, IfacesOf;
    RowIsWired();
    RowSends(APAYLOAD);
  }

  /** Node 1 receives it; its server stays silent. */
  lemma Lost4(net: Net)
    requires Trio(net, map[], map[2 := TO2_AT1], map[1 := TO1_AT2], [Frame(Q2, Q1, APAYLOAD)])
    ensures Enabled(net, Deliver(0, NOW0)) && FreshStep(net, Deliver(0, NOW0)) &&
            var net' := Next(Row, net, Deliver(0, NOW0));
            Trio(net', map[], map[2 := TO2_AT1], map[1 := TO1_AT2], [])
            && net'.nodes[0] == net.nodes[0] && Latest(net'.nodes[1], 0) == Latest(net.nodes[1], 0)
  {
  }

  /** Node 0 asks for node 2. */
  lemma Lost5(net: Net)
    requires Trio(net, map[], map[2 := TO2_AT1], map[1 := TO1_AT2], []) && net.nodes[0] == IDLE
    ensures var l := Ask(0, 2, 0, "");
            Enabled(net, l) && FreshStep(net, l) &&
            var net' := Next(Row, net, l);
            Trio(net', map[], map[2 := TO2_AT1], map[1 := TO1_AT2], [Frame(P0, P1, R1)]) && net'.nodes[1] == net.nodes[1]
  {
    hide SpreadAll, SendOn, BroadcastAll, IfacesOf;
    RowIsWired();
    RowFloods(R1);
  }

  /** Node 1 answers out of its table - toward node 2 - and floods the flagged request. */
  lemma Lost6Outs(net: Net)
    requires Trio(net, map[], map[2 := TO2_AT1], map[1 := TO1_AT2], [Frame(P0, P1, R1)]) && Latest(net.nodes[1], 0) == 0
    ensures SpreadAll(Row, Reaction(Row, net, 0, NOW0).1) == [Frame(Q1, Q2, OFFER), Frame(P1, P0, FLAGGED), Frame(Q1, Q2, FLAGGED)]
  {
    hide SpreadAll, SendOn, BroadcastAll, IfacesOf, Owner;
    RowIsWired();
    RowSends(OFFER);
    RowFloods(FLAGGED);
    SpreadAllConcat(Row, SendOn([P1, Q1], OFFER, 22, 3), BroadcastAll([P1, Q1], FLAGGED, ALL_INTERFACES));
    assert Reaction(Row, net, 0, NOW0).1
           == SendOn([P1, Q1], OFFER, 22, 3) + BroadcastAll([P1, Q1], FLAGGED, ALL_INTERFACES);
  }

  lemma Lost6(net: Net)
    requires Trio(net, map[], map[2 := TO2_AT1], map[1 := TO1_AT2], [Frame(P0, P1, R1)]) && Latest(net.nodes[1], 0) == 0
    ensures Enabled(net, Deliver(0, NOW0)) && FreshStep(net, Deliver(0, NOW0)) && Offers(net, Deliver(0, NOW0), 0, 2)
    ensures Trio(Next(Row, net, Deliver(0, NOW0)), map[], map[2 := TO2_AT1, 0 := TO0_AT1], map[1 := TO1_AT2],
                 [Frame(Q1, Q2, OFFER), Frame(P1, P0, FLAGGED), Frame(Q1, Q2, FLAGGED)])
  {
    Lost6Outs(net);
    assert Without(net.flight, 0) == [];
  }

  /** The reply ends at node 2, which has no route to node 0. */
  lemma Lost7(net: Net)
    requires Trio(net, map[], map[2 := TO2_AT1, 0 := TO0_AT1], map[1 := TO1_AT2],
                  [Frame(Q1, Q2, OFFER), Frame(P1, P0, FLAGGED), Frame(Q1, Q2, FLAGGED)])
    ensures Enabled(net, Deliver(0, NOW0)) && FreshStep(net, Deliver(0, NOW0))
    ensures Trio(Next(Row, net, Deliver(0, NOW0)), map[], map[2 := TO2_AT1, 0 := TO0_AT1],
                 map[1 := TO1_AT2, 2 := Entry(2, 21, 2, 2, 0)], [Frame(P1, P0, FLAGGED), Frame(Q1, Q2, FLAGGED)])
  {
    assert Without(net.flight, 0) == [Frame(P1, P0, FLAGGED), Frame(Q1, Q2, FLAGGED)];
    assert Reaction(Row, net, 0, NOW0).1 == [];
  }

  /** The flagged requests end where they arrive. */
  lemma Lost8(net: Net)
    requires Trio(net, map[], map[2 := TO2_AT1, 0 := TO0_AT1],
                  map[1 := TO1_AT2, 2 := Entry(2, 21, 2, 2, 0)], [Frame(P1, P0, FLAGGED), Frame(Q1, Q2, FLAGGED)])
    ensures Enabled(net, Deliver(0, NOW0)) && FreshStep(net, Deliver(0, NOW0))
    ensures Trio(Next(Row, net, Deliver(0, NOW0)), map[0 := Entry(0, 11, 2, 3, 0)], map[2 := TO2_AT1, 0 := TO0_AT1],
                 map[1 := TO1_AT2, 2 := Entry(2, 21, 2, 2, 0)], [Frame(Q1, Q2, FLAGGED)])
  {
    assert Without(net.flight, 0) == [Frame(Q1, Q2, FLAGGED)];
    assert Reaction(Row, net, 0, NOW0).1 == [];
  }

  lemma Lost9(net: Net)
    requires Trio(net, map[0 := Entry(0, 11, 2, 3, 0)], map[2 := TO2_AT1, 0 := TO0_AT1],
                  map[1 := TO1_AT2, 2 := Entry(2, 21, 2, 2, 0)], [Frame(Q1, Q2, FLAGGED)])
    ensures Enabled(net, Deliver(0, NOW0)) && FreshStep(net, Deliver(0, NOW0))
    ensures Next(Row, net, Deliver(0, NOW0)).flight == [] && Next(Row, net, Deliver(0, NOW0)).nodes.Keys == {0, 1, 2}
    ensures 2 !in Next(Row, net, Deliver(0, NOW0)).nodes[0].table
  {
    assert Reaction(Row, net, 0, NOW0).1 == [];
  }

  lemma LostRun1() returns (tr: seq<Net>, ls: seq<Label>)
    ensures FreshRun(Row, tr, ls) && tr[0] == START && Lossless(ls) && |ls| == 2
    ensures Trio(tr[2], map[], map[2 := TO2_AT1], map[], [Frame(Q1, Q2, AREPLY)])
    ensures tr[2].nodes[0] == IDLE && Latest(tr[2].nodes[1], 0) == 0
    ensures tr[2].nodes[2].discovered == 0 && tr[2].nodes[2].msg == ""
  {
    hide Next;
    RowIsWired();
    Lost1(START);
    var n1 := Next(Row, START, Ask(2, 1, 0, ""));
    tr, ls := OneMoreFresh(Row, [START], [], Ask(2, 1, 0, ""), n1);
    Lost2(n1);
    tr, ls := OneMoreFresh(Row, tr, ls, Deliver(0, NOW0), Next(Row, n1, Deliver(0, NOW0)));
  }

  lemma LostRun2() returns (tr: seq<Net>, ls: seq<Label>)
    ensures FreshRun(Row, tr, ls) && tr[0] == START && Lossless(ls) && |ls| == 4
    ensures Trio(tr[4], map[], map[2 := TO2_AT1], map[1 := TO1_AT2], [])
    ensures tr[4].nodes[0] == IDLE && Latest(tr[4].nodes[1], 0) == 0
  {
    hide Next;
    tr, ls := LostRun1();
    var n2 := tr[2];
    Lost3(n2);
    var n3 := Next(Row, n2, Deliver(0, NOW0));
    tr, ls := OneMoreFresh(Row, tr, ls, Deliver(0, NOW0), n3);
    Lost4(n3);
    tr, ls := OneMoreFresh(Row, tr, ls, Deliver(0, NOW0), Next(Row, n3, Deliver(0, NOW0)));
  }

  lemma LostRun3() returns (tr: seq<Net>, ls: seq<Label>)
    ensures FreshRun(Row, tr, ls) && tr[0] == START && Lossless(ls) && |ls| == 6
    ensures ls[4] == Ask(0, 2, 0, "") && ls[5] == Deliver(0, NOW0) && Offers(tr[5], ls[5], 0, 2)
    ensures tr[5].flight == [Frame(P0, P1, R1)]
    ensures Trio(tr[6], map[], map[2 := TO2_AT1, 0 := TO0_AT1], map[1 := TO1_AT2],
                 [Frame(Q1, Q2, OFFER), Frame(P1, P0, FLAGGED), Frame(Q1, Q2, FLAGGED)])
  {
    hide Next;
    tr, ls := LostRun2();
    var n4 := tr[4];
    Lost5(n4);
    var n5 := Next(Row, n4, Ask(0, 2, 0, ""));
    tr, ls := OneMoreFresh(Row, tr, ls, Ask(0, 2, 0, ""), n5);
    Lost6(n5);
    tr, ls := OneMoreFresh(Row, tr, ls, Deliver(0, NOW0), Next(Row, n5, Deliver(0, NOW0)));
  }

  lemma LostRun4() returns (tr: seq<Net>, ls: seq<Label>)
    ensures FreshRun(Row, tr, ls) && tr[0] == START && Lossless(ls) && |ls| == 8
    ensures ls[4] == Ask(0, 2, 0, "") && Offers(tr[5], ls[5], 0, 2)
    ensures ls[6] == Deliver(0, NOW0) && tr[6].flight != [] && tr[6].flight[0] == Frame(Q1, Q2, OFFER)
    ensures Trio(tr[8], map[0 := Entry(0, 11, 2, 3, 0)], map[2 := TO2_AT1, 0 := TO0_AT1],
                 map[1 := TO1_AT2, 2 := Entry(2, 21, 2, 2, 0)], [Frame(Q1, Q2, FLAGGED)])
  {
    hide Next;
    tr, ls := LostRun3();
    var n6 := tr[6];
    Lost7(n6);
    var n7 := Next(Row, n6, Deliver(0, NOW0));
    tr, ls := OneMoreFresh(Row, tr, ls, Deliver(0, NOW0), n7);
    Lost8(n7);
    tr, ls := OneMoreFresh(Row, tr, ls, Deliver(0, NOW0), Next(Row, n7, Deliver(0, NOW0)));
  }

  /** A client's request can fail although nothing is lost or stale, client and server are two hops
      apart, and the node between them has a route and answers.  From switching on: node 2 asks for
      node 1, so that 1 and 2 know each other; then node 0 asks for node 2, node 1 sends its reply along
      its route to node 2 - a destination does receive a reply - and the run ends with nothing in flight
      and node 0 without a route. */
  lemma ReplyLost() returns (tr: seq<Net>, ls: seq<Label>)
    ensures FreshRun(Row, tr, ls) && SwitchedOn(Row, tr[0]) && Lossless(ls) && |ls| == 9
    ensures ls[4] == Ask(0, 2, 0, "") && Offers(tr[5], ls[5], 0, 2)
    ensures ls[6] == Deliver(0, NOW0) && tr[6].flight != []
            && var f := tr[6].flight[0]; f.to.node == 2 && f.pkt.kind == Rrep && f.pkt.src == 0 && f.pkt.dst == 2
    ensures tr[9].flight == [] && 0 in tr[9].nodes && 2 !in tr[9].nodes[0].table
  {
    hide Next;
    RowIsWired();
    tr, ls := LostRun4();
    Lost9(tr[8]);
    tr, ls := OneMoreFresh(Row, tr, ls, Deliver(0, NOW0), Next(Row, tr[8], Deliver(0, NOW0)));
  }

  // ----- The same offer, not helped when it is sent, and yet delivered -----

  const ONWARD := OFFER.(rrepHop := 3)
  const HOME := OFFER.(rrepHop := 4)

  /** The flagged request gets to node 2 before the reply does. */
  lemma Saved7(net: Net)
    requires Trio(net, map[], map[2 := TO2_AT1, 0 := TO0_AT1], map[1 := TO1_AT2],
                  [Frame(Q1, Q2, OFFER), Frame(P1, P0, FLAGGED), Frame(Q1, Q2, FLAGGED)])
    ensures Enabled(net, Deliver(2, NOW0)) && FreshStep(net, Deliver(2, NOW0))
    ensures Trio(Next(Row, net, Deliver(2, NOW0)), map[], map[2 := TO2_AT1, 0 := TO0_AT1],
                 map[1 := TO1_AT2, 0 := Entry(0, 21, 2, 3, 0)], [Frame(Q1, Q2, OFFER), Frame(P1, P0, FLAGGED)])
  {
    assert Without(net.flight, 2) == [Frame(Q1, Q2, OFFER), Frame(P1, P0, FLAGGED)];
    assert Reaction(Row, net, 2, NOW0).1 == [];
  }

  /** So node 2 sends the reply back. */
  lemma Saved8(net: Net)
    requires Trio(net, map[], map[2 := TO2_AT1, 0 := TO0_AT1],
                  map[1 := TO1_AT2, 0 := Entry(0, 21, 2, 3, 0)], [Frame(Q1, Q2, OFFER), Frame(P1, P0, FLAGGED)])
    ensures Enabled(net, Deliver(0, NOW0)) && FreshStep(net, Deliver(0, NOW0))
    ensures Trio(Next(Row, net, Deliver(0, NOW0)), map[], map[2 := TO2_AT1, 0 := TO0_AT1],
                 map[1 := TO1_AT2, 0 := Entry(0, 21, 2, 3, 0), 2 := Entry(2, 21, 2, 2, 0)],
                 [Frame(P1, P0, FLAGGED), Frame(Q2, Q1, ONWARD)])
  {
    hide SpreadAll, SendOn, IfacesOf;
    RowIsWired();
    RowSends(ONWARD);
    assert Without(net.flight, 0) == [Frame(P1, P0, FLAGGED)];
  }

  /** Node 1 passes it on. */
  lemma Saved9(net: Net)
    requires Trio(net, map[], map[2 := TO2_AT1, 0 := TO0_AT1],
                  map[1 := TO1_AT2, 0 := Entry(0, 21, 2, 3, 0), 2 := Entry(2, 21, 2, 2, 0)],
                  [Frame(P1, P0, FLAGGED), Frame(Q2, Q1, ONWARD)])
    ensures Enabled(net, Deliver(1, NOW0)) && FreshStep(net, Deliver(1, NOW0))
    ensures var net' := Next(Row, net, Deliver(1, NOW0));
            && net'.nodes.Keys == {0, 1, 2} && net'.nodes[0].table == map[] && net'.nodes[0].sp == 60
            && net'.flight == [Frame(P1, P0, FLAGGED), Frame(P1, P0, HOME)]
  {
    hide SpreadAll, SendOn, IfacesOf;
    RowIsWired();
    RowSends(HOME);
    assert Without(net.flight, 1) == [Frame(P1, P0, FLAGGED)];
  }

  /** And node 0 has its route. */
  lemma Saved10(net: Net)
    requires net.nodes.Keys == {0, 1, 2} && net.nodes[0].table == map[] && net.nodes[0].sp == 60
    requires net.flight == [Frame(P1, P0, FLAGGED), Frame(P1, P0, HOME)]
    ensures Enabled(net, Deliver(1, NOW0)) && FreshStep(net, Deliver(1, NOW0))
    ensures var net' := Next(Row, net, Deliver(1, NOW0)); 0 in net'.nodes && 2 in net'.nodes[0].table
  {
  }

  lemma NotHelped(net: Net, l: Label, net': Net)
    requires Offers(net, l, 0, 2) && net' == Next(Row, net, l)
    requires Trio(net', map[], map[2 := TO2_AT1, 0 := TO0_AT1], map[1 := TO1_AT2], net'.flight)
    requires net.flight[l.i].to.node == 1
    ensures !NextHopHelps(Row, net, l, 0, 2)
  {
    hide Next;
    RowIsWired();
  }

  lemma SavedRun() returns (tr: seq<Net>, ls: seq<Label>)
    ensures FreshRun(Row, tr, ls) && tr[0] == START && Lossless(ls) && |ls| == 8
    ensures Offers(tr[5], ls[5], 0, 2) && !NextHopHelps(Row, tr[5], ls[5], 0, 2)
    ensures 2 in tr[6].nodes && 0 !in tr[6].nodes[2].table
    ensures Trio(tr[8], map[], map[2 := TO2_AT1, 0 := TO0_AT1],
                 map[1 := TO1_AT2, 0 := Entry(0, 21, 2, 3, 0), 2 := Entry(2, 21, 2, 2, 0)],
                 [Frame(P1, P0, FLAGGED), Frame(Q2, Q1, ONWARD)])
  {
    hide Next, NextHopHelps;
    tr, ls := LostRun3();
    var n6 := tr[6];
    NotHelped(tr[5], ls[5], n6);
    Saved7(n6);
    var n7 := Next(Row, n6, Deliver(2, NOW0));
    tr, ls := OneMoreFresh(Row, tr, ls, Deliver(2, NOW0), n7);
    Saved8(n7);
    tr, ls := OneMoreFresh(Row, tr, ls, Deliver(0, NOW0), Next(Row, n7, Deliver(0, NOW0)));
  }

  /** Not being sure to arrive is not being sure to get lost.  The run of `ReplyLost` up to the offer:
      node 2, to which the reply is sent, has no route to node 0.  But if the flagged request gets there
      first it has one when the reply arrives, and sends it back; node 0 ends up with a route. */
  lemma ReplySaved() returns (tr: seq<Net>, ls: seq<Label>)
    ensures FreshRun(Row, tr, ls) && SwitchedOn(Row, tr[0]) && Lossless(ls) && |ls| == 10
    ensures Offers(tr[5], ls[5], 0, 2) && !NextHopHelps(Row, tr[5], ls[5], 0, 2)
    ensures 2 in tr[6].nodes && 0 !in tr[6].nodes[2].table
    ensures 0 in tr[10].nodes && 2 in tr[10].nodes[0].table
  {
    hide Next, NextHopHelps;
    RowIsWired();
    tr, ls := SavedRun();
    var n8 := tr[8];
    Saved9(n8);
    var n9 := Next(Row, n8, Deliver(1, NOW0));
    tr, ls := OneMoreFresh(Row, tr, ls, Deliver(1, NOW0), n9);
    Saved10(n9);
    tr, ls := OneMoreFresh(Row, tr, ls, Deliver(1, NOW0), Next(Row, n9, Deliver(1, NOW0)));
  }

  // ----- A stale refresh closes a loop -----

  /** 0, 1 and 2, each pair on a segment of its own. */
  const A0T := Iface(10, 1, 0, 100)
  const A1T := Iface(11, 1, 1, 100)
  const B1T := Iface(21, 2, 1, 200)
  const B2T := Iface(22, 2, 2, 200)
  const C2T := Iface(32, 3, 2, 300)
  const C0T := Iface(30, 3, 0, 300)
  const Triangle: Wiring := [A0T, A1T, B1T, B2T, C2T, C0T]

  lemma TriangleUnfolds()
    ensures forall hw :: Owner(Triangle, hw)
              == if hw == 10 || hw == 30 then 0 else if hw == 11 || hw == 21 then 1 else if hw == 22 || hw == 32 then 2 else -1
    ensures forall n :: IfacesOf(Triangle, n)
              == if n == 0 then [A0T, C0T] else if n == 1 then [A1T, B1T] else if n == 2 then [B2T, C2T] else []
    ensures forall o: Out | !o.ToClient? ::
              Spread(Triangle, o)
              == (if Hears(A0T, o) then [Frame(o.via, A0T, o.pkt)] else []) + (if Hears(A1T, o) then [Frame(o.via, A1T, o.pkt)] else [])
                 + (if Hears(B1T, o) then [Frame(o.via, B1T, o.pkt)] else []) + (if Hears(B2T, o) then [Frame(o.via, B2T, o.pkt)] else [])
                 + (if Hears(C2T, o) then [Frame(o.via, C2T, o.pkt)] else []) + (if Hears(C0T, o) then [Frame(o.via, C0T, o.pkt)] else [])
  {
    NothingUnfolds();
    hide Owner, IfacesOf, Spread;
    var w4: Wiring := [C0T] + [];
    var w3 := [C2T] + w4;
    var w2 := [B2T] + w3;
    var w1 := [B1T] + w2;
    var w0 := [A1T] + w1;
    Unfold(C0T, []);
    Unfold(C2T, w4);
    Unfold(B2T, w3);
    Unfold(B1T, w2);
    Unfold(A1T, w1);
    Unfold(A0T, w0);
    assert Triangle == [A0T] + w0;
  }

  lemma TriangleIsWired()
    ensures SwitchedOn(Triangle, START)
    ensures Owner(Triangle, 21) == 1 && Owner(Triangle, 22) == 2
    ensures IfacesOf(Triangle, 0) == [A0T, C0T] && IfacesOf(Triangle, 1) == [A1T, B1T] && IfacesOf(Triangle, 2) == [B2T, C2T]
  {
    TriangleUnfolds();
  }

  lemma TriangleFloods(p: Packet)
    ensures SpreadAll(Triangle, BroadcastAll([A0T, C0T], p, ALL_INTERFACES)) == [Frame(A0T, A1T, p), Frame(C0T, C2T, p)]
    ensures SpreadAll(Triangle, BroadcastAll([A1T, B1T], p, 1)) == [Frame(B1T, B2T, p)]
    ensures SpreadAll(Triangle, BroadcastAll([B2T, C2T], p, 3)) == [Frame(B2T, B1T, p)]
  {
    TriangleUnfolds();
    var a, c := Broadcast(A0T, p), Broadcast(C0T, p);
    assert [A0T, C0T][1..] == [C0T] && [A1T, B1T][1..] == [B1T] && [B2T, C2T][1..] == [C2T] && [a, c][1..] == [c];
    assert BroadcastAll([C0T], p, ALL_INTERFACES) == [c] && BroadcastAll([B1T], p, 1) == [Broadcast(B1T, p)];
    assert BroadcastAll([C2T], p, 3) == [];
    assert BroadcastAll([A0T, C0T], p, ALL_INTERFACES) == [a, c];
    One(Triangle, c);
    One(Triangle, Broadcast(B1T, p));
    One(Triangle, Broadcast(B2T, p));
    assert SpreadAll(Triangle, [a, c]) == Spread(Triangle, a) + SpreadAll(Triangle, [c]);
  }

  const NOW61 := Env(61, None)

  const T1 := Packet(Rreq, 5, 0, 1, 1, 0, 0, -1, -1, -1, "", 0)
  const T2 := T1.(rreqHop := 2)

  const DIRECT1 := Entry(0, 10, 1, 1, 0)
  const DIRECT2 := Entry(0, 30, 3, 1, 0)

  /** Node 0 asks for a node that is not up. */
  lemma Loop1(net: Net)
    requires net == START
    ensures var l := Ask(0, 5, 0, "");
            Enabled(net, l) &&
            var net' := Next(Triangle, net, l);
            Trio(net', map[], map[], map[], [Frame(A0T, A1T, T1), Frame(C0T, C2T, T1)])
            && net'.nodes[1] == IDLE && net'.nodes[2] == IDLE
  {
    hide SpreadAll, SendOn, BroadcastAll, IfacesOf;
    TriangleIsWired();
    TriangleFloods(T1);
  }

  /** Nodes 1 and 2 hear it directly, and flood it to each other. */
  lemma Loop2(net: Net)
    requires Trio(net, map[], map[], map[], [Frame(A0T, A1T, T1), Frame(C0T, C2T, T1)]) && net.nodes[1] == IDLE
    ensures Enabled(net, Deliver(0, NOW0)) &&
            var net' := Next(Triangle, net, Deliver(0, NOW0));
            Trio(net', map[], map[0 := DIRECT1], map[], [Frame(C0T, C2T, T1), Frame(B1T, B2T, T2)])
            && net'.nodes[1].latest == map[0 := 1] && net'.nodes[2] == net.nodes[2]
  {
    hide SpreadAll, SendOn, BroadcastAll, IfacesOf;
    TriangleIsWired();
    TriangleFloods(T2);
  }

  lemma Loop3(net: Net)
    requires Trio(net, map[], map[0 := DIRECT1], map[], [Frame(C0T, C2T, T1), Frame(B1T, B2T, T2)]) && net.nodes[2] == IDLE
    ensures Enabled(net, Deliver(0, NOW0)) &&
            var net' := Next(Triangle, net, Deliver(0, NOW0));
            Trio(net', map[], map[0 := DIRECT1], map[0 := DIRECT2], [Frame(B1T, B2T, T2), Frame(B2T, B1T, T2)])
            && net'.nodes[1] == net.nodes[1] && net'.nodes[2].latest == map[0 := 1]
  {
    hide SpreadAll, SendOn, BroadcastAll, IfacesOf;
    TriangleIsWired();
    TriangleFloods(T2);
  }

  /** A minute later these copies arrive: each node makes the other its next hop. */
  lemma Loop4(net: Net)
    requires Trio(net, map[], map[0 := DIRECT1], map[0 := DIRECT2], [Frame(B1T, B2T, T2), Frame(B2T, B1T, T2)])
    requires Latest(net.nodes[2], 0) == 1
    ensures Enabled(net, Deliver(0, NOW61)) &&
            var net' := Next(Triangle, net, Deliver(0, NOW61));
            Trio(net', map[], map[0 := DIRECT1], map[0 := Entry(0, 21, 2, 1, 61)], [Frame(B2T, B1T, T2)])
            && net'.nodes[1] == net.nodes[1]
  {
    assert Without(net.flight, 0) == [Frame(B2T, B1T, T2)];
    assert Reaction(Triangle, net, 0, NOW61).1 == [];
  }

  lemma Loop5(net: Net)
    requires Trio(net, map[], map[0 := DIRECT1], map[0 := Entry(0, 21, 2, 1, 61)], [Frame(B2T, B1T, T2)])
    requires Latest(net.nodes[1], 0) == 1
    ensures Enabled(net, Deliver(0, NOW61))
    ensures Trio(Next(Triangle, net, Deliver(0, NOW61)), map[], map[0 := Entry(0, 22, 2, 1, 61)], map[0 := Entry(0, 21, 2, 1, 61)], [])
  {
    assert Reaction(Triangle, net, 0, NOW61).1 == [];
  }

  lemma LoopRun() returns (tr: seq<Net>, ls: seq<Label>)
    ensures Run(Triangle, tr, ls) && tr[0] == START && Lossless(ls) && |ls| == 3
    ensures Trio(tr[3], map[], map[0 := DIRECT1], map[0 := DIRECT2], [Frame(B1T, B2T, T2), Frame(B2T, B1T, T2)])
    ensures Latest(tr[3].nodes[1], 0) == 1 && Latest(tr[3].nodes[2], 0) == 1
  {
    hide Next;
    Loop1(START);
    tr, ls := OneMore(Triangle, [START], [], Ask(0, 5, 0, ""));
    Loop2(tr[1]);
    tr, ls := OneMore(Triangle, tr, ls, Deliver(0, NOW0));
    Loop3(tr[2]);
    tr, ls := OneMore(Triangle, tr, ls, Deliver(0, NOW0));
  }

  /** A stale entry takes over the next hop of whatever request comes along but keeps its own, smaller
      hop count.  From switching on and without loss: two nodes hear a flood directly, and when the
      copies that they flood to each other arrive after the staleness period, each becomes the other's
      next hop toward the source. */
  lemma StaleRefreshLoops() returns (tr: seq<Net>, ls: seq<Label>)
    ensures Run(Triangle, tr, ls) && SwitchedOn(Triangle, tr[0]) && Lossless(ls) && |ls| == 5
    ensures tr[5].nodes.Keys == {0, 1, 2} && 0 in tr[5].nodes[1].table && 0 in tr[5].nodes[2].table
    ensures NextHop(Triangle, tr[5], 1, 0) == 2 && NextHop(Triangle, tr[5], 2, 0) == 1
  {
    hide Next;
    TriangleIsWired();
    tr, ls := LoopRun();
    Loop4(tr[3]);
    tr, ls := OneMore(Triangle, tr, ls, Deliver(0, NOW61));
    Loop5(tr[4]);
    tr, ls := OneMore(Triangle, tr, ls, Deliver(0, NOW61));
  }

  // ----- A network in which a discovery can start -----

  /** The hypotheses about the start of a lone discovery can be met: three nodes just switched on. */
  lemma RowCanDiscover()
    ensures SwitchedOn(Row, START) && Small(START) && Walk(Row, [0, 1, 2])
    ensures Enabled(START, Ask(0, 2, 0, ""))
    ensures SoleStart(Row, START, Next(Row, START, Ask(0, 2, 0, "")), Quest(0, 2, 1))
  {
    RowIsWired();
    RowWalk();
    SwitchedOnIsSound(Row, START);
    CanStart(START, "");
  }

  lemma RowWalk()
    ensures Walk(Row, [0, 1, 2])
  {
    assert Joined(P0, P1) && Joined(Q1, Q2);
    assert Adjacent(Row, 0, 1) && Adjacent(Row, 1, 2);
  }

  lemma CanStart(before: Net, msg: string)
    requires Sane(Row, before) && before.flight == [] && before.nodes.Keys == {0, 1, 2}
    requires forall n | n in before.nodes :: before.nodes[n] == IDLE
    ensures SoleStart(Row, before, Next(Row, before, Ask(0, 2, 0, msg)), Quest(0, 2, 1))
  {
    assert !(2 in before.nodes[0].table && 0 == 0);
  }
}
