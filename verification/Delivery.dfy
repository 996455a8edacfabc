/** Everything sent arrives once and in order, and when nothing is left to say the
    receiving table holds through the peer exactly what the sending table exports. */
module Delivery {
  import opened Wire
  import opened Table
  import opened TableTheorems
  import opened Paging
  import opened Aurp
  import opened ExportSync
  import opened TunnelView
  import opened PeerTheorems
  import opened TwoRouters

  // ------------------------------------------------------------- the receiver's steps

  lemma DuplicateAnswered(r: PeerState, d: Packet, t: Table, now: Time)
    requires r.ReceiverOpen() && d.conn == r.connLocal && CheckSeq(r.seqRecv, d.seqno) == Dup
    requires d.cmd.RiRsp? || d.cmd.RiUpd?
    ensures Routing(r, d, t, now) == Routed(r.(lastHeard := now), t, [Packet(d.conn, d.seqno, RiAck(true))], [])
  {
    hide LearnAll, ApplyAll;
  }

  /** A copy of the packet before the one expected is acked again, and no more. */
  lemma DuplicateAcked(n: Net, now: Time)
    requires NetInv(n) && n.data != [] && n.data[0].seqno == NumberOf(|n.heard|) && |n.heard| > 0
    ensures NetInv(NetStep(n, DeliverData(now)))
    ensures NetStep(n, DeliverData(now)).heard == n.heard
  {
    hide Inv, InStep, Told, HearLog, Sound, Mirrors, SenderInv, Routing, Room;
    var d, j := n.data[0], |n.heard|;
    Numbering(j);
    Numbering(j + 1);
    assert CheckSeq(n.r.seqRecv, d.seqno) == Dup;
    DuplicateAnswered(n.r, d, n.rt, now);
    var ack := Packet(d.conn, d.seqno, RiAck(true));
    DataShortens(n);
    AckFollows(n, ack, j);
    assert NetStep(n, DeliverData(now))
        == n.(data := n.data[1..], acks := n.acks + [ack], r := n.r.(lastHeard := now));
  }

  lemma DataShortens(n: Net)
    requires NetInv(n) && n.data != []
    ensures DataOk(n.data[1..], n.r.connLocal, n.log, |n.heard|)
    ensures n.data[0].seqno == NumberOf(|n.log|) ==> DataOk(n.data[1..], n.r.connLocal, n.log, |n.log|)
  {
    hide Inv, InStep, Told, HearLog, Sound, Mirrors, SenderInv, SendingOk;
    var rest := n.data[1..];
    assert forall i :: 0 <= i < |rest| ==> rest[i] == n.data[i + 1];
  }

  /** An ack of the packet last heard goes behind those already on their way. */
  lemma AckFollows(n: Net, ack: Packet, heard: nat)
    requires NetInv(n) && |n.heard| <= heard <= |n.log| && ack.conn == n.r.connLocal && ack.cmd.RiAck?
    requires ack.seqno == NumberOf(heard) && heard > 0
    ensures AcksOk(n.acks + [ack], n.r.connLocal, |n.log|, heard, Live(n.s) && n.s.outstanding.None?)
  {
    hide Inv, InStep, Told, HearLog, Sound, Mirrors, SenderInv;
    Numbering(|n.log| - 1);
  }

  /** The expected packet is taken, acked and counted; behind it only its own
      copies are left in flight. */
  lemma ExpectedTaken(n: Net, now: Time)
    requires NetInv(n) && n.data != [] && n.data[0].seqno == NumberOf(|n.heard| + 1)
    ensures NetInv(NetStep(n, DeliverData(now)))
    ensures NetStep(n, DeliverData(now)).heard == n.heard + [n.data[0].cmd]
  {
    ExpectedIsLast(n);
    hide NetInv;
    TakenOk(n, now);
  }

  lemma ExpectedIsLast(n: Net)
    requires NetInv(n) && n.data != [] && n.data[0].seqno == NumberOf(|n.heard| + 1)
    ensures |n.log| == |n.heard| + 1 && n.data[0] == Numbered(n.r.connLocal, n.log, |n.log|)
    ensures n.heard + [n.data[0].cmd] == n.log
  {
    hide Inv, InStep, Told, HearLog, Sound, Mirrors, SenderInv, SendingOk;
    Numbering(|n.heard|);
    Numbering(|n.heard| + 1);
  }

  lemma NewAnswered(r: PeerState, d: Packet, t: Table, now: Time)
    requires r.ReceiverOpen() && d.conn == r.connLocal && CheckSeq(r.seqRecv, d.seqno) == New
    requires d.cmd.RiRsp? || d.cmd.RiUpd?
    ensures var out := Routing(r, d, t, now);
            && out.peer.ReceiverOpen() && out.peer.ip == r.ip && out.peer.connLocal == r.connLocal
            && out.peer.seqRecv == Succ(d.seqno)
            && |out.sent| == 1 && out.sent[0].cmd.RiAck? && out.sent[0].seqno == d.seqno && out.sent[0].conn == d.conn
            && out.table == if d.cmd.RiRsp? then LearnAll(t, r.ip, d.cmd.tuples, now).0
                            else ApplyAll(t, r.ip, d.cmd.events, now).0
  {
    hide LearnAll, ApplyAll;
  }

  lemma TakenOk(n: Net, now: Time)
    requires NetInv(n) && n.data != [] && |n.log| == |n.heard| + 1
    requires n.data[0] == Numbered(n.r.connLocal, n.log, |n.log|) && n.heard + [n.data[0].cmd] == n.log
    ensures NetInv(NetStep(n, DeliverData(now)))
    ensures NetStep(n, DeliverData(now)).heard == n.heard + [n.data[0].cmd]
  {
    var d, j := n.data[0], |n.heard|;
    var m := NetStep(n, DeliverData(now));
    hide Inv, InStep, Told, HearLog, Sound, Mirrors, SenderInv, Routing, Room, DataOk, AcksOk;
    Numbering(j);
    Numbering(j + 1);
    NewAnswered(n.r, d, n.rt, now);
    DataShortens(n);
    AckFollows(n, m.acks[|n.acks|], j + 1);
    if m.clear { TakenMirrors(n, now); }
    assert m.heard == n.log;
    assert Live(n.s) ==> SendingOk(m);
  }

  /** The receiving table after a command. */
  function TableAfter(t: Table, ip: nat, c: Cmd, now: Time): Table {
    match c
    case RiRsp(_, ts) => LearnAll(t, ip, ts, now).0
    case RiUpd(es) => ApplyAll(t, ip, es, now).0
    case _ => t
  }

  lemma CommandMirrors(n: Net, c: Cmd, now: Time)
    requires Sound(n.rt) && Mirrors(n.rt, n.r.ip, HearLog(n.heard)) && Room(n, c, now)
    requires c.RiRsp? || c.RiUpd?
    ensures var u := TableAfter(n.rt, n.r.ip, c, now); Sound(u) && Mirrors(u, n.r.ip, HearLog(n.heard + [c]))
  {
    HearLogSnoc(n.heard, c);
    hide Sound, Mirrors, LearnAll, ApplyAll, ClearTuples, ClearEvents, HearLog;
    if c.RiRsp? {
      TuplesMirror(n.rt, n.r.ip, HearLog(n.heard), c.tuples, now);
    } else {
      EventsMirror(n.rt, n.r.ip, HearLog(n.heard), c.events, now);
    }
  }

  lemma TakenTable(n: Net, now: Time)
    requires NetInv(n) && n.data != [] && |n.log| == |n.heard| + 1
    requires n.data[0] == Numbered(n.r.connLocal, n.log, |n.log|)
    ensures NetStep(n, DeliverData(now)).rt == TableAfter(n.rt, n.r.ip, n.data[0].cmd, now)
    ensures n.data[0].cmd.RiRsp? || n.data[0].cmd.RiUpd?
  {
    hide Inv, InStep, Told, HearLog, Sound, Mirrors, SenderInv, Routing, Room, DataOk, AcksOk, LearnAll, ApplyAll;
    Numbering(|n.heard|);
    NewAnswered(n.r, n.data[0], n.rt, now);
  }

  /** What is taken is applied to the receiving table as it is to the view. */
  lemma TakenMirrors(n: Net, now: Time)
    requires NetInv(n) && n.data != [] && |n.log| == |n.heard| + 1 && n.clear
    requires n.data[0] == Numbered(n.r.connLocal, n.log, |n.log|) && Room(n, n.data[0].cmd, now)
    ensures var m := NetStep(n, DeliverData(now));
            Sound(m.rt) && Mirrors(m.rt, n.r.ip, HearLog(n.heard + [n.data[0].cmd]))
  {
    assert Sound(n.rt) && Mirrors(n.rt, n.r.ip, HearLog(n.heard));
    hide NetInv, NetStep, Sound, Mirrors, TableAfter, HearLog, Room;
    TakenTable(n, now);
    CommandMirrors(n, n.data[0].cmd, now);
  }

  lemma DataKeepsNet(n: Net, now: Time)
    requires NetInv(n) && n.data != []
    ensures NetInv(NetStep(n, DeliverData(now)))
  {
    if n.data[0].seqno == NumberOf(|n.heard| + 1) { ExpectedTaken(n, now); } else { DuplicateAcked(n, now); }
  }

  // ------------------------------------------------------------- every run

  /** The changes of any operations of the sending table, queued for the peer. */
  lemma LocalInStep(n: Net, a: Act)
    requires NetInv(n) && Enabled(n, a) && (a.LocalRoutes? || a.LocalZones?)
    ensures var (u, cs) := Run(n.t, a.ops);
            Inv(u) && (Live(n.s) ==> InStep(Told(HearLog(n.log), n.s), QueuedAll(n.s.pending, cs, u), u))
  {
    var v := HearLog(n.log);
    assert Live(n.s) ==> SendingOk(n);
    hide InStep, Sound, Mirrors, SenderInv, Run, QueuedAll, Told, HearLog, NetInv;
    if a.LocalRoutes? {
      BatchZones(n.t, a.ops, 0);
      if Live(n.s) { RouteOpsKeepStep(Told(v, n.s), n.s.pending, n.t, a.ops); }
    } else {
      ZoneOpsFrame(n.t, a.ops, 0);
      if Live(n.s) { ZoneOpsKeepStep(Told(v, n.s), n.s.pending, n.t, a.ops); }
    }
  }

  lemma LocalKeepsNet(n: Net, a: Act)
    requires NetInv(n) && Enabled(n, a) && (a.LocalRoutes? || a.LocalZones?)
    ensures NetInv(NetStep(n, a))
  {
    LocalInStep(n, a);
    hide Inv, InStep, Sound, Mirrors, Run, QueuedAll, HearLog;
    var m := NetStep(n, a);
    assert Told(HearLog(n.log), m.s) == Told(HearLog(n.log), n.s);
    assert Live(n.s) ==> SendingOk(m);
  }

  lemma RemoteKeepsNet(n: Net, op: Op)
    requires NetInv(n) && Enabled(n, RemoteTable(op))
    ensures NetInv(NetStep(n, RemoteTable(op)))
  {
    hide Inv, InStep, Told, HearLog, Sound, Mirrors, SenderInv, Step;
    if n.clear { ForeignKeepsMirror(n.rt, n.r.ip, HearLog(n.heard), op); }
    var m := NetStep(n, RemoteTable(op));
    assert Live(n.s) ==> SendingOk(n) && SendingOk(m);
  }

  /** All that matters of the receiver's half is where its connection stands. */
  lemma SameConnection(n: Net, r: PeerState)
    requires NetInv(n) && r.ReceiverOpen()
    requires r.ip == n.r.ip && r.connLocal == n.r.connLocal && r.seqRecv == n.r.seqRecv
    ensures NetInv(n.(r := r))
  {
    hide Inv, InStep, Told, HearLog, Sound, Mirrors, SenderInv, DataOk, AcksOk;
    assert Live(n.s) ==> SendingOk(n) && SendingOk(n.(r := r));
  }

  lemma WaitingStays(r: PeerState, t: Table, now: Time)
    requires r.receiver == RConnected || r.receiver == WaitTickleAck
    requires ReceiverTimers(r, t, now).peer.ReceiverOpen()
    ensures var out := ReceiverTimers(r, t, now);
            && out.table == t && out.peer.ip == r.ip && out.peer.connLocal == r.connLocal
            && out.peer.seqRecv == r.seqRecv
  {
    hide Swept;
  }

  lemma AnswerStays(r: PeerState, t: Table, now: Time)
    requires r.ReceiverOpen()
    ensures var out := Routing(r, Packet(r.connLocal, 0, TickleAck), t, now);
            && out.table == t && out.peer.ip == r.ip && out.peer.connLocal == r.connLocal
            && out.peer.seqRecv == r.seqRecv && out.peer.ReceiverOpen()
  {
  }

  /** The receiver's tickles, while somebody answers them. */
  lemma WaitingKeepsNet(n: Net, a: Act)
    requires NetInv(n) && Enabled(n, a) && (a.ReceiverTick? || a.TickleAnswered?)
    ensures NetInv(NetStep(n, a))
  {
    assert n.r.ReceiverOpen();
    if a.ReceiverTick? { WaitingStays(n.r, n.rt, a.now); } else { AnswerStays(n.r, n.rt, a.now); }
    hide NetInv, ReceiverTimers, Routing;
    SameConnection(n, NetStep(n, a).r);
  }

  lemma AskedChangesNothing(s: PeerState, k: Packet, t: Table, now: Time)
    requires k.cmd.Tickle? || k.cmd.ZiReq? || k.cmd.GznReq? || k.cmd.GdzlReq?
    ensures var r := Routing(s, k, t, now); r.peer == s && r.table == t && SequencedOf(r.sent) == []
  {
    NoneSequenced([]);
    if k.cmd.ZiReq? {
      TransactionsUnnumbered(k.conn, ZiPages(k.cmd.nets, t));
    } else {
      NoneSequenced(Routing(s, k, t, now).sent);
    }
  }

  /** Questions that need no number are answered without one. */
  lemma AskedKeepsNet(n: Net, k: Packet, now: Time)
    requires NetInv(n) && Enabled(n, Asked(k, now))
    ensures NetStep(n, Asked(k, now)) == n
  {
    AskedChangesNothing(n.s, k, n.t, now);
    hide Routing, NetInv, SequencedOf;
    assert CmdsOf([]) == [];
  }

  lemma StepKeepsNet(n: Net, a: Act)
    requires NetInv(n) && Enabled(n, a)
    ensures NetInv(NetStep(n, a))
  {
    hide NetInv, NetStep;
    match a
    case LocalRoutes(_) => LocalKeepsNet(n, a);
    case LocalZones(_) => LocalKeepsNet(n, a);
    case SendTick(now) => TickKeepsNet(n, now);
    case StrangerOpens(conn, now) => StrangerKeepsNet(n, conn, now);
    case Asked(k, now) => AskedKeepsNet(n, k, now);
    case RemoteTable(op) => RemoteKeepsNet(n, op);
    case ReceiverTick(_) => WaitingKeepsNet(n, a);
    case TickleAnswered(_) => WaitingKeepsNet(n, a);
    case DeliverData(now) => DataKeepsNet(n, now);
    case DeliverAck(now) => AckKeepsNet(n, now);
    case _ => ChannelKeepsNet(n, a);
  }

  /** An RI-Req served on an open connection: the first page is on its way. */
  ghost predicate Served(n: Net, s: PeerState, t: Table, now: Time) {
    && SenderInv(s) && Live(s) && Inv(t) && s.connRemote == n.r.connLocal != 0
    && Truthful(s.pending, t) && NoneAdded(s.pending)
    && n.r.receiver == WaitRiRsp && n.r.seqRecv == 1 && Sound(n.rt) && Mirrors(n.rt, n.r.ip, map[])
    && var (q, out) := ServeRiReq(s, t, now);
       && n.s == q && n.t == t && n.log == CmdsOf(out) && n.data == out
       && n.heard == [] && n.acks == [] && n.clear
  }

  /** The dialog from nothing: an Open-Req from a new peer, its answer, the RI-Req
      that brings and the export it is served, is how such a run begins. */
  lemma HandshakeServes(a: PeerState, at: Table, b: PeerState, bt: Table, now: Time)
    requires a == NewPeer(a.ip, a.configured, a.connLocal, now) && a.connLocal != 0
    requires b == NewPeer(b.ip, b.configured, b.connLocal, now)
    requires Inv(bt) && Sound(at) && Mirrors(at, a.ip, map[])
    ensures var (a1, request) := Open(a, now);
            && |request| == 1
            && var b1 := Routing(b, request[0], bt, now);
               && |b1.sent| >= 1
               && var a2 := Routing(a1, b1.sent[0], at, now);
                  && |a2.sent| == 1
                  && var b2 := Routing(b1.peer, a2.sent[0], bt, now);
                     var n := Net(b2.peer, bt, CmdsOf(b2.sent), a2.peer, at, [], b2.sent, [], true);
                     Served(n, b1.peer, bt, now)
  {
    hide Inv, Sound, Mirrors, ServeRiReq;
  }

  lemma ServingStartsNet(n: Net, s: PeerState, t: Table, now: Time)
    requires Served(n, s, t, now)
    ensures NetInv(n)
  {
    var (q, out) := ServeRiReq(s, t, now);
    ServeKeepsStep(map[], s, t, now);
    assert |out| == 1 && n.log == [out[0].cmd];
    assert HearLog(n.log) == Hear(map[], out[0].cmd) by { HearLogSnoc([], out[0].cmd); assert [] + n.log == n.log; }
    assert HearLog([]) == map[];
    Numbering(0);
    assert out[0] == Numbered(n.r.connLocal, n.log, 1);
    SplitIsExact(Export(t));
    var p := s.(seqSend := 0, outstanding := None, pages := SplitTuples(Export(t)));
    SendPageKeepsSenderInv(p, now);
    assert SendingOk(n);
  }

  ghost predicate StepsTo(ns: seq<Net>, acts: seq<Act>, i: nat)
    requires i < |acts| && i + 1 < |ns|
  {
    Enabled(ns[i], acts[i]) && ns[i + 1] == NetStep(ns[i], acts[i])
  }

  /** A run of the two routers from a served RI-Req. */
  ghost predicate RunOf(ns: seq<Net>, acts: seq<Act>) {
    && |ns| == |acts| + 1
    && (exists s, t, now :: Served(ns[0], s, t, now))
    && forall i :: 0 <= i < |acts| ==> StepsTo(ns, acts, i)
  }

  /** So there are runs: one begins wherever an export was just served. */
  lemma ServedBegins(n: Net, s: PeerState, t: Table, now: Time)
    requires Served(n, s, t, now)
    ensures RunOf([n], [])
  {
    hide Served;
    assert Served([n][0], s, t, now);
  }

  lemma {:induction false} RunKeepsNet(ns: seq<Net>, acts: seq<Act>, i: nat)
    requires RunOf(ns, acts) && i < |ns|
    ensures NetInv(ns[i])
  {
    hide NetInv, NetStep, Served, Enabled;
    if i == 0 {
      var s, t, now :| Served(ns[0], s, t, now);
      ServingStartsNet(ns[0], s, t, now);
    } else {
      RunKeepsNet(ns, acts, i - 1);
      assert StepsTo(ns, acts, i - 1);
      StepKeepsNet(ns[i - 1], acts[i - 1]);
    }
  }

  /** Stop-and-wait delivery: whatever the channels lose or repeat, the receiver
      takes each numbered command once and in order, lags by at most one, and is
      never driven out of its connection by a number it did not expect. */
  lemma DeliveredOnceInOrder(ns: seq<Net>, acts: seq<Act>, i: nat)
    requires RunOf(ns, acts) && i < |ns|
    ensures ns[i].heard <= ns[i].log && |ns[i].log| <= |ns[i].heard| + 1
    ensures ns[i].r.ReceiverOpen()
  {
    RunKeepsNet(ns, acts, i);
  }

  /** At every moment of every run, what was sent, then the pages in hand, then
      the events pending, tell the peer exactly what the table exports. */
  lemma NothingIsLost(ns: seq<Net>, acts: seq<Act>, i: nat, s: U16)
    requires RunOf(ns, acts) && i < |ns| && ns[i].s.sender != SUnconnected
    ensures var n := ns[i];
            Get(HearEvents(Told(HearLog(n.log), n.s), n.s.pending), s) == Exported(n.t, s)
  {
    RunKeepsNet(ns, acts, i);
    var n := ns[i];
    InStepMeansExport(Told(HearLog(n.log), n.s), n.s.pending, n.t, s);
  }

  /** When the sender is connected with nothing outstanding or pending, the
      receiving table holds through this peer exactly the networks the sending
      table exports, each one hop further. */
  lemma QuietTellsDistances(ns: seq<Net>, acts: seq<Act>, i: nat, s: U16)
    requires RunOf(ns, acts) && i < |ns| && ns[i].clear
    requires ns[i].s.sender == SConnected && ns[i].s.pending == []
    ensures ViaIs(ns[i].rt.routes, Peer(ns[i].r.ip), s, OneMore(Exported(ns[i].t, s)))
  {
    RunKeepsNet(ns, acts, i);
    NothingIsLost(ns, acts, i, s);
    var n := ns[i];
    assert n.heard == n.log;
    assert Told(HearLog(n.log), n.s) == HearLog(n.log);
    assert ViaIs(n.rt.routes, Peer(n.r.ip), s, OneMore(Get(HearLog(n.heard), s)));
  }
}
