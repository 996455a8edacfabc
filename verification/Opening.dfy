/** How a receiver comes to be connected, and how zones are asked for: over every run of
    the two routers the receiver waits for the export exactly until the page marked last,
    and the ack of whatever names new networks brings their zone lists. */
module Opening {
  import opened Wire
  import opened Table
  import opened TableTheorems
  import opened Paging
  import opened Aurp
  import opened ExportSync
  import opened TunnelView
  import opened PeerTheorems
  import opened TwoRouters
  import opened Delivery
  import opened SenderSteps

  /** The whole export is among these commands. */
  ghost predicate HasLast(cmds: seq<Cmd>) { exists i :: 0 <= i < |cmds| && cmds[i].RiRsp? && cmds[i].last }

  /** A command whose ack asks for zones: any page, and an update that adds a network. */
  predicate Wants(c: Cmd) {
    match c
    case RiRsp(_, _) => true
    case RiUpd(es) => exists i :: 0 <= i < |es| && es[i].code == NA
    case _ => false
  }

  /** An ack of a command that wants zones asks for them. */
  ghost predicate Asks(log: seq<Cmd>, ack: Packet)
    requires log != []
  {
    && ack.cmd.RiAck?
    && (ack.seqno == NumberOf(|log|) && Wants(log[|log| - 1]) ==> ack.cmd.szi)
    && (|log| > 1 && ack.seqno == NumberOf(|log| - 1) && Wants(log[|log| - 2]) ==> ack.cmd.szi)
  }

  ghost predicate AllAsk(log: seq<Cmd>, acks: seq<Packet>)
    requires log != []
  {
    forall i :: 0 <= i < |acks| ==> Asks(log, acks[i])
  }

  /** The receiver waits for the export exactly while it has not heard the last page; the
      sender has pages in hand exactly while it has not sent it; acks ask for zones where
      they should; and what is outstanding remembers the networks it names. */
  ghost predicate OpenInv(n: Net)
    requires n.log != []
  {
    && (n.r.receiver == WaitRiRsp <==> !HasLast(n.heard))
    && (Live(n.s) ==> (n.s.pages == [] <==> HasLast(n.log)))
    && AllAsk(n.log, n.acks)
    && (n.s.outstanding.Some? ==> n.s.outstanding.value.nets == NamedBy(n.s.outstanding.value.packet.cmd))
  }

  lemma HasLastSnoc(cmds: seq<Cmd>, c: Cmd)
    ensures HasLast(cmds + [c]) <==> HasLast(cmds) || (c.RiRsp? && c.last)
  {
    var more := cmds + [c];
    if HasLast(cmds) {
      var i :| 0 <= i < |cmds| && cmds[i].RiRsp? && cmds[i].last;
      assert more[i] == cmds[i];
    }
    if c.RiRsp? && c.last { assert more[|cmds|] == c; }
    if HasLast(more) {
      var i :| 0 <= i < |more| && more[i].RiRsp? && more[i].last;
      if i < |cmds| { assert cmds[i].RiRsp? && cmds[i].last; }
    }
  }

  // ------------------------------------------------------------- the receiver

  /** A new page or update, answered: the receiver is connected once the page marked last
      has come, and the first ack asks for the zones of whatever names a network. */
  lemma NewTaken(r: PeerState, d: Packet, t: Table, now: Time)
    requires r.ReceiverOpen() && d.conn == r.connLocal && CheckSeq(r.seqRecv, d.seqno) == New
    requires d.cmd.RiRsp? || d.cmd.RiUpd?
    ensures var out := Routing(r, d, t, now);
            && out.sent == [Packet(d.conn, d.seqno, RiAck(Wants(d.cmd)))]
            && out.peer.receiver == (if d.cmd.RiRsp? && d.cmd.last then RConnected else r.receiver)
  {
    hide LearnAll, ApplyAll;
  }

  /** What the ack of an arriving packet says. */
  lemma ArrivalIsAcked(n: Net, now: Time) returns (szi: bool)
    requires NetInv(n) && n.data != []
    ensures var m, d := NetStep(n, DeliverData(now)), n.data[0];
            && m.acks == n.acks + [Packet(d.conn, d.seqno, RiAck(szi))] && (Wants(d.cmd) ==> szi)
            && (d.seqno == NumberOf(|n.heard| + 1) ==>
                  && szi == Wants(d.cmd) && m.heard == n.heard + [d.cmd]
                  && m.r.receiver == if d.cmd.RiRsp? && d.cmd.last then RConnected else n.r.receiver)
            && (d.seqno != NumberOf(|n.heard| + 1) ==> m.heard == n.heard && m.r.receiver == n.r.receiver)
            && m.s == n.s && m.log == n.log
  {
    hide Inv, InStep, Told, HearLog, Sound, Mirrors, SenderInv, Routing, Room, Wants;
    var d, j := n.data[0], |n.heard|;
    Numbering(j);
    Numbering(j + 1);
    if d.seqno == NumberOf(j + 1) {
      NewTaken(n.r, d, n.rt, now);
      szi := Wants(d.cmd);
    } else {
      DuplicateAnswered(n.r, d, n.rt, now);
      szi := true;
    }
  }

  /** An arriving packet is the last one numbered or the one before. */
  lemma ArrivalIsLogged(n: Net)
    requires NetInv(n) && n.data != []
    ensures var k, d := |n.log|, n.data[0];
            || (d.seqno == NumberOf(k) && d.cmd == n.log[k - 1])
            || (k > 1 && d.seqno == NumberOf(k - 1) && d.cmd == n.log[k - 2])
    ensures |n.log| > 1 ==> NumberOf(|n.log|) != NumberOf(|n.log| - 1)
  {
    hide Inv, InStep, Told, HearLog, Sound, Mirrors, SenderInv, SendingOk, AcksOk;
    Numbering(|n.log| - 1);
  }

  lemma ArrivalKeepsOpen(n: Net, now: Time)
    requires NetInv(n) && OpenInv(n) && n.data != []
    ensures OpenInv(NetStep(n, DeliverData(now)))
  {
    var d := n.data[0];
    var szi := ArrivalIsAcked(n, now);
    ArrivalIsLogged(n);
    var waiting := n.r.receiver == WaitRiRsp;
    if d.seqno == NumberOf(|n.heard| + 1) { HasLastSnoc(n.heard, d.cmd); }
    hide NetInv, NetStep, HasLast, Wants, Live;
    assert Asks(n.log, Packet(d.conn, d.seqno, RiAck(szi)));
  }

  lemma TimersStayOpen(r: PeerState, t: Table, now: Time)
    requires r.receiver == RConnected || r.receiver == WaitTickleAck
    requires ReceiverTimers(r, t, now).peer.ReceiverOpen()
    ensures ReceiverTimers(r, t, now).peer.receiver != WaitRiRsp
  {
    hide Swept;
  }

  lemma AnswersStayOpen(r: PeerState, t: Table, now: Time)
    ensures var q := Routing(r, Packet(r.connLocal, 0, TickleAck), t, now).peer;
            q.receiver == WaitRiRsp <==> r.receiver == WaitRiRsp
  {
  }

  lemma ReceiverKeepsOpen(n: Net, a: Act)
    requires NetInv(n) && OpenInv(n) && Enabled(n, a) && (a.ReceiverTick? || a.TickleAnswered? || a.RemoteTable?)
    ensures OpenInv(NetStep(n, a))
  {
    match a
    case ReceiverTick(now) => TimersStayOpen(n.r, n.rt, now);
    case TickleAnswered(now) => AnswersStayOpen(n.r, n.rt, now);
    case _ =>
    hide NetInv, ReceiverTimers, Routing, Step, HasLast, AllAsk;
  }

  // ------------------------------------------------------------- the sender

  lemma AcksAskOn(log: seq<Cmd>, acks: seq<Packet>, c: Cmd)
    requires log != [] && AllAsk(log, acks) && All(acks, NumberOf(|log|))
    ensures AllAsk(log + [c], acks)
  {
    Numbering(|log|);
    hide Wants;
    forall i | 0 <= i < |acks| ensures Asks(log + [c], acks[i]) { assert Asks(log, acks[i]); }
  }

  lemma FreshKeepsOpen(n: Net, q: PeerState, k: Packet)
    requires n.log != [] && OpenInv(n) && OutcomeOk(n, Fresh(q, k)) && Live(n.s) && All(n.acks, NumberOf(|n.log|))
    ensures OpenInv(Applied(n, Fresh(q, k)))
  {
    hide HasLast, Asks, All, NamedBy;
    HasLastSnoc(n.log, k.cmd);
    AcksAskOn(n.log, n.acks, k.cmd);
    var m := Applied(n, Fresh(q, k));
    assert m.log == n.log + [k.cmd] && m.acks == n.acks && m.s == q;
    assert q.pages == [] <==> HasLast(m.log);
  }

  lemma StaleKeepsOpen(n: Net, o: Outcome)
    requires n.log != [] && OpenInv(n) && OutcomeOk(n, o) && !o.Fresh? && (o.Settled? ==> Live(n.s))
    ensures OpenInv(Applied(n, o))
  {
    hide HasLast, AllAsk, All, NamedBy;
    var m := Applied(n, o);
    assert m.log == n.log && m.acks == n.acks && m.heard == n.heard && m.r == n.r;
  }

  lemma OutcomeKeepsOpen(n: Net, o: Outcome)
    requires n.log != [] && OpenInv(n) && OutcomeOk(n, o)
    requires o.Fresh? ==> Live(n.s) && All(n.acks, NumberOf(|n.log|))
    requires o.Settled? ==> Live(n.s)
    ensures OpenInv(Applied(n, o))
  {
    if o.Fresh? {
      hide OpenInv, OutcomeOk, Applied, Live, All;
      FreshKeepsOpen(n, o.peer, o.packet);
    } else {
      StaleKeepsOpen(n, o);
    }
  }

  /** A fresh packet goes out only when every ack on its way is of the one before. */
  lemma FreshMeansSettled(n: Net, m: Net, k: Packet)
    requires NetInv(n) && NetInv(m) && m.log == n.log + [k.cmd] && m.heard == n.heard
    ensures |n.heard| == |n.log|
  {
    hide Inv, InStep, Told, HearLog, Sound, Mirrors, SenderInv, DataOk, AcksOk, SendingOk;
    assert |m.log| <= |m.heard| + 1;
  }

  lemma AckShortensOpen(n: Net)
    requires n.log != [] && OpenInv(n) && n.acks != []
    ensures OpenInv(n.(acks := n.acks[1..]))
  {
    hide HasLast, Asks, NamedBy;
    var m := n.(acks := n.acks[1..]);
    forall i | 0 <= i < |m.acks| ensures Asks(m.log, m.acks[i]) { assert m.acks[i] == n.acks[i + 1]; }
  }

  lemma SenderKeepsOpen(n: Net, a: Act)
    requires NetInv(n) && n.log != [] && OpenInv(n) && Enabled(n, a) && (a.SendTick? || a.StrangerOpens? || a.DeliverAck?)
    ensures NetStep(n, a).log != [] && OpenInv(NetStep(n, a))
  {
    StepKeepsNet(n, a);
    LogNotEmpty(NetStep(n, a));
    hide NetInv, NetStep, OpenInv, OutcomeOk, Applied;
    var m, o := n, Still;
    match a {
      case SendTick(now) => o := TickOutcome(n, now);
      case StrangerOpens(conn, now) => o := StrangerOutcome(n, conn, now);
      case DeliverAck(now) =>
        AckTaken(n);
        AckShortensOpen(n);
        m := n.(acks := n.acks[1..]);
        o := AckOutcome(n, now);
    }
    if o.Fresh? || o.Settled? { SendersWere(n, m, o); }
    OutcomeKeepsOpen(m, o);
  }

  lemma SendersWere(n: Net, m: Net, o: Outcome)
    requires NetInv(n) && NetInv(m) && m.log != [] && (m == n || (n.acks != [] && m == n.(acks := n.acks[1..])))
    requires OutcomeOk(m, o) && (o.Fresh? || o.Settled?) && NetInv(Applied(m, o))
    ensures Live(m.s) && (o.Fresh? ==> All(m.acks, NumberOf(|m.log|)))
  {
    if o.Fresh? {
      FreshMeansSettled(m, Applied(m, o), o.packet);
      FreshAcks(m, o.peer, o.packet);
    } else {
      assert Live(m.s);
    }
  }

  lemma FreshAcks(m: Net, q: PeerState, k: Packet)
    requires NetInv(m) && NetInv(m.(s := q, data := m.data + [k], log := m.log + [k.cmd]))
    ensures All(m.acks, NumberOf(|m.log|))
  {
    hide Inv, InStep, Told, HearLog, Sound, Mirrors, SenderInv, DataOk, SendingOk, Live;
  }

  // ------------------------------------------------------------- every step

  lemma ChannelsKeepOpen(n: Net, a: Act)
    requires NetInv(n) && OpenInv(n) && Enabled(n, a) && (a.LoseData? || a.RepeatData? || a.LoseAck? || a.RepeatAck?)
    ensures OpenInv(NetStep(n, a))
  {
    hide HasLast, Asks;
    var m := NetStep(n, a);
    assert m.log == n.log;
    forall i | 0 <= i < |m.acks| ensures Asks(m.log, m.acks[i]) {
      assert m.acks[i] in n.acks;
    }
  }

  lemma OthersKeepOpen(n: Net, a: Act)
    requires NetInv(n) && OpenInv(n) && Enabled(n, a) && (a.LocalRoutes? || a.LocalZones? || a.Asked?)
    ensures OpenInv(NetStep(n, a))
  {
    match a
    case Asked(k, now) => AskedKeepsNet(n, k, now);
    case _ => hide NetInv, Run, QueuedAll, HasLast, AllAsk;
  }

  lemma StepKeepsOpen(n: Net, a: Act)
    requires NetInv(n) && n.log != [] && OpenInv(n) && Enabled(n, a)
    ensures NetInv(NetStep(n, a)) && NetStep(n, a).log != [] && OpenInv(NetStep(n, a))
  {
    StepKeepsNet(n, a);
    LogNotEmpty(NetStep(n, a));
    hide NetStep, OpenInv, NetInv;
    match a
    case LocalRoutes(_) => OthersKeepOpen(n, a);
    case LocalZones(_) => OthersKeepOpen(n, a);
    case Asked(_, _) => OthersKeepOpen(n, a);
    case SendTick(_) => SenderKeepsOpen(n, a);
    case StrangerOpens(_, _) => SenderKeepsOpen(n, a);
    case DeliverAck(_) => SenderKeepsOpen(n, a);
    case DeliverData(now) => ArrivalKeepsOpen(n, now);
    case RemoteTable(_) => ReceiverKeepsOpen(n, a);
    case ReceiverTick(_) => ReceiverKeepsOpen(n, a);
    case TickleAnswered(_) => ReceiverKeepsOpen(n, a);
    case _ => ChannelsKeepOpen(n, a);
  }

  lemma ServingOpens(n: Net, s: PeerState, t: Table, now: Time)
    requires Served(n, s, t, now)
    ensures n.log != [] && OpenInv(n)
  {
    assert !HasLast([]);
    hide Truthful, NoneAdded, Inv, Sound, Mirrors, Export, SplitTuples, SenderInv, HasLast;
    SplitIsExact(Export(t));
    var p := s.(seqSend := 0, outstanding := None, pages := SplitTuples(Export(t)));
    var (q, out) := SendPage(p, now);
    assert CmdsOf(out) == [RiRsp(p.pages[1..] == [], p.pages[0])];
    HasLastSnoc([], n.log[0]);
    assert [] + [n.log[0]] == n.log;
  }

  lemma {:induction false} RunKeepsOpen(ns: seq<Net>, acts: seq<Act>, i: nat)
    requires RunOf(ns, acts) && i < |ns|
    ensures NetInv(ns[i]) && ns[i].log != [] && OpenInv(ns[i])
  {
    hide NetInv, NetStep, Served, Enabled, OpenInv;
    if i == 0 {
      var s, t, now :| Served(ns[0], s, t, now);
      ServingStartsNet(ns[0], s, t, now);
      ServingOpens(ns[0], s, t, now);
    } else {
      RunKeepsOpen(ns, acts, i - 1);
      assert StepsTo(ns, acts, i - 1);
      StepKeepsOpen(ns[i - 1], acts[i - 1]);
      LogNotEmpty(ns[i]);
    }
  }

  lemma LogNotEmpty(n: Net)
    requires NetInv(n)
    ensures n.log != []
  {
  }

  // ------------------------------------------------------------- what follows

  /** Over every run the receiver waits for the export exactly while no page marked last
      has been heard, and is connected, or awaits a tickle, from then on. */
  lemma ConnectedWithTheLastPage(ns: seq<Net>, acts: seq<Act>, i: nat)
    requires RunOf(ns, acts) && i < |ns|
    ensures ns[i].r.receiver == WaitRiRsp <==> !HasLast(ns[i].heard)
    ensures HasLast(ns[i].heard) ==> ns[i].r.receiver == RConnected || ns[i].r.receiver == WaitTickleAck
  {
    RunKeepsOpen(ns, acts, i);
  }

  /** A quiet sender has been heard to the end of its export. */
  lemma QuietIsConnected(ns: seq<Net>, acts: seq<Act>, i: nat)
    requires RunOf(ns, acts) && i < |ns| && ns[i].s.sender == SConnected
    ensures ns[i].r.receiver == RConnected || ns[i].r.receiver == WaitTickleAck
  {
    RunKeepsOpen(ns, acts, i);
    var n := ns[i];
    assert Live(n.s) && SendingOk(n) && SenderInv(n.s);
    assert n.heard == n.log;
    hide RunOf, SendingOk, DataOk, AcksOk, Inv, InStep, Sound, Mirrors;
  }

  /** The first ack of every page, and of every update that adds a network, asks for
      zones; of any other update it does not. */
  lemma FirstAckAsks(ns: seq<Net>, acts: seq<Act>, i: nat, now: Time)
    requires RunOf(ns, acts) && i < |acts| && acts[i] == DeliverData(now)
    requires ns[i].data != [] && ns[i].data[0].seqno == NumberOf(|ns[i].heard| + 1)
    ensures var d := ns[i].data[0];
            && ns[i + 1].heard == ns[i].heard + [d.cmd]
            && ns[i + 1].acks == ns[i].acks + [Packet(d.conn, d.seqno, RiAck(Wants(d.cmd)))]
  {
    RunKeepsNet(ns, acts, i);
    assert StepsTo(ns, acts, i);
    hide NetInv, NetStep, RunOf, Enabled;
    var szi := ArrivalIsAcked(ns[i], now);
  }

  /** Whatever the channels did meanwhile, the ack of an outstanding page, or of an update
      that adds a network, is answered at once with the zone lists of exactly the networks
      it names, in order, before anything numbered goes out. */
  lemma AckBringsZones(ns: seq<Net>, acts: seq<Act>, i: nat, now: Time)
    requires RunOf(ns, acts) && i < |acts| && acts[i] == DeliverAck(now) && ns[i].acks != []
    requires ns[i].s.outstanding.Some? && ns[i].acks[0].seqno == ns[i].s.outstanding.value.packet.seqno
    requires Wants(ns[i].s.outstanding.value.packet.cmd) && ZonesFit(ns[i].t)
    ensures var n, c := ns[i], ns[i].s.outstanding.value.packet.cmd;
            var sent := Routing(n.s, n.acks[0], n.t, now).sent;
            && sent == Transactions(n.s.connRemote, ZiPages(NamedBy(c), n.t)) + SequencedOf(sent)
            && ZonesIn(ZiPages(NamedBy(c), n.t)) == Owed(NamedBy(c), n.t)
  {
    RunKeepsOpen(ns, acts, i);
    var n := ns[i];
    ZiPagesAreExact(NamedBy(n.s.outstanding.value.packet.cmd), n.t);
    AckIsAsking(n);
    hide RunOf, NetInv, OpenInv, ZonesIn, Owed, NamedBy, ZiPages;
    ZonesGoOut(n.s, n.acks[0], n.t, now);
  }

  lemma AckIsAsking(n: Net)
    requires NetInv(n) && OpenInv(n) && n.acks != [] && n.s.outstanding.Some?
    requires n.acks[0].seqno == n.s.outstanding.value.packet.seqno && Wants(n.s.outstanding.value.packet.cmd)
    ensures n.acks[0].cmd.RiAck? && n.acks[0].cmd.szi && n.acks[0].conn == n.s.connRemote && Live(n.s)
    ensures n.s.outstanding.value.nets == NamedBy(n.s.outstanding.value.packet.cmd)
  {
    assert Live(n.s) && SendingOk(n);
    hide Inv, InStep, Told, HearLog, Sound, Mirrors, SenderInv, DataOk, HasLast, Wants, NamedBy;
    assert Asks(n.log, n.acks[0]);
  }

  lemma ZonesGoOut(s: PeerState, ack: Packet, t: Table, now: Time)
    requires s.outstanding.Some? && Live(s) && ack.cmd.RiAck? && ack.cmd.szi && ack.conn == s.connRemote
    requires ack.seqno == s.outstanding.value.packet.seqno
    ensures var sent := Routing(s, ack, t, now).sent;
            sent == Transactions(s.connRemote, ZiPages(s.outstanding.value.nets, t)) + SequencedOf(sent)
  {
    hide ZiPages, Transactions, SequencedOf;
    var zi := Transactions(s.connRemote, ZiPages(s.outstanding.value.nets, t));
    TransactionsUnnumbered(s.connRemote, ZiPages(s.outstanding.value.nets, t));
    NoneSequenced([]);
    var sent := Routing(s, ack, t, now).sent;
    if s.sender == WaitRiRspAck && s.pages != [] {
      var page := SendPage(s.(outstanding := None), now).1;
      SendPageCounts(s.(outstanding := None), now);
      OneSequenced(page[0]);
      SequencedConcat(zi, page);
      assert sent == zi + page && SequencedOf(sent) == page;
    } else {
      assert sent == zi;
      assert zi + [] == zi;
    }
  }
}
