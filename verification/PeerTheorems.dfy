/** What a peer's sender side keeps over every packet and every timer. */
module PeerTheorems {
  import opened Wire
  import opened Table
  import opened Paging
  import opened Aurp

  ghost predicate Waiting(s: Sender) { s == WaitRiRspAck || s == WaitRiUpdAck || s == WaitRdAck }

  /** The packets that carry a sequence number of the sender's own. */
  predicate Sequenced(k: Packet) { k.seqno != 0 && (k.cmd.RiRsp? || k.cmd.RiUpd? || k.cmd.Rd?) }

  /** One packet is outstanding exactly while the sender waits for an ack; it is
      the last one numbered; unsent pages exist only while an export is under way;
      and a closed sender holds nothing. */
  ghost predicate SenderInv(p: PeerState) {
    && (p.outstanding.Some? <==> Waiting(p.sender))
    && (p.outstanding.Some? ==>
          && p.outstanding.value.packet.seqno == p.seqSend != 0
          && p.outstanding.value.packet.conn == p.connRemote && Sequenced(p.outstanding.value.packet)
          && 1 <= p.outstanding.value.tries <= RETRIES)
    && (p.pages != [] ==> p.sender == WaitRiRspAck)
    && (p.sender == SUnconnected ==> p.pending == [] && !p.probing && p.seqSend == 0)
  }

  /** Everything that can happen to a peer. */
  datatype Input =
    | Arrives(packet: Packet, now: Time)
    | ReceiverTick(now: Time)
    | SenderTick(now: Time)
    | ReconnectScan(now: Time)
    | GoDown(now: Time)
    | Changes(changes: seq<RouteChange>)

  function PeerStep(p: PeerState, t: Table, i: Input): Routed {
    match i
    case Arrives(packet, now) => Routing(p, packet, t, now)
    case ReceiverTick(now) => ReceiverTimers(p, t, now)
    case SenderTick(now) => Unmoved(SenderTimers(p, now), t)
    case ReconnectScan(now) => Unmoved(Reconnect(p, now), t)
    case GoDown(now) => Unmoved(Shutdown(p, now), t)
    case Changes(cs) => Routed(RouteChanged(p, cs, t), t, [], [])
  }

  function SequencedOf(ks: seq<Packet>): seq<Packet> {
    if ks == [] then []
    else
      var n := |ks| - 1;
      SequencedOf(ks[..n]) + if Sequenced(ks[n]) then [ks[n]] else []
  }

  lemma {:induction false} SequencedConcat(a: seq<Packet>, b: seq<Packet>)
    ensures SequencedOf(a + b) == SequencedOf(a) + SequencedOf(b)
  {
    if b == [] {
      assert a + b == a;
    } else {
      assert (a + b)[..|a + b| - 1] == a + b[..|b| - 1];
      SequencedConcat(a, b[..|b| - 1]);
    }
  }

  lemma {:induction false} NoneSequenced(ks: seq<Packet>)
    requires forall i :: 0 <= i < |ks| ==> !Sequenced(ks[i])
    ensures SequencedOf(ks) == []
  {
    if ks != [] { NoneSequenced(ks[..|ks| - 1]); }
  }

  lemma OneSequenced(k: Packet)
    ensures SequencedOf([k]) == if Sequenced(k) then [k] else []
  {
    assert SequencedOf([k][..0]) == [];
  }

  // ------------------------------------------------------------- the invariant

  lemma SendPageKeepsSenderInv(p: PeerState, now: Time)
    requires p.pages != [] && p.sender != SUnconnected
    ensures SenderInv(SendPage(p, now).0)
  {
  }

  lemma RiAckKeepsSenderInv(p: PeerState, seqno: U16, szi: bool, t: Table, now: Time)
    requires SenderInv(p)
    ensures SenderInv(GetRiAck(p, seqno, szi, t, now).0)
  {
    if p.outstanding.Some? && p.pages != [] { SendPageKeepsSenderInv(p.(outstanding := None), now); }
  }

  lemma OpenReqKeepsSenderInv(p: PeerState, conn: U16, version: nat, options: nat, now: Time)
    requires SenderInv(p)
    ensures SenderInv(GetOpenReq(p, conn, version, options, now).0)
  {
  }

  /** Taking a sequenced packet as receiver leaves the sender's half alone. */
  ghost predicate SameSender(p: PeerState, q: PeerState) {
    && p.sender == q.sender && p.connRemote == q.connRemote && p.seqSend == q.seqSend && p.pages == q.pages
    && p.outstanding == q.outstanding && p.pending == q.pending && p.probing == q.probing
    && p.lastUpdate == q.lastUpdate
  }

  lemma ReceivingKeepsSender(p: PeerState, packet: Packet, t: Table, now: Time)
    requires packet.cmd.RiRsp? || packet.cmd.RiUpd? || packet.cmd.ZiRsp? || packet.cmd.TickleAck? || packet.cmd.OpenRsp?
    ensures SameSender(p, Routing(p, packet, t, now).peer)
  {
  }

  lemma RoutingKeepsSenderInv(p: PeerState, packet: Packet, t: Table, now: Time)
    requires SenderInv(p)
    ensures SenderInv(Routing(p, packet, t, now).peer)
  {
    match packet.cmd
    case OpenReq(version, options) => OpenReqKeepsSenderInv(p, packet.conn, version, options, now);
    case RiReq =>
      var q := p.(seqSend := 0, outstanding := None, pages := SplitTuples(Export(t)));
      if packet.conn == p.connRemote && ServesRiReq(p.sender) { SendPageKeepsSenderInv(q, now); }
    case RiAck(szi) => RiAckKeepsSenderInv(p, packet.seqno, szi, t, now);
    case Rd(_) =>
    case RiRsp(_, _) => ReceivingKeepsSender(p, packet, t, now);
    case RiUpd(_) => ReceivingKeepsSender(p, packet, t, now);
    case ZiRsp(_) => ReceivingKeepsSender(p, packet, t, now);
    case TickleAck => ReceivingKeepsSender(p, packet, t, now);
    case OpenRsp(_) => ReceivingKeepsSender(p, packet, t, now);
    case _ =>
  }

  lemma SenderTickKeepsSenderInv(p: PeerState, now: Time)
    requires SenderInv(p)
    ensures SenderInv(SenderTimers(p, now).0)
  {
  }

  /** The receiver's timers leave the sender's half alone, or probe an idle one. */
  lemma ReceiverTickProbes(p: PeerState, t: Table, now: Time)
    ensures var q := ReceiverTimers(p, t, now).peer;
            SameSender(p, q) ||
            (p.sender == SConnected && SameSender(SendSequenced(p, NULL_UPDATE, [], now).0.(sender := WaitRiUpdAck), q))
  {
    hide Swept;
  }

  lemma ProbeKeepsSenderInv(p: PeerState, now: Time)
    requires SenderInv(p) && p.sender == SConnected
    ensures SenderInv(SendSequenced(p, NULL_UPDATE, [], now).0.(sender := WaitRiUpdAck))
  {
  }

  lemma ReceiverTickKeepsSenderInv(p: PeerState, t: Table, now: Time)
    requires SenderInv(p)
    ensures SenderInv(ReceiverTimers(p, t, now).peer)
  {
    ReceiverTickProbes(p, t, now);
    hide ReceiverTimers, SendSequenced;
    if p.sender == SConnected { ProbeKeepsSenderInv(p, now); }
  }

  lemma StepKeepsSenderInv(p: PeerState, t: Table, i: Input)
    requires SenderInv(p)
    ensures SenderInv(PeerStep(p, t, i).peer)
  {
    hide Routing, ReceiverTimers, SenderTimers;
    match i
    case Arrives(packet, now) => RoutingKeepsSenderInv(p, packet, t, now);
    case ReceiverTick(now) => ReceiverTickKeepsSenderInv(p, t, now);
    case SenderTick(now) => SenderTickKeepsSenderInv(p, now);
    case ReconnectScan(_) =>
    case GoDown(_) =>
    case Changes(_) =>
  }

  function PeerRun(p: PeerState, ins: seq<(Input, Table)>): PeerState {
    if ins == [] then p
    else
      var n := |ins| - 1;
      PeerStep(PeerRun(p, ins[..n]), ins[n].1, ins[n].0).peer
  }

  /** Over every run from a fresh peer, whatever arrives and whenever it ticks. */
  lemma {:induction false} SenderInvAlways(ip: nat, configured: bool, conn: U16, start: Time, ins: seq<(Input, Table)>)
    ensures SenderInv(PeerRun(NewPeer(ip, configured, conn, start), ins))
  {
    if ins != [] {
      var n := |ins| - 1;
      SenderInvAlways(ip, configured, conn, start, ins[..n]);
      StepKeepsSenderInv(PeerRun(NewPeer(ip, configured, conn, start), ins[..n]), ins[n].1, ins[n].0);
    }
  }

  // ------------------------------------------------------------- how often a packet is sent

  /** One packet or none goes out under a number. If one goes out on a timer it
      is the outstanding one again, counted; otherwise it is a new outstanding
      packet on its first try. */
  ghost predicate CountsTries(p: PeerState, i: Input, r: Routed) {
    var ks := SequencedOf(r.sent);
    && |ks| <= 1
    && (ks != [] ==> r.peer.outstanding.Some? && ks == [r.peer.outstanding.value.packet])
    && (ks != [] && (!i.SenderTick? || p.outstanding.None?) ==> r.peer.outstanding.value.tries == 1)
    && (ks != [] && i.SenderTick? && p.outstanding.Some? ==>
          r.peer.outstanding.value == p.outstanding.value.(tries := p.outstanding.value.tries + 1, at := i.now))
    && (ks == [] ==> r.peer.outstanding.None? || r.peer.outstanding == p.outstanding)
  }

  lemma TransactionsUnnumbered(conn: U16, pages: seq<ZiPage>)
    ensures SequencedOf(Transactions(conn, pages)) == []
  {
    NoneSequenced(Transactions(conn, pages));
  }

  lemma SendPageCounts(p: PeerState, now: Time)
    ensures var (q, out) := SendPage(p, now);
            if p.pages == [] then q == p && out == []
            else q.outstanding.Some? && out == [q.outstanding.value.packet]
                 && Sequenced(out[0]) && q.outstanding.value.tries == 1
  {
  }

  /** What goes out is either nothing numbered, or a new outstanding packet. */
  ghost predicate FreshOrNone(p: PeerState, out: seq<Packet>, q: PeerState) {
    var ks := SequencedOf(out);
    if ks == [] then q.outstanding.None? || q.outstanding == p.outstanding
    else q.outstanding.Some? && ks == [q.outstanding.value.packet] && q.outstanding.value.tries == 1
  }

  /** Unnumbered packets in front change nothing. */
  lemma UnnumberedFirst(p: PeerState, zi: seq<Packet>, out: seq<Packet>, q: PeerState)
    requires SequencedOf(zi) == [] && FreshOrNone(p, out, q)
    ensures FreshOrNone(p, zi + out, q)
  {
    SequencedConcat(zi, out);
    assert [] + SequencedOf(out) == SequencedOf(out);
  }

  lemma PageCounts(p: PeerState, q: PeerState, now: Time)
    requires q.outstanding == None
    ensures FreshOrNone(p, SendPage(q, now).1, SendPage(q, now).0)
  {
    SendPageCounts(q, now);
    if q.pages != [] { OneSequenced(SendPage(q, now).1[0]); }
  }

  lemma RiAckCounts(p: PeerState, seqno: U16, szi: bool, t: Table, now: Time)
    ensures FreshOrNone(p, GetRiAck(p, seqno, szi, t, now).1, GetRiAck(p, seqno, szi, t, now).0)
  {
    hide ZiPages, Transactions, SequencedOf, SendPage;
    assert SequencedOf([]) == [] by { NoneSequenced([]); }
    if p.outstanding.Some? && p.outstanding.value.packet.seqno == seqno {
      var pages, q := ZiPages(p.outstanding.value.nets, t), p.(outstanding := None);
      var zi := if szi then Transactions(p.connRemote, pages) else [];
      TransactionsUnnumbered(p.connRemote, pages);
      if p.sender == WaitRiRspAck && p.pages != [] {
        PageCounts(p, q, now);
        UnnumberedFirst(p, zi, SendPage(q, now).1, SendPage(q, now).0);
      }
    }
  }

  lemma OpenReqCounts(p: PeerState, conn: U16, version: nat, options: nat, now: Time)
    ensures FreshOrNone(p, GetOpenReq(p, conn, version, options, now).1, GetOpenReq(p, conn, version, options, now).0)
  {
    var out := GetOpenReq(p, conn, version, options, now).1;
    if |out| == 1 { OneSequenced(out[0]); }
    if |out| == 2 { NoneSequenced(out); }
  }

  lemma ServeCounts(p: PeerState, t: Table, now: Time)
    ensures FreshOrNone(p, ServeRiReq(p, t, now).1, ServeRiReq(p, t, now).0)
  {
    hide SendPage, SplitTuples, Export, FreshOrNone;
    PageCounts(p, p.(seqSend := 0, outstanding := None, pages := SplitTuples(Export(t))), now);
  }

  /** Every other command is answered, if at all, with one unnumbered packet. */
  lemma OthersSendNoData(p: PeerState, packet: Packet, t: Table, now: Time)
    requires !packet.cmd.OpenReq? && !packet.cmd.RiReq? && !packet.cmd.RiAck? && !packet.cmd.ZiReq?
    ensures var r := Routing(p, packet, t, now);
            && (r.sent == [] || (|r.sent| == 1 && !Sequenced(r.sent[0])))
            && (r.peer.outstanding.None? || r.peer.outstanding == p.outstanding)
  {
    match packet.cmd
    case RiRsp(_, _) => ReceivingKeepsSender(p, packet, t, now);
    case RiUpd(_) => ReceivingKeepsSender(p, packet, t, now);
    case ZiRsp(_) => ReceivingKeepsSender(p, packet, t, now);
    case OpenRsp(_) => ReceivingKeepsSender(p, packet, t, now);
    case _ =>
  }

  lemma NothingOut(p: PeerState, q: PeerState)
    requires q.outstanding.None? || q.outstanding == p.outstanding
    ensures FreshOrNone(p, [], q)
  {
  }

  lemma OneUnnumbered(p: PeerState, out: seq<Packet>, q: PeerState)
    requires |out| <= 1 && (out != [] ==> !Sequenced(out[0])) && (q.outstanding.None? || q.outstanding == p.outstanding)
    ensures FreshOrNone(p, out, q)
  {
    if out != [] { OneSequenced(out[0]); assert out == [out[0]]; }
  }

  lemma RoutingCounts(p: PeerState, packet: Packet, t: Table, now: Time)
    ensures FreshOrNone(p, Routing(p, packet, t, now).sent, Routing(p, packet, t, now).peer)
  {
    hide FreshOrNone;
    NothingOut(p, p);
    match packet.cmd
    case OpenReq(version, options) =>
      hide GetOpenReq;
      OpenReqCounts(p, packet.conn, version, options, now);
    case RiReq =>
      hide ServeRiReq;
      ServeCounts(p, t, now);
    case RiAck(szi) =>
      hide GetRiAck;
      RiAckCounts(p, packet.seqno, szi, t, now);
    case ZiReq(nets) =>
      hide Transactions, ZiPages;
      ZonesAnswerCounts(p, packet.conn, nets, t);
    case _ =>
      OthersSendNoData(p, packet, t, now);
      hide Routing;
      OneUnnumbered(p, Routing(p, packet, t, now).sent, Routing(p, packet, t, now).peer);
  }

  lemma ZonesAnswerCounts(p: PeerState, conn: U16, nets: seq<U16>, t: Table)
    ensures FreshOrNone(p, Transactions(conn, ZiPages(nets, t)), p)
  {
    TransactionsUnnumbered(conn, ZiPages(nets, t));
  }

  lemma TickCounts(p: PeerState, t: Table, now: Time)
    requires SenderInv(p)
    ensures CountsTries(p, SenderTick(now), Unmoved(SenderTimers(p, now), t))
  {
    var out := SenderTimers(p, now).1;
    NoneSequenced([]);
    if out != [] {
      OneSequenced(out[0]);
      assert out == [out[0]];
    }
    hide SequencedOf;
  }

  lemma OtherTicksCount(p: PeerState, t: Table, i: Input)
    requires !i.Arrives? && !i.SenderTick?
    ensures FreshOrNone(p, PeerStep(p, t, i).sent, PeerStep(p, t, i).peer)
  {
    hide SequencedOf, QueuedAll, Swept;
    var out := PeerStep(p, t, i).sent;
    assert SequencedOf([]) == [] by { NoneSequenced([]); }
    if out != [] { OneSequenced(out[0]); assert out == [out[0]]; }
  }

  lemma StepCountsTries(p: PeerState, t: Table, i: Input)
    requires SenderInv(p)
    ensures CountsTries(p, i, PeerStep(p, t, i))
  {
    hide Routing, SenderTimers, ReceiverTimers, SequencedOf;
    match i
    case Arrives(packet, now) => RoutingCounts(p, packet, t, now);
    case SenderTick(now) => TickCounts(p, t, now);
    case _ => OtherTicksCount(p, t, i);
  }

  /** How many times the outstanding packet has been transmitted: a new packet
      starts the count, a retransmission adds to it. */
  function Transmissions(p: PeerState, ins: seq<(Input, Table)>): nat {
    if ins == [] then 0
    else
      var n := |ins| - 1;
      var q := PeerRun(p, ins[..n]);
      var ks := SequencedOf(PeerStep(q, ins[n].1, ins[n].0).sent);
      if ks == [] then Transmissions(p, ins[..n])
      else if ins[n].0.SenderTick? && q.outstanding.Some? then Transmissions(p, ins[..n]) + |ks|
      else |ks|
  }

  /** No packet is transmitted more than five times before it is acked, superseded
      or the sender closes. */
  lemma {:induction false} AtMostFiveTransmissions(ip: nat, configured: bool, conn: U16, start: Time, ins: seq<(Input, Table)>)
    ensures var p := NewPeer(ip, configured, conn, start);
            var q := PeerRun(p, ins);
            q.outstanding.Some? ==> Transmissions(p, ins) == q.outstanding.value.tries <= RETRIES
  {
    SenderInvAlways(ip, configured, conn, start, ins);
    if ins != [] {
      var n := |ins| - 1;
      var p := NewPeer(ip, configured, conn, start);
      AtMostFiveTransmissions(ip, configured, conn, start, ins[..n]);
      SenderInvAlways(ip, configured, conn, start, ins[..n]);
      StepCountsTries(PeerRun(p, ins[..n]), ins[n].1, ins[n].0);
    }
  }
}
