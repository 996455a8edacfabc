/** What each step of the sender comes to: nothing, a packet again, the end of the
    connection, the end of a wait, or one new numbered packet that says the next thing. */
module SenderSteps {
  import opened Wire
  import opened Table
  import opened TableTheorems
  import opened Paging
  import opened Aurp
  import opened ExportSync
  import opened TunnelView
  import opened PeerTheorems
  import opened TwoRouters
  import opened Delivery

  /** The networks a numbered command names, whose zones its ack may ask for. */
  function NamedBy(c: Cmd): seq<U16> {
    match c
    case RiRsp(_, ts) => StartsOf(ts)
    case RiUpd(es) => Added(es)
    case _ => []
  }

  datatype Outcome =
    | Still
    | Closed
    | Settled
    | Again(peer: PeerState)
    | Fresh(peer: PeerState, packet: Packet)

  ghost function Applied(n: Net, o: Outcome): Net {
    match o
    case Still => n
    case Closed => n.(s := CloseSender(n.s))
    case Settled => n.(s := n.s.(outstanding := None, sender := SConnected, probing := false))
    case Again(q) => if q.outstanding.Some? then n.(s := q, data := n.data + [q.outstanding.value.packet]) else n
    case Fresh(q, k) => n.(s := q, data := n.data + [k], log := n.log + [k.cmd])
  }

  /** The next page in hand, marked last when it is; or everything pending; or a probe. */
  ghost predicate SaysNext(s: PeerState, q: PeerState, c: Cmd) {
    || (s.pages != [] && c == RiRsp(s.pages[1..] == [], s.pages[0]) && q.pages == s.pages[1..] && q.pending == s.pending)
    || (s.pages == [] && c == RiUpd(s.pending) && q.pages == [] && q.pending == [])
    || (s.pages == [] && c == NULL_UPDATE && q.pages == [] && q.pending == s.pending)
  }

  ghost predicate OutcomeOk(n: Net, o: Outcome) {
    match o
    case Still => true
    case Closed => true
    case Settled => n.s.outstanding.Some? && n.s.pages == []
    case Again(q) =>
      && n.s.outstanding.Some? && q.outstanding.Some? && q == n.s.(outstanding := q.outstanding)
      && q.outstanding.value.packet == n.s.outstanding.value.packet
      && q.outstanding.value.nets == n.s.outstanding.value.nets
    case Fresh(q, k) =>
      && Live(n.s) && Live(q) && q.ip == n.s.ip && SaysNext(n.s, q, k.cmd) && k.seqno == NumberOf(|n.log| + 1)
      && q.outstanding.Some? && q.outstanding.value.packet == k && q.outstanding.value.nets == NamedBy(k.cmd)
  }

  // ------------------------------------------------------------- the timer

  lemma UpdateSent(s: PeerState, now: Time)
    requires SenderInv(s) && s.outstanding.None? && Live(s) && SenderTimers(s, now).1 != []
    ensures var (q, out) := SenderTimers(s, now);
            && |out| == 1 && Sequenced(out[0]) && out[0].seqno == Succ(s.seqSend)
            && SaysNext(s, q, out[0].cmd) && Live(q) && q.ip == s.ip
            && q.outstanding.Some? && q.outstanding.value.packet == out[0] && q.outstanding.value.nets == NamedBy(out[0].cmd)
  {
  }

  lemma RetriedNets(s: PeerState, now: Time)
    requires s.outstanding.Some? && SenderTimers(s, now).1 != []
    ensures var q := SenderTimers(s, now).0; q.outstanding.Some? && q.outstanding.value.nets == s.outstanding.value.nets
  {
  }

  lemma TickOutcome(n: Net, now: Time) returns (o: Outcome)
    requires NetInv(n)
    ensures NetStep(n, SendTick(now)) == Applied(n, o) && OutcomeOk(n, o)
    ensures !o.Settled?
  {
    if !Live(n.s) {
      assert NetStep(n, SendTick(now)) == n;
      return Still;
    }
    var (q, out) := SenderTimers(n.s, now);
    assert SenderInv(n.s) && SendingOk(n) && n.s.seqSend == NumberOf(|n.log|);
    Numbering(|n.log|);
    if n.s.outstanding.Some? {
      RetrySends(n.s, now);
      if out != [] { RetriedNets(n.s, now); }
      hide NetInv, SenderTimers, SenderInv, Sending, Live, SendingOk;
      if out != [] {
        SendingOne(n, q, out[0], false);
        o := Again(q);
      } else {
        SendingNone(n, q, false);
        o := if q == n.s then Still else Closed;
      }
    } else {
      FlushSends(n.s, now);
      if out != [] { UpdateSent(n.s, now); }
      hide NetInv, SenderTimers, SenderInv, Sending, Live, SendingOk, SaysNext;
      if out != [] {
        SendingOne(n, q, out[0], true);
        o := Fresh(q, out[0]);
      } else {
        SendingNone(n, q, true);
        o := Still;
      }
    }
  }

  // ------------------------------------------------------------- a stranger's Open-Req

  lemma ProbeSent(s: PeerState, conn: U16, t: Table, now: Time)
    requires SenderInv(s) && Live(s) && conn != s.connRemote
    ensures var r := Routing(s, Packet(conn, 0, OpenReq(1, 0)), t, now);
            || (r.sent == [] && r.peer == s)
            || (&& |r.sent| == 1 && Sequenced(r.sent[0]) && r.sent[0].seqno == Succ(s.seqSend)
                && SaysNext(s, r.peer, r.sent[0].cmd) && Live(r.peer) && r.peer.ip == s.ip
                && r.peer.outstanding.Some? && r.peer.outstanding.value.packet == r.sent[0]
                && r.peer.outstanding.value.nets == NamedBy(r.sent[0].cmd))
  {
    assert Added(NULL_UPDATE.events) == [] by { assert NULL_UPDATE.events[..0] == []; }
  }

  lemma StrangerOutcome(n: Net, conn: U16, now: Time) returns (o: Outcome)
    requires NetInv(n) && Enabled(n, StrangerOpens(conn, now))
    ensures NetStep(n, StrangerOpens(conn, now)) == Applied(n, o) && OutcomeOk(n, o)
    ensures o.Still? || o.Fresh?
  {
    assert Live(n.s) && SenderInv(n.s) && SendingOk(n) && n.s.seqSend == NumberOf(|n.log|);
    Numbering(|n.log|);
    ProbeSent(n.s, conn, n.t, now);
    hide NetInv, Routing, SenderInv, Sending, Live, SendingOk, SaysNext;
    var r := Routing(n.s, Packet(conn, 0, OpenReq(1, 0)), n.t, now);
    if r.sent == [] {
      SendingNone(n, n.s, true);
      o := Still;
    } else {
      SendingOne(n, r.peer, r.sent[0], true);
      assert r.sent == [r.sent[0]];
      o := Fresh(r.peer, r.sent[0]);
    }
  }

  // ------------------------------------------------------------- acks

  lemma PageSent(s: PeerState, now: Time)
    requires s.pages != []
    ensures var p := SendPage(s.(outstanding := None), now).0;
            && p.outstanding.Some? && SaysNext(s, p, p.outstanding.value.packet.cmd) && Live(p) && p.ip == s.ip
            && p.outstanding.value.nets == NamedBy(p.outstanding.value.packet.cmd)
            && p.outstanding.value.tries == 1 && p.sender == WaitRiRspAck && p.lastUpdate == s.lastUpdate
  {
  }

  /** The next page after an ack. */
  lemma PageFollows(n: Net, now: Time) returns (p: PeerState, k: Packet)
    requires NetInv(n) && n.acks != [] && Live(n.s) && n.s.outstanding.Some?
    requires n.acks[0].seqno == NumberOf(|n.log|)
    requires n.s.sender == WaitRiRspAck && n.s.pages != []
    ensures NetStep(n, DeliverAck(now)) == n.(acks := n.acks[1..], s := p, data := n.data + [k], log := n.log + [k.cmd])
    ensures k.seqno == NumberOf(|n.log| + 1) && p == SendPage(n.s.(outstanding := None), now).0
    ensures p.outstanding.Some? && p.outstanding.value.packet == k
  {
    AckTaken(n);
    NextPageOut(n, now);
    PageMayGo(n, now);
    Numbering(|n.log|);
    hide NetInv, GetRiAck, SequencedOf, SenderInv, InStep, HearLog, Told, SendPage, All, Live;
    p := SendPage(n.s.(outstanding := None), now).0;
    k := p.outstanding.value.packet;
    AckStep(n, now, p, [k]);
    assert CmdsOf([k]) == [k.cmd];
  }

  /** The ack of the last packet there is. */
  lemma LastFollows(n: Net, now: Time)
    requires NetInv(n) && n.acks != [] && Live(n.s) && n.s.outstanding.Some?
    requires n.acks[0].seqno == NumberOf(|n.log|)
    requires n.s.pages == [] || n.s.sender != WaitRiRspAck
    ensures NetStep(n, DeliverAck(now)) == Applied(n.(acks := n.acks[1..]), Settled) && n.s.pages == []
  {
    LastAckOut(n, now);
    assert SenderInv(n.s) && n.s.pages == [];
    hide NetInv, GetRiAck, SequencedOf, SenderInv;
    AckStep(n, now, n.s.(outstanding := None, sender := SConnected, probing := false), []);
    assert n.data + [] == n.data && n.log + CmdsOf([]) == n.log;
    hide NetStep;
  }

  lemma AckOutcome(n: Net, now: Time) returns (o: Outcome)
    requires NetInv(n) && n.acks != []
    ensures var m := n.(acks := n.acks[1..]); NetStep(n, DeliverAck(now)) == Applied(m, o) && OutcomeOk(m, o)
    ensures o.Still? || o.Settled? || o.Fresh?
  {
    if !Live(n.s) || n.s.outstanding.None? || n.acks[0].seqno != NumberOf(|n.log|) {
      AckIgnored(n, now);
      o := Still;
    } else {
      hide NetInv, NetStep, Live, SendPage;
      if n.s.sender == WaitRiRspAck && n.s.pages != [] {
        var p, k := PageFollows(n, now);
        PageSent(n.s, now);
        o := Fresh(p, k);
      } else {
        LastFollows(n, now);
        o := Settled;
      }
    }
  }
}
