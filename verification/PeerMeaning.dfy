/** What a peer does, seen from outside: which packets count, what each comes to, how
    long an answer is waited for and what follows when none comes. */
module PeerMeaning {
  import opened Wire
  import opened Table
  import opened TableTheorems
  import opened TableMeaning
  import opened Paging
  import opened Aurp
  import opened PeerTheorems

  // ------------------------------------------------------------- which packets count

  predicate ForReceiver(c: Cmd) { c.OpenRsp? || c.RiRsp? || c.RiUpd? || c.Rd? || c.ZiRsp? || c.TickleAck? }

  predicate ForSender(c: Cmd) { c.RiReq? || c.RiAck? || c.Tickle? || c.ZiReq? || c.GznReq? || c.GdzlReq? }

  /** A packet on any connection but the one it is meant for changes nothing. */
  lemma OtherConnectionsAreIgnored(p: PeerState, k: Packet, t: Table, now: Time)
    requires (ForReceiver(k.cmd) && k.conn != p.connLocal)
             || (ForSender(k.cmd) && (k.conn != p.connRemote || (p.sender == SUnconnected && p.outstanding.None?)))
    ensures Routing(p, k, t, now) == Routed(p, t, [], [])
  {
  }

  /** Once the receiver closed, nothing sent on its old connection is ever taken again:
      neither while it stays closed nor on the connection it opens next. */
  lemma OldConnectionIsDead(p: PeerState, k: Packet, t: Table, since: Time, now: Time)
    requires ForReceiver(k.cmd) && k.conn == p.connLocal
    ensures var q := CloseReceiver(p);
            && Routing(q, k, t, now) == Routed(q, t, [], [])
            && Routing(Open(q, since).0, k, t, now) == Routed(Open(q, since).0, t, [], [])
  {
  }

  /** The number after `n`: 65535 is followed by 1. */
  function Following(n: U16): U16 { if n == 65535 then 1 else n + 1 }

  /** Pages and updates by their number: the one awaited is acked, and counted; the one
      before it is only acked again, asking for zones; the one after it closes the
      receiver, which must then open another connection; any other is passed over. */
  lemma NumbersDecide(p: PeerState, k: Packet, t: Table, now: Time)
    requires (k.cmd.RiRsp? || k.cmd.RiUpd?) && k.conn == p.connLocal && p.seqRecv != 0
    requires p.receiver == WaitRiRsp || p.receiver == RConnected || p.receiver == WaitTickleAck
    ensures var r := Routing(p, k, t, now);
            && (k.seqno == p.seqRecv ==>
                  r.peer.seqRecv == Following(k.seqno) && |r.sent| == 1 && r.sent[0].cmd.RiAck? && r.sent[0].seqno == k.seqno)
            && (k.seqno != p.seqRecv && k.seqno != 0 && Following(k.seqno) == p.seqRecv ==>
                  r == Routed(p.(lastHeard := now), t, [Packet(k.conn, k.seqno, RiAck(true))], []))
            && (k.seqno != p.seqRecv && Following(k.seqno) != p.seqRecv && k.seqno == Following(p.seqRecv) ==>
                  && r.peer.receiver == RUnconnected && r.peer.connLocal == Following(p.connLocal)
                  && r.table == t && r.sent == [] && r.changes == [])
            && (k.seqno == 0 || (k.seqno != p.seqRecv && Following(k.seqno) != p.seqRecv && k.seqno != Following(p.seqRecv)) ==>
                  r == Routed(p.(lastHeard := now), t, [], []))
  {
    hide LearnAll, ApplyAll;
  }

  // ------------------------------------------------------------- what they come to

  /** Router-down on the connection we listen on: every route through the peer goes and
      no other, it is acked, and both halves are closed. */
  lemma RouterDownClosesBoth(p: PeerState, k: Packet, t: Table, now: Time, y: Route)
    requires k.cmd.Rd? && k.conn == p.connLocal
    requires p.receiver == WaitRiRsp || p.receiver == RConnected || p.receiver == WaitTickleAck
    ensures var r := Routing(p, k, t, now);
            && (y in r.table.routes <==> y in t.routes && y.target != Peer(p.ip))
            && r.sent == [Packet(k.conn, k.seqno, RiAck(false))]
            && r.peer.receiver == RUnconnected && r.peer.connLocal == Following(p.connLocal)
            && r.peer.sender == SUnconnected && r.peer.outstanding == None && r.peer.pages == [] && r.peer.pending == []
  {
    TargetGone(t, Peer(p.ip), y);
    hide Swept;
  }

  /** An Open-Req: refused with -5 unless it is for version 1, with -4 if it has options;
      a stranger to a sender that is up gets no answer, and sets off one probe while
      nothing else is outstanding; any other starts the sender afresh, is granted, and
      makes a closed receiver open too. */
  lemma OpenRequestsDecide(p: PeerState, conn: U16, version: nat, options: nat, t: Table, now: Time)
    ensures var r := Routing(p, Packet(conn, 0, OpenReq(version, options)), t, now);
            && r.table == t && r.changes == []
            && (version != 1 ==> r.peer == p && r.sent == [Packet(conn, 0, OpenRsp(-5))])
            && (version == 1 && options > 0 ==> r.peer == p && r.sent == [Packet(conn, 0, OpenRsp(-4))])
            && (version == 1 && options == 0 && p.sender != SUnconnected && conn != p.connRemote ==>
                  if p.probing || p.outstanding.Some? then r.peer == p && r.sent == []
                  else
                    && r.sent == [Packet(p.connRemote, Following(p.seqSend), NULL_UPDATE)]
                    && r.peer.probing && r.peer.sender == WaitRiUpdAck
                    && r.peer.outstanding == Some(Outstanding(r.sent[0], [], now, 1)))
            && (version == 1 && options == 0 && (p.sender == SUnconnected || conn == p.connRemote) ==>
                  && r.peer.sender == SConnected && r.peer.connRemote == conn && r.peer.seqSend == 0
                  && r.peer.outstanding == None && r.peer.pages == [] && r.peer.pending == p.pending
                  && (if p.receiver == RUnconnected then
                        && r.sent == [Packet(conn, 0, OpenRsp(1)), Packet(p.connLocal, 0, OpenReq(1, 0))]
                        && r.peer.receiver == WaitOpenRsp && r.peer.seqRecv == 1
                      else r.sent == [Packet(conn, 0, OpenRsp(1))] && r.peer.receiver == p.receiver))
  {
  }

  /** A refusal closes the receiver; anything else brings the request for the export. */
  lemma OpenAnswersDecide(p: PeerState, rate: int, t: Table, now: Time)
    requires p.receiver == WaitOpenRsp
    ensures var r := Routing(p, Packet(p.connLocal, 0, OpenRsp(rate)), t, now);
            if rate < 0 then r.peer.receiver == RUnconnected && r.peer.connLocal == Following(p.connLocal) && r.sent == []
            else r.peer.receiver == WaitRiRsp && r.peer.seqRecv == 1 && r.peer.recvTries == 1 && r.peer.recvAt == now
                 && r.sent == [Packet(p.connLocal, 0, RiReq)]
  {
  }

  /** A sender that is up answers every question at once: a tickle, a request for zones
      with exactly the lists asked for, and the two requests it cannot serve. */
  lemma QuestionsAreAnswered(p: PeerState, cmd: Cmd, t: Table, now: Time)
    requires p.sender != SUnconnected && (cmd.Tickle? || cmd.ZiReq? || cmd.GznReq? || cmd.GdzlReq?)
    ensures var r := Routing(p, Packet(p.connRemote, 0, cmd), t, now);
            && r.peer == p && r.table == t && r.changes == []
            && (cmd.Tickle? ==> r.sent == [Packet(p.connRemote, 0, TickleAck)])
            && (cmd.GznReq? ==> r.sent == [Packet(p.connRemote, 0, GznRsp(cmd.zone))])
            && (cmd.GdzlReq? ==> r.sent == [Packet(p.connRemote, 0, GdzlRsp)])
            && (cmd.ZiReq? && ZonesFit(t) ==> CarriesLists(r.sent, p.connRemote, Owed(cmd.nets, t)))
  {
    if cmd.ZiReq? && ZonesFit(t) {
      ZiPagesAreExact(cmd.nets, t);
      ListsCarried(p.connRemote, ZiPages(cmd.nets, t));
    }
    hide ZiPages, ZonesIn, Owed, ZonesFit, CarriesLists;
  }

  /** These packets are ZI-Rsps on that connection, and their names are `ps` in order. */
  ghost predicate CarriesLists(ks: seq<Packet>, conn: U16, ps: seq<ZonePair>) {
    && (forall i :: 0 <= i < |ks| ==> ks[i].conn == conn && ks[i].seqno == 0 && ks[i].cmd.ZiRsp?)
    && ZonesIn(seq(|ks|, i requires 0 <= i < |ks| => if ks[i].cmd.ZiRsp? then ks[i].cmd.page else ZiPage(None, []))) == ps
  }

  lemma ListsCarried(conn: U16, pages: seq<ZiPage>)
    ensures CarriesLists(Transactions(conn, pages), conn, ZonesIn(pages))
  {
    var ks := Transactions(conn, pages);
    assert seq(|ks|, i requires 0 <= i < |ks| => if ks[i].cmd.ZiRsp? then ks[i].cmd.page else ZiPage(None, [])) == pages;
  }

  // ------------------------------------------------------------- waiting for an answer

  /** The receiver's timer at one time after another, with all it sends. */
  function ReceiverTicks(p: PeerState, t: Table, ticks: seq<Time>): (PeerState, Table, seq<Packet>) {
    if ticks == [] then (p, t, [])
    else
      var n := |ticks| - 1;
      var (q, u, sent) := ReceiverTicks(p, t, ticks[..n]);
      var r := ReceiverTimers(q, u, ticks[n]);
      (r.peer, r.table, sent + r.sent)
  }

  function Copies(k: Packet, n: nat): seq<Packet> { seq(n, i => k) }

  lemma OneCopyMore(k: Packet, n: nat)
    ensures Copies(k, n) + [k] == Copies(k, n + 1)
  {
  }

  function LastOf(from: Time, ticks: seq<Time>): Time { if ticks == [] then from else ticks[|ticks| - 1] }

  /** A tick that comes too soon does nothing. */
  lemma TooSoonToAsk(p: PeerState, t: Table, now: Time)
    requires if p.receiver == RConnected then now <= p.lastHeard + 90_000
             else p.receiver == RUnconnected || now < p.recvAt + 10_000
    ensures ReceiverTimers(p, t, now) == Routed(p, t, [], [])
  {
  }

  /** What a receiver that is opening has asked for. */
  function Asked(r: Receiver): Cmd { if r == WaitOpenRsp then OpenReq(1, 0) else RiReq }

  lemma NextRequest(p: PeerState, t: Table, n: nat, at: Time, now: Time)
    requires (p.receiver == WaitOpenRsp || p.receiver == WaitRiRsp) && now >= at + 10_000
    ensures var r := ReceiverTimers(p.(recvTries := n, recvAt := at), t, now);
            if n < 5 then
              r == Routed(p.(recvTries := n + 1, recvAt := now), t, [Packet(p.connLocal, 0, Asked(p.receiver))], [])
            else r.peer.receiver == RUnconnected && r.peer.connLocal == Following(p.connLocal) && r.table == t && r.sent == []
  {
  }

  /** Opening: the request goes out five times in all, ten seconds apart; then the
      receiver closes, and will use another connection. */
  lemma {:induction false} OpeningGivesUp(p: PeerState, t: Table, ticks: seq<Time>)
    requires (p.receiver == WaitOpenRsp || p.receiver == WaitRiRsp) && p.recvTries == 1
    requires Apart(p.recvAt, 10_000, ticks)
    ensures var (q, u, sent) := ReceiverTicks(p, t, ticks);
            && u == t
            && (|ticks| <= 4 ==>
                  && q == p.(recvTries := 1 + |ticks|, recvAt := LastOf(p.recvAt, ticks))
                  && sent == Copies(Packet(p.connLocal, 0, Asked(p.receiver)), |ticks|))
            && (|ticks| >= 5 ==>
                  && q.receiver == RUnconnected && q.connLocal == Following(p.connLocal)
                  && sent == Copies(Packet(p.connLocal, 0, Asked(p.receiver)), 4))
  {
    hide Copies, Apart, ReceiverTimers;
    var k := Packet(p.connLocal, 0, Asked(p.receiver));
    if ticks == [] {
      CopiesCount(k, 0);
    } else {
      var n := |ticks| - 1;
      ApartPrefix(p.recvAt, 10_000, ticks);
      OpeningGivesUp(p, t, ticks[..n]);
      OneCopyMore(k, n);
      assert Copies(k, 4) + [] == Copies(k, 4);
      var (q, u, sent) := ReceiverTicks(p, t, ticks[..n]);
      if n <= 4 {
        NextRequest(p, t, 1 + n, LastOf(p.recvAt, ticks[..n]), ticks[n]);
      } else {
        TooSoonToAsk(q, u, ticks[n]);
      }
    }
  }

  lemma NextTickle(p: PeerState, t: Table, n: nat, at: Time, now: Time)
    requires n < 10 && now >= at + 10_000
    ensures ReceiverTimers(p.(receiver := WaitTickleAck, recvTries := n, recvAt := at), t, now)
         == Routed(p.(receiver := WaitTickleAck, recvTries := n + 1, recvAt := now), t, [Packet(p.connLocal, 0, Tickle)], [])
  {
  }

  /** The tick after the tenth tickle. */
  ghost predicate GivenUp(p: PeerState, t: Table, now: Time, q: PeerState, u: Table, sent: seq<Packet>) {
    && q.receiver == RUnconnected && q.connLocal == Following(p.connLocal)
    && (forall y :: y in u.routes <==> y in t.routes && y.target != Peer(p.ip))
    && (if p.sender == SConnected then
          && sent == [Packet(p.connRemote, Following(p.seqSend), NULL_UPDATE)]
          && q.sender == WaitRiUpdAck && q.outstanding == Some(Outstanding(sent[0], [], now, 1))
        else sent == [] && q.sender == p.sender && q.outstanding == p.outstanding)
  }

  lemma LastTickle(p: PeerState, t: Table, at: Time, now: Time)
    requires now >= at + 10_000
    ensures var r := ReceiverTimers(p.(receiver := WaitTickleAck, recvTries := 10, recvAt := at), t, now);
            GivenUp(p, t, now, r.peer, r.table, r.sent)
  {
    AllGone(t, Peer(p.ip));
    hide Swept;
  }

  /** Silence: after more than 90 s without a word a connected receiver tickles, ten
      times in all, ten seconds apart; at the eleventh tick it closes, every route
      through the peer goes and no other, and an idle sender is probed. */
  lemma {:induction false} SilenceEndsTheConnection(p: PeerState, t: Table, ticks: seq<Time>)
    requires p.receiver == RConnected && ticks != [] && |ticks| <= 11
    requires ticks[0] > p.lastHeard + 90_000 && Apart(ticks[0], 10_000, ticks[1..])
    ensures var (q, u, sent) := ReceiverTicks(p, t, ticks);
            var tickle := Packet(p.connLocal, 0, Tickle);
            if |ticks| <= 10 then
              && q == p.(receiver := WaitTickleAck, recvTries := |ticks|, recvAt := ticks[|ticks| - 1])
              && u == t && sent == Copies(tickle, |ticks|)
            else
              && |sent| >= 10 && sent[..10] == Copies(tickle, 10) && GivenUp(p, t, ticks[10], q, u, sent[10..])
  {
    hide Copies, Apart, GivenUp;
    var n := |ticks| - 1;
    var tickle := Packet(p.connLocal, 0, Tickle);
    OneCopyMore(tickle, n);
    CopiesCount(tickle, n);
    if n == 0 {
      assert ticks[..0] == [];
      assert ReceiverTicks(p, t, ticks[..0]) == (p, t, []);
    } else {
      hide ReceiverTimers;
      ApartPrefix(ticks[0], 10_000, ticks[1..]);
      assert ticks[..n][1..] == ticks[1..][..n - 1];
      assert n >= 2 ==> ticks[1..][n - 2] == ticks[n - 1];
      assert ticks[n] == ticks[1..][n - 1];
      SilenceEndsTheConnection(p, t, ticks[..n]);
      if n < 10 {
        NextTickle(p, t, n, ticks[n - 1], ticks[n]);
      } else {
        LastTickle(p, t, ticks[9], ticks[10]);
        var r := ReceiverTimers(p.(receiver := WaitTickleAck, recvTries := 10, recvAt := ticks[9]), t, ticks[10]);
        assert (Copies(tickle, 10) + r.sent)[..10] == Copies(tickle, 10);
        assert (Copies(tickle, 10) + r.sent)[10..] == r.sent;
      }
    }
  }

  lemma CopiesCount(k: Packet, n: nat)
    ensures |Copies(k, n)| == n && (n == 0 ==> Copies(k, n) == [])
  {
  }

  lemma AllGone(t: Table, target: Target)
    ensures forall y :: y in Swept(t, DropTarget(target)).0.routes <==> y in t.routes && y.target != target
  {
    forall y: Route ensures y in Swept(t, DropTarget(target)).0.routes <==> y in t.routes && y.target != target {
      TargetGone(t, target, y);
    }
  }

  /** An answer in time puts everything off: whatever is heard on the connection starts
      the 90 s again, and the answer to a tickle ends the tickling. */
  lemma HearingPutsOff(p: PeerState, k: Packet, t: Table, u: Table, now: Time, later: Time)
    requires k.conn == p.connLocal && later <= now + 90_000
    requires (p.receiver == WaitTickleAck && k.cmd.TickleAck?)
             || (p.receiver == RConnected && (k.cmd.RiRsp? || k.cmd.RiUpd? || k.cmd.ZiRsp?))
    ensures var q := Routing(p, k, t, now).peer;
            (q.receiver == RConnected || q.receiver == RUnconnected) && ReceiverTimers(q, u, later) == Routed(q, u, [], [])
  {
    hide LearnAll, ApplyAll, TakeZones;
  }

  // ------------------------------------------------------------- waiting for an ack

  function SenderTicks(p: PeerState, ticks: seq<Time>): Sent {
    if ticks == [] then (p, [])
    else
      var n := |ticks| - 1;
      var (q, sent) := SenderTicks(p, ticks[..n]);
      var (r, out) := SenderTimers(q, ticks[n]);
      (r, sent + out)
  }

  /** A packet that is never acked goes out five times in all, the same each time, ten
      seconds apart; then the sender closes and holds nothing. */
  lemma {:induction false} UnackedClosesTheSender(p: PeerState, ticks: seq<Time>)
    requires p.outstanding.Some? && p.outstanding.value.tries == 1
    requires Apart(p.outstanding.value.at, 10_000, ticks) && |ticks| <= 5
    ensures var (q, sent) := SenderTicks(p, ticks);
            var o := p.outstanding.value;
            if |ticks| <= 4 then
              && sent == Copies(o.packet, |ticks|)
              && q == p.(outstanding := Some(o.(tries := 1 + |ticks|, at := LastOf(o.at, ticks))))
            else
              && sent == Copies(o.packet, 4)
              && q.sender == SUnconnected && q.connRemote == 0 && q.outstanding == None && q.pages == [] && q.pending == []
              && q.receiver == p.receiver && q.connLocal == p.connLocal
  {
    if ticks != [] {
      var n := |ticks| - 1;
      ApartPrefix(p.outstanding.value.at, 10_000, ticks);
      UnackedClosesTheSender(p, ticks[..n]);
      OneCopyMore(p.outstanding.value.packet, n);
      assert Copies(p.outstanding.value.packet, 4) + [] == Copies(p.outstanding.value.packet, 4);
      hide Copies, Apart;
    }
  }

  /** A tick that comes too soon, or with nothing to say, does nothing; an update goes out
      at the first tick at least 10 s past the one before. */
  lemma UpdatesAreDue(p: PeerState, now: Time)
    requires SenderInv(p)
    ensures var (q, out) := SenderTimers(p, now);
            && (p.outstanding.Some? && now < p.outstanding.value.at + 10_000 ==> q == p && out == [])
            && (p.outstanding.None? ==>
                  (out != [] <==> p.sender == SConnected && p.pending != [] && now >= p.lastUpdate + 10_000))
            && (p.outstanding.None? && out != [] ==>
                  && out == [Packet(p.connRemote, Following(p.seqSend), RiUpd(p.pending))]
                  && q.pending == [] && q.lastUpdate == now)
  {
  }

  // ------------------------------------------------------------- opening and closing

  /** A peer is tried again exactly when it is configured, closed, and more than 600 s
      past the last try, if there was one. */
  lemma ReconnectsWhenDue(p: PeerState, now: Time)
    ensures var (q, out) := Reconnect(p, now);
            if p.configured && p.receiver == RUnconnected && (p.lastReconnect == None || now > p.lastReconnect.value + 600_000) then
              && out == [Packet(p.connLocal, 0, OpenReq(1, 0))]
              && q.receiver == WaitOpenRsp && q.recvTries == 1 && q.recvAt == now && q.lastReconnect == Some(now)
            else q == p && out == []
  {
  }

  /** Shutting down says so to a peer we are sender to, in place of anything still unsaid;
      its ack, and no export in the meantime, closes the sender. */
  lemma ShutdownIsSaid(p: PeerState, now: Time, t: Table, later: Time, szi: bool)
    requires SenderInv(p) && p.sender != SUnconnected && p.sender != WaitRdAck
    ensures var (q, out) := Shutdown(p, now);
            && out == [Packet(p.connRemote, Following(p.seqSend), Rd(-1))] && q.pages == []
            && q.outstanding == Some(Outstanding(out[0], [], now, 1))
            && Routing(q, Packet(p.connRemote, 0, RiReq), t, later) == Routed(q, t, [], [])
            && Routing(q, Packet(p.connRemote, out[0].seqno, RiAck(szi)), t, later).peer.sender == SUnconnected
  {
    hide ZiPages;
  }

  // ------------------------------------------------------------- the networks of an update

  /** The networks an update adds are the starts of its additions and no other; each once,
      if it has one event per network. */
  lemma {:induction false} AddedMeaning(es: seq<Event>, s: U16)
    ensures s in Added(es) <==> exists i :: 0 <= i < |es| && es[i].code == NA && es[i].tuple.range.lo == s
    ensures (forall i, j :: 0 <= i < j < |es| ==> es[i].tuple.range.lo != es[j].tuple.range.lo) ==> Distinct(Added(es))
  {
    if es != [] {
      var n := |es| - 1;
      AddedMeaning(es[..n], s);
      AddedMeaning(es[..n], es[n].tuple.range.lo);
      if exists i :: 0 <= i < |es| && es[i].code == NA && es[i].tuple.range.lo == s {
        var i :| 0 <= i < |es| && es[i].code == NA && es[i].tuple.range.lo == s;
        if i < n { assert es[..n][i].code == NA && es[..n][i].tuple.range.lo == s; }
      }
    }
  }

  /** The networks a page names are the starts of its tuples, in order. */
  lemma NamedByAPage(ts: seq<NetworkTuple>)
    ensures |StartsOf(ts)| == |ts| && forall i :: 0 <= i < |ts| ==> StartsOf(ts)[i] == ts[i].range.lo
  {
  }
}
