/** One AURP peer as it runs: an object whose fields every packet and every timer
    change in place, each method proved against its value in Aurp.dfy. */
module PeerLink {
  import opened Wire
  import opened Table
  import opened Paging
  import opened RoutingTables
  import opened Spec = Aurp

  class Link {
    const ip: nat
    const configured: bool
    var receiver: Receiver
    var sender: Sender

    // The receiver half.
    var connLocal: U16
    var seqRecv: U16
    var lastHeard: Time
    var recvAt: Time
    var recvTries: nat
    var lastReconnect: Option<Time>

    // The sender half.
    var connRemote: U16
    var seqSend: U16
    var outstanding: Option<Outstanding>
    var pages: seq<seq<NetworkTuple>>
    var pending: seq<Event>
    var lastUpdate: Time
    var probing: bool

    ghost function View(): PeerState
      reads this
    {
      PeerState(ip, configured, receiver, sender, connLocal, seqRecv, lastHeard, recvAt, recvTries, lastReconnect,
                connRemote, seqSend, outstanding, pages, pending, lastUpdate, probing)
    }

    constructor (ip: nat, configured: bool, conn: U16, now: Time)
      ensures View() == NewPeer(ip, configured, conn, now)
    {
      this.ip, this.configured := ip, configured;
      receiver, sender := RUnconnected, SUnconnected;
      connLocal, seqRecv, lastHeard, recvAt, recvTries, lastReconnect := conn, 1, now, now, 0, None;
      connRemote, seqSend, outstanding, pages, pending, lastUpdate, probing := 0, 0, None, [], [], now, false;
    }

    // ----------------------------------------------------------- sending

    /** Numbers a command, keeps it until its ack, and sends it. */
    method SendSequenced(cmd: Cmd, nets: seq<U16>, now: Time) returns (out: seq<Packet>)
      modifies `seqSend, `outstanding
      ensures (View(), out) == Spec.SendSequenced(old(View()), cmd, nets, now)
    {
      seqSend := Succ(seqSend);
      var packet := Packet(connRemote, seqSend, cmd);
      outstanding := Some(Outstanding(packet, nets, now, 1));
      out := [packet];
    }

    method Open(now: Time) returns (out: seq<Packet>)
      modifies `seqRecv, `receiver, `recvAt, `recvTries, `lastReconnect
      ensures (View(), out) == Spec.Open(old(View()), now)
    {
      seqRecv := 1;
      receiver := WaitOpenRsp;
      recvAt := now;
      recvTries := 1;
      lastReconnect := Some(now);
      out := [Packet(connLocal, 0, OpenReq(1, 0))];
    }

    method CloseReceiver()
      modifies `receiver, `connLocal, `seqRecv, `recvTries
      ensures View() == Spec.CloseReceiver(old(View()))
    {
      receiver := RUnconnected;
      connLocal := Succ(connLocal);
      seqRecv := 1;
      recvTries := 0;
    }

    method CloseSender()
      modifies `sender, `connRemote, `seqSend, `outstanding, `pages, `pending, `probing
      ensures View() == Spec.CloseSender(old(View()))
    {
      sender := SUnconnected;
      connRemote := 0;
      seqSend := 0;
      outstanding := None;
      pages := [];
      pending := [];
      probing := false;
    }

    /** One more event for the queue, in place. */
    method Queue(e: Event)
      modifies `pending
      ensures pending == Queued(old(pending), e)
    {
      var i := FindStart(pending, e.Start());
      if i.None? {
        pending := pending + [e];
        return;
      }
      var was := pending[i.value].code;
      if was == NA && (e.code == ND || e.code == NRC) {
        pending := pending[..i.value] + pending[i.value + 1..];
      } else if was == NA && e.code == NDC {
        pending := pending[i.value := pending[i.value].(tuple := e.tuple)];
      } else if (was == ND || was == NRC) && e.code == NA {
        pending := pending[i.value := Event(NDC, e.tuple)];
      } else {
        pending := pending[i.value := e];
      }
    }

    method RouteChanged(changes: seq<RouteChange>, tables: Tables)
      modifies `pending
      ensures View() == Spec.RouteChanged(old(View()), changes, tables.View())
    {
      if sender == SUnconnected { return; }
      for i := 0 to |changes|
        invariant View() == old(View()).(pending := QueuedAll(old(pending), changes[..i], tables.View()))
      {
        assert changes[..i + 1][..i] == changes[..i];
        var e := EventFor(tables.View(), changes[i]);
        if e.Some? { Queue(e.value); }
      }
      assert changes[..|changes|] == changes;
    }

    /** Sends the next RI-Rsp page, marked last once it is. */
    method SendPage(now: Time) returns (out: seq<Packet>)
      modifies `seqSend, `outstanding, `pages, `sender
      ensures (View(), out) == Spec.SendPage(old(View()), now)
    {
      if pages == [] { return []; }
      var tuples := pages[0];
      pages := pages[1..];
      out := SendSequenced(RiRsp(pages == [], tuples), StartsOf(tuples), now);
      sender := WaitRiRspAck;
    }

    method ServeRiReq(tables: Tables, now: Time) returns (out: seq<Packet>)
      modifies `seqSend, `outstanding, `pages, `sender
      ensures (View(), out) == Spec.ServeRiReq(old(View()), tables.View(), now)
    {
      seqSend := 0;
      outstanding := None;
      var exported := tables.ListExport();
      pages := SplitTuplesLoop(exported);
      out := SendPage(now);
    }

    method GetOpenReq(conn: U16, version: nat, options: nat, now: Time) returns (out: seq<Packet>)
      modifies this
      ensures (View(), out) == Spec.GetOpenReq(old(View()), conn, version, options, now)
    {
      if version != 1 { return [Packet(conn, 0, OpenRsp(-5))]; }
      if options != 0 { return [Packet(conn, 0, OpenRsp(-4))]; }
      if sender != SUnconnected && conn != connRemote {
        out := [];
        if !probing && outstanding.None? {
          probing := true;
          out := SendSequenced(NULL_UPDATE, [], now);
          sender := WaitRiUpdAck;
        }
        return;
      }
      connRemote := conn;
      seqSend := 0;
      outstanding := None;
      pages := [];
      sender := SConnected;
      out := [Packet(conn, 0, OpenRsp(1))];
      if receiver == RUnconnected {
        var more := Open(now);
        out := out + more;
      }
    }

    method SendZones(conn: U16, nets: seq<U16>, tables: Tables) returns (out: seq<Packet>)
      ensures out == Transactions(conn, ZiPages(nets, tables.View()))
    {
      var replies := ZiPagesLoop(nets, tables.View());
      out := [];
      for i := 0 to |replies|
        invariant out == Transactions(conn, replies[..i])
      {
        out := out + [Packet(conn, 0, ZiRsp(replies[i]))];
      }
      assert replies[..|replies|] == replies;
    }

    method GetRiAck(seqno: U16, szi: bool, tables: Tables, now: Time) returns (out: seq<Packet>)
      modifies this
      ensures (View(), out) == Spec.GetRiAck(old(View()), seqno, szi, tables.View(), now)
    {
      out := [];
      if outstanding.None? || outstanding.value.packet.seqno != seqno { return; }
      var nets := outstanding.value.nets;
      outstanding := None;
      if szi { out := SendZones(connRemote, nets, tables); }
      if sender == WaitRiRspAck && pages != [] {
        var page := SendPage(now);
        out := out + page;
      } else if sender == WaitRiRspAck || sender == WaitRiUpdAck {
        sender := SConnected;
        probing := false;
      } else if sender == WaitRdAck {
        CloseSender();
      }
    }

    // ----------------------------------------------------------- receiving

    /** Applies one update event from the peer to the tables. */
    method ApplyEvent(e: Event, tables: Tables, now: Time) returns (changes: seq<RouteChange>)
      modifies tables
      ensures (tables.View(), changes) == Apply(old(tables.View()), ip, e, now)
    {
      var target, start := Peer(ip), e.Start();
      var known := HasVia(tables.routes, target, start);
      changes := [];
      if e.code == NA && e.tuple.distance < MAX_HOPS {
        changes := tables.Learn(e.tuple, target, NO_NEXT, now);
      } else if e.code == ND || e.code == NRC || (e.code == NDC && e.tuple.distance >= MAX_HOPS) {
        changes := tables.Remove(target, start);
      } else if e.code == NDC && !known {
        changes := tables.Learn(e.tuple, target, NO_NEXT, now);
      } else if e.code == NDC {
        changes := tables.SetDistance(target, start, e.tuple.distance + 1, now);
      }
    }

    method ApplyEvents(events: seq<Event>, tables: Tables, now: Time) returns (changes: seq<RouteChange>, szi: bool)
      modifies tables
      ensures (tables.View(), changes) == ApplyAll(old(tables.View()), ip, events, now)
      ensures szi == AcksNA(events)
    {
      changes, szi := [], false;
      for i := 0 to |events|
        invariant (tables.View(), changes) == ApplyAll(old(tables.View()), ip, events[..i], now)
        invariant szi == AcksNA(events[..i])
      {
        assert events[..i + 1][..i] == events[..i];
        var more := ApplyEvent(events[i], tables, now);
        changes := changes + more;
        AcksNASnoc(events, i);
        szi := szi || events[i].code == NA;
      }
      assert events[..|events|] == events;
    }

    method LearnTuples(tuples: seq<NetworkTuple>, tables: Tables, now: Time) returns (changes: seq<RouteChange>)
      modifies tables
      ensures (tables.View(), changes) == LearnAll(old(tables.View()), ip, tuples, now)
    {
      changes := [];
      for i := 0 to |tuples|
        invariant (tables.View(), changes) == LearnAll(old(tables.View()), ip, tuples[..i], now)
      {
        assert tuples[..i + 1][..i] == tuples[..i];
        if tuples[i].distance < MAX_HOPS {
          var more := tables.Learn(tuples[i], Peer(ip), NO_NEXT, now);
          changes := changes + more;
        }
      }
      assert tuples[..|tuples|] == tuples;
    }

    method GetRiRsp(conn: U16, seqno: U16, last: bool, tuples: seq<NetworkTuple>, tables: Tables, now: Time)
      returns (out: seq<Packet>, changes: seq<RouteChange>)
      modifies this, tables
      ensures Routed(View(), tables.View(), out, changes)
           == Spec.GetRiRsp(old(View()), conn, seqno, last, tuples, old(tables.View()), now)
    {
      lastHeard := now;
      out, changes := [], [];
      match CheckSeq(seqRecv, seqno)
      case New =>
        changes := LearnTuples(tuples, tables, now);
        seqRecv := Succ(seqno);
        out := [Packet(conn, seqno, RiAck(true))];
        if last { receiver := RConnected; }
      case Dup => out := [Packet(conn, seqno, RiAck(true))];
      case Ahead => CloseReceiver();
      case Stale =>
    }

    method GetRiUpd(conn: U16, seqno: U16, events: seq<Event>, tables: Tables, now: Time)
      returns (out: seq<Packet>, changes: seq<RouteChange>)
      modifies this, tables
      ensures Routed(View(), tables.View(), out, changes)
           == Spec.GetRiUpd(old(View()), conn, seqno, events, old(tables.View()), now)
    {
      lastHeard := now;
      out, changes := [], [];
      match CheckSeq(seqRecv, seqno)
      case New =>
        var szi;
        changes, szi := ApplyEvents(events, tables, now);
        seqRecv := Succ(seqno);
        out := [Packet(conn, seqno, RiAck(szi))];
      case Dup => out := [Packet(conn, seqno, RiAck(true))];
      case Ahead => CloseReceiver();
      case Stale =>
    }

    /** The networks a ZI-Rsp names, in order, and the names it gives for each. */
    method GroupZones(zones: seq<ZonePair>) returns (order: seq<U16>, names: map<U16, seq<Name>>)
      ensures order == NetsNamed(zones)
      ensures names.Keys == set n | n in order
      ensures forall n :: n in names ==> names[n] == NamesFor(zones, n)
    {
      order, names := [], map[];
      for i := 0 to |zones|
        invariant order == NetsNamed(zones[..i]) && names.Keys == set n | n in order
        invariant forall n: U16 :: NamesFor(zones[..i], n) == if n in names then names[n] else []
      {
        assert zones[..i + 1][..i] == zones[..i];
        var (net, name) := zones[i];
        if net !in names { order := order + [net]; }
        names := names[net := (if net in names then names[net] else []) + [name]];
      }
      assert zones[..|zones|] == zones;
    }

    method GetZiRsp(page: ZiPage, tables: Tables) returns (changes: seq<RouteChange>)
      modifies tables
      ensures (tables.View(), changes) == TakeZones(old(tables.View()), NetsNamed(page.zones), page)
    {
      var order, names := GroupZones(page.zones);
      changes := [];
      for i := 0 to |order|
        invariant (tables.View(), changes) == TakeZones(old(tables.View()), order[..i], page)
      {
        assert order[..i + 1][..i] == order[..i];
        var b := tables.Choose(ByNet(order[i]));
        if b.Some? && b.value.target.Port? { continue; }
        var more := tables.AddZones(order[i], names[order[i]], page.extended);
        changes := changes + more;
      }
      assert order[..|order|] == order;
    }

    predicate ReceiverOpen()
      reads this
    {
      receiver != RUnconnected && receiver != WaitOpenRsp
    }

    /** A packet on the connection the peer opened, or that asks to open it. */
    method AsSender(packet: Packet, tables: Tables, now: Time) returns (out: seq<Packet>)
      requires ToSender(packet.cmd)
      modifies this
      ensures Routed(View(), tables.View(), out, []) == Spec.Routing(old(View()), packet, tables.View(), now)
    {
      hide Spec.GetOpenReq, Spec.ServeRiReq, Spec.GetRiAck, Transactions, ZiPages;
      var Packet(conn, seqno, cmd) := packet;
      out := [];
      var serving := conn == connRemote && sender != SUnconnected;
      match cmd
      case OpenReq(version, options) => out := GetOpenReq(conn, version, options, now);
      case RiReq => if conn == connRemote && ServesRiReq(sender) { out := ServeRiReq(tables, now); }
      case RiAck(szi) => if conn == connRemote { out := GetRiAck(seqno, szi, tables, now); }
      case Tickle => if serving { out := [Packet(conn, 0, TickleAck)]; }
      case ZiReq(nets) => if serving { out := SendZones(conn, nets, tables); }
      case GznReq(zone) => if serving { out := [Packet(conn, 0, GznRsp(zone))]; }
      case GdzlReq => if serving { out := [Packet(conn, 0, GdzlRsp)]; }
    }

    /** A packet on the connection we opened. */
    method AsReceiver(packet: Packet, tables: Tables, now: Time) returns (out: seq<Packet>, changes: seq<RouteChange>)
      requires !ToSender(packet.cmd)
      modifies this, tables
      ensures Routed(View(), tables.View(), out, changes) == Spec.Routing(old(View()), packet, old(tables.View()), now)
    {
      hide Spec.GetRiRsp, Spec.GetRiUpd, Spec.CloseReceiver, Spec.CloseSender, TakeZones, NetsNamed, Swept;
      var Packet(conn, seqno, cmd) := packet;
      out, changes := [], [];
      var listening := conn == connLocal && ReceiverOpen();
      match cmd
      case OpenRsp(rate) => if conn == connLocal && receiver == WaitOpenRsp { out := GetOpenRsp(rate, now); }
      case RiRsp(last, ts) => if listening { out, changes := GetRiRsp(conn, seqno, last, ts, tables, now); }
      case RiUpd(es) => if listening { out, changes := GetRiUpd(conn, seqno, es, tables, now); }
      case Rd(_) =>
        if listening {
          out := [Packet(conn, seqno, RiAck(false))];
          changes := GetRd(tables);
        }
      case ZiRsp(page) =>
        if listening {
          lastHeard := now;
          changes := GetZiRsp(page, tables);
        }
      case TickleAck =>
        if conn == connLocal && receiver == WaitTickleAck {
          receiver := RConnected;
          recvTries := 0;
          lastHeard := now;
        }
      case GznRsp(_) =>
      case GdzlRsp =>
    }

    /** Any packet, to the half its command is for. */
    method Routing(packet: Packet, tables: Tables, now: Time) returns (out: seq<Packet>, changes: seq<RouteChange>)
      modifies this, tables
      ensures Routed(View(), tables.View(), out, changes) == Spec.Routing(old(View()), packet, old(tables.View()), now)
    {
      hide Spec.Routing;
      if ToSender(packet.cmd) {
        out := AsSender(packet, tables, now);
        changes := [];
      } else {
        out, changes := AsReceiver(packet, tables, now);
      }
    }

    /** The peer is going down: its routes go with it. */
    method GetRd(tables: Tables) returns (changes: seq<RouteChange>)
      modifies this, tables
      ensures View() == Spec.CloseSender(Spec.CloseReceiver(old(View())))
      ensures (tables.View(), changes) == Swept(old(tables.View()), DropTarget(Peer(ip)))
    {
      changes := tables.RemoveTarget(Peer(ip));
      CloseReceiver();
      CloseSender();
    }

    method GetOpenRsp(rate: int, now: Time) returns (out: seq<Packet>)
      requires receiver == WaitOpenRsp
      modifies this
      ensures View() == if rate < 0 then Spec.CloseReceiver(old(View()))
                        else old(View()).(receiver := WaitRiRsp, seqRecv := 1, recvTries := 1, recvAt := now, lastHeard := now)
      ensures out == if rate < 0 then [] else [Packet(old(connLocal), 0, RiReq)]
    {
      if rate < 0 {
        CloseReceiver();
        return [];
      }
      receiver := WaitRiRsp;
      seqRecv := 1;
      recvTries := 1;
      recvAt := now;
      lastHeard := now;
      out := [Packet(connLocal, 0, RiReq)];
    }

    // ----------------------------------------------------------- timers

    method Reconnect(now: Time) returns (out: seq<Packet>)
      modifies this
      ensures (View(), out) == Spec.Reconnect(old(View()), now)
    {
      if !configured || receiver != RUnconnected { return []; }
      if lastReconnect.Some? && Since(now, lastReconnect.value) <= RECONNECT_BACKOFF { return []; }
      out := Open(now);
    }

    /** Ten tickles unanswered: the peer's routes go, and if we still send to it the
        other direction is probed. */
    method GiveUp(tables: Tables, now: Time) returns (out: seq<Packet>, changes: seq<RouteChange>)
      modifies this, tables
      ensures (tables.View(), changes) == Swept(old(tables.View()), DropTarget(Peer(ip)))
      ensures var q := Spec.CloseReceiver(old(View()));
              var (r, probe) := Spec.SendSequenced(q, NULL_UPDATE, [], now);
              (View(), out) == if q.sender == SConnected then (r.(sender := WaitRiUpdAck), probe) else (q, [])
    {
      changes := tables.RemoveTarget(Peer(ip));
      CloseReceiver();
      out := [];
      if sender == SConnected {
        out := SendSequenced(NULL_UPDATE, [], now);
        sender := WaitRiUpdAck;
      }
    }

    method ReceiverTimers(tables: Tables, now: Time) returns (out: seq<Packet>, changes: seq<RouteChange>)
      modifies this, tables
      ensures Routed(View(), tables.View(), out, changes) == Spec.ReceiverTimers(old(View()), old(tables.View()), now)
    {
      hide Swept, Spec.CloseReceiver, Spec.SendSequenced;
      out, changes := [], [];
      if receiver == WaitOpenRsp || receiver == WaitRiRsp {
        if Since(now, recvAt) < RETRY { return; }
        if recvTries >= RETRIES {
          CloseReceiver();
          return;
        }
        recvTries := recvTries + 1;
        recvAt := now;
        out := [Packet(connLocal, 0, Awaited(receiver))];
      } else if receiver == RConnected {
        if Since(now, lastHeard) <= LAST_HEARD { return; }
        receiver := WaitTickleAck;
        recvTries := 1;
        recvAt := now;
        out := [Packet(connLocal, 0, Tickle)];
      } else if receiver == WaitTickleAck {
        if Since(now, recvAt) < RETRY { return; }
        if recvTries >= TICKLE_RETRIES {
          out, changes := GiveUp(tables, now);
          return;
        }
        recvTries := recvTries + 1;
        recvAt := now;
        out := [Packet(connLocal, 0, Tickle)];
      }
    }

    method AddedIn(events: seq<Event>) returns (nets: seq<U16>)
      ensures nets == Added(events)
    {
      nets := [];
      for i := 0 to |events|
        invariant nets == Added(events[..i])
      {
        assert events[..i + 1][..i] == events[..i];
        if events[i].code == NA { nets := nets + [events[i].Start()]; }
      }
      assert events[..|events|] == events;
    }

    method SenderTimers(now: Time) returns (out: seq<Packet>)
      modifies this
      ensures (View(), out) == Spec.SenderTimers(old(View()), now)
    {
      out := [];
      if outstanding.Some? {
        var o := outstanding.value;
        if Since(now, o.at) >= RETRY {
          if o.tries >= RETRIES {
            CloseSender();
            return;
          }
          out := [o.packet];
          outstanding := Some(o.(tries := o.tries + 1, at := now));
        }
        return;
      }
      if sender == SConnected && pending != [] && Since(now, lastUpdate) >= UPDATE_INTERVAL {
        var events := pending;
        pending := [];
        var nets := AddedIn(events);
        lastUpdate := now;
        out := SendSequenced(RiUpd(events), nets, now);
        sender := WaitRiUpdAck;
      }
    }

    method Shutdown(now: Time) returns (out: seq<Packet>)
      modifies this
      ensures (View(), out) == Spec.Shutdown(old(View()), now)
    {
      if sender == SUnconnected || sender == WaitRdAck { return []; }
      outstanding := None;
      pages := [];
      out := SendSequenced(Rd(-1), [], now);
      sender := WaitRdAck;
    }
  }

  /** Whether a command is for the half of a peer that sends routing data. */
  predicate ToSender(c: Cmd) {
    c.OpenReq? || c.RiReq? || c.RiAck? || c.Tickle? || c.ZiReq? || c.GznReq? || c.GdzlReq?
  }

  lemma AcksNASnoc(events: seq<Event>, i: nat)
    requires i < |events|
    ensures AcksNA(events[..i + 1]) <==> AcksNA(events[..i]) || events[i].code == NA
  {
    var more := events[..i + 1];
    if AcksNA(events[..i]) {
      var j :| 0 <= j < i && events[..i][j].code == NA;
      assert more[j].code == NA;
    }
    if events[i].code == NA { assert more[i].code == NA; }
    if AcksNA(more) && events[i].code != NA {
      var j :| 0 <= j < |more| && more[j].code == NA;
      assert events[..i][j].code == NA;
    }
  }
}
