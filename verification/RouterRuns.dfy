/** One router over time: its tables, one of its peers, and everything that moves
    either. Whatever happens, what is queued for the peer tells the truth about the
    tables, so an export can be served at any moment. */
module RouterRuns {
  import opened Wire
  import opened Table
  import opened TableTheorems
  import opened Paging
  import opened Aurp
  import opened ExportSync
  import opened TunnelView
  import opened PeerTheorems
  import opened TwoRouters
  import opened Delivery
  import ZoneDistribution

  // ------------------------------------------------------------- what a packet does to the tables

  /** The table operation an update event comes to, if any. */
  function OpFor(t: Table, ip: nat, e: Event, now: Time): Option<Op> {
    var target, d := Peer(ip), e.tuple.distance;
    if e.code == NA && d < MAX_HOPS then Some(OpLearn(e.tuple, target, NO_NEXT, now))
    else if e.code == ND || e.code == NRC || (e.code == NDC && d >= MAX_HOPS) then
      Some(OpSweep(DropStart(target, e.Start())))
    else if e.code == NDC && !HasVia(t.routes, target, e.Start()) then Some(OpLearn(e.tuple, target, NO_NEXT, now))
    else if e.code == NDC then Some(OpSweep(Distance(target, e.Start(), d + 1, now)))
    else None
  }

  ghost predicate EventFormed(e: Event) {
    e.tuple.distance < MAX_HOPS && (e.code == NA || e.code == NDC) ==> e.tuple.range.WellFormed()
  }

  ghost predicate EventsFormed(es: seq<Event>) { forall i :: 0 <= i < |es| ==> EventFormed(es[i]) }

  ghost predicate TuplesFormed(ts: seq<NetworkTuple>) {
    forall i :: 0 <= i < |ts| ==> ts[i].distance < MAX_HOPS ==> ts[i].range.WellFormed()
  }

  ghost predicate TunnelOps(ops: seq<Op>) { forall i :: 0 <= i < |ops| ==> TunnelOpOk(ops[i]) }

  lemma RunSnoc(t: Table, ops: seq<Op>, op: Op)
    ensures var (u, cs) := Run(t, ops);
            var (v, ds) := Step(u, op);
            Run(t, ops + [op]) == (v, cs + ds)
  {
    hide Step;
    assert (ops + [op])[..|ops|] == ops;
  }

  lemma ApplyIsAStep(t: Table, ip: nat, e: Event, now: Time)
    ensures Apply(t, ip, e, now) == match OpFor(t, ip, e, now) case None => (t, []) case Some(op) => Step(t, op)
    ensures var op := OpFor(t, ip, e, now);
            op.Some? ==> TunnelOpOk(op.value) && !op.value.OpZones? && (EventFormed(e) ==> OpOk(op.value))
  {
    hide Learn, Swept;
  }

  /** A whole update is a run of operations such as a tunnel may ask for. */
  lemma {:induction false} UpdateIsARun(t: Table, ip: nat, es: seq<Event>, now: Time) returns (ops: seq<Op>)
    ensures ApplyAll(t, ip, es, now) == Run(t, ops)
    ensures TunnelOps(ops) && (EventsFormed(es) ==> RouteOps(ops))
  {
    if es == [] {
      ops := [];
    } else {
      var n := |es| - 1;
      ops := UpdateIsARun(t, ip, es[..n], now);
      var u := ApplyAll(t, ip, es[..n], now).0;
      ApplyIsAStep(u, ip, es[n], now);
      hide Apply, Step, Run, OpOk, TunnelOpOk;
      match OpFor(u, ip, es[n], now)
      case None =>
        assert Run(t, ops).1 + [] == Run(t, ops).1;
      case Some(op) =>
        RunSnoc(t, ops, op);
        ops := ops + [op];
    }
  }

  lemma LearnedSnoc(t: Table, ip: nat, ts: seq<NetworkTuple>, now: Time)
    requires ts != []
    ensures var x, r := ts[|ts| - 1], LearnAll(t, ip, ts[..|ts| - 1], now);
            LearnAll(t, ip, ts, now) ==
            if x.distance >= MAX_HOPS then r
            else
              var s := Step(r.0, OpLearn(x, Peer(ip), NO_NEXT, now));
              (s.0, r.1 + s.1)
  {
    hide Learn;
  }

  lemma OneOpMore(ops: seq<Op>, x: NetworkTuple, ip: nat, now: Time)
    requires TunnelOps(ops) && x.distance < MAX_HOPS
    ensures TunnelOps(ops + [OpLearn(x, Peer(ip), NO_NEXT, now)])
    ensures RouteOps(ops) && x.range.WellFormed() ==> RouteOps(ops + [OpLearn(x, Peer(ip), NO_NEXT, now)])
  {
  }

  lemma {:induction false} ExportIsARun(t: Table, ip: nat, ts: seq<NetworkTuple>, now: Time) returns (ops: seq<Op>)
    ensures LearnAll(t, ip, ts, now) == Run(t, ops)
    ensures TunnelOps(ops) && (TuplesFormed(ts) ==> RouteOps(ops))
  {
    if ts == [] {
      ops := [];
    } else {
      var n := |ts| - 1;
      ops := ExportIsARun(t, ip, ts[..n], now);
      hide LearnAll, Step, Run, TunnelOps, RouteOps;
      LearnedSnoc(t, ip, ts, now);
      assert TuplesFormed(ts) ==> TuplesFormed(ts[..n]);
      if ts[n].distance < MAX_HOPS {
        var op := OpLearn(ts[n], Peer(ip), NO_NEXT, now);
        RunSnoc(t, ops, op);
        OneOpMore(ops, ts[n], ip, now);
        ops := ops + [op];
      }
    }
  }

  lemma {:induction false} RunKeepsTunnels(t: Table, ops: seq<Op>)
    requires TunnelsOk(t.routes) && TunnelOps(ops)
    ensures TunnelsOk(Run(t, ops).0.routes)
  {
    hide Step, TunnelsOk, TunnelOpOk;
    if ops != [] {
      var n := |ops| - 1;
      RunKeepsTunnels(t, ops[..n]);
      StepKeepsTunnels(Run(t, ops[..n]).0, ops[n]);
    }
  }

  /** How a peer's input moves the tables: by a run of operations, or, for a ZI-Rsp,
      by lists that change no route and report nothing. */
  ghost predicate MovesTables(t: Table, r: Routed, ops: seq<Op>) {
    || (r.table, r.changes) == Run(t, ops)
    || exists nets, page :: (r.table, r.changes) == TakeZones(t, nets, page)
  }

  ghost predicate Formed(i: Input) {
    i.Arrives? ==>
    match i.packet.cmd
    case RiRsp(_, ts) => TuplesFormed(ts)
    case RiUpd(es) => EventsFormed(es)
    case _ => true
  }

  lemma OneDrop(t: Table, ip: nat)
    ensures Run(t, [OpSweep(DropTarget(Peer(ip)))]) == Swept(t, DropTarget(Peer(ip)))
  {
    RunSnoc(t, [], OpSweep(DropTarget(Peer(ip))));
    assert [] + [OpSweep(DropTarget(Peer(ip)))] == [OpSweep(DropTarget(Peer(ip)))];
    var cs := Swept(t, DropTarget(Peer(ip))).1;
    assert [] + cs == cs;
  }

  lemma DataIsRouted(q: PeerState, k: Packet, t: Table, now: Time)
    requires k.cmd.RiRsp? || k.cmd.RiUpd?
    ensures Routing(q, k, t, now) ==
            if k.conn != q.connLocal || !q.ReceiverOpen() then Routed(q, t, [], [])
            else if k.cmd.RiRsp? then GetRiRsp(q, k.conn, k.seqno, k.cmd.last, k.cmd.tuples, t, now)
            else GetRiUpd(q, k.conn, k.seqno, k.cmd.events, t, now)
  {
    hide GetRiRsp, GetRiUpd, Swept, TakeZones, GetOpenReq, ServeRiReq, GetRiAck, Transactions, NetsNamed;
  }

  lemma PageMovesTables(q: PeerState, k: Packet, t: Table, now: Time) returns (ops: seq<Op>)
    requires k.cmd.RiRsp?
    ensures var r := Routing(q, k, t, now); (r.table, r.changes) == Run(t, ops)
    ensures TunnelOps(ops) && (TuplesFormed(k.cmd.tuples) ==> RouteOps(ops))
  {
    assert Run(t, []) == (t, []) && TunnelOps([]) && RouteOps([]);
    var all := ExportIsARun(t, q.ip, k.cmd.tuples, now);
    DataIsRouted(q, k, t, now);
    hide Routing, Run, LearnAll, TuplesFormed, RouteOps, TunnelOps;
    var r := Routing(q, k, t, now);
    ops := if (r.table, r.changes) == (t, []) then [] else all;
  }

  lemma UpdateMovesTables(q: PeerState, k: Packet, t: Table, now: Time) returns (ops: seq<Op>)
    requires k.cmd.RiUpd?
    ensures var r := Routing(q, k, t, now); (r.table, r.changes) == Run(t, ops)
    ensures TunnelOps(ops) && (EventsFormed(k.cmd.events) ==> RouteOps(ops))
  {
    assert Run(t, []) == (t, []) && TunnelOps([]) && RouteOps([]);
    var all := UpdateIsARun(t, q.ip, k.cmd.events, now);
    DataIsRouted(q, k, t, now);
    hide Routing, Run, ApplyAll, EventsFormed, RouteOps, TunnelOps;
    var r := Routing(q, k, t, now);
    ops := if (r.table, r.changes) == (t, []) then [] else all;
  }

  lemma PacketMovesTables(q: PeerState, t: Table, packet: Packet, now: Time) returns (ops: seq<Op>)
    ensures MovesTables(t, Routing(q, packet, t, now), ops)
    ensures TunnelOps(ops) && (Formed(Arrives(packet, now)) ==> RouteOps(ops))
  {
    if packet.cmd.RiRsp? { ops := PageMovesTables(q, packet, t, now); return; }
    if packet.cmd.RiUpd? { ops := UpdateMovesTables(q, packet, t, now); return; }
    ops := [];
    assert Run(t, []) == (t, []);
    OneDrop(t, q.ip);
    hide Run, Swept, LearnAll, ApplyAll, TakeZones, GetOpenReq, ServeRiReq, GetRiAck, Transactions, NetsNamed;
    var r := Routing(q, packet, t, now);
    if packet.conn == q.connLocal && q.ReceiverOpen() {
      match packet.cmd
      case Rd(_) => ops := [OpSweep(DropTarget(Peer(q.ip)))];
      case ZiRsp(page) => assert (r.table, r.changes) == TakeZones(t, NetsNamed(page.zones), page);
      case _ =>
    }
  }

  lemma TimerMovesTables(q: PeerState, t: Table, now: Time) returns (ops: seq<Op>)
    ensures var r := ReceiverTimers(q, t, now); (r.table, r.changes) == Run(t, ops)
    ensures TunnelOps(ops) && RouteOps(ops)
  {
    assert Run(t, []) == (t, []);
    OneDrop(t, q.ip);
    hide Run, Swept;
    ops := if q.receiver == WaitTickleAck && Since(now, q.recvAt) >= RETRY && q.recvTries >= TICKLE_RETRIES
           then [OpSweep(DropTarget(Peer(q.ip)))] else [];
  }

  lemma InputMovesTables(q: PeerState, t: Table, i: Input) returns (ops: seq<Op>)
    ensures MovesTables(t, PeerStep(q, t, i), ops)
    ensures TunnelOps(ops) && (Formed(i) ==> RouteOps(ops))
  {
    assert Run(t, []) == (t, []);
    hide Run, Routing, ReceiverTimers, SenderTimers, Reconnect, Shutdown, QueuedAll;
    match i
    case Arrives(packet, now) => ops := PacketMovesTables(q, t, packet, now);
    case ReceiverTick(now) => ops := TimerMovesTables(q, t, now);
    case _ => ops := [];
  }

  lemma {:induction false} ListsMoveNoRoute(t: Table, nets: seq<U16>, page: ZiPage)
    ensures TakeZones(t, nets, page).0.routes == t.routes
  {
    hide BestForNet, NamesFor, BestFor, Exportable;
    if nets != [] { ListsMoveNoRoute(t, nets[..|nets| - 1], page); }
  }

  /** Whatever arrives from a peer, for any peer and any tables, the routes through
      tunnels stay as the tunnel makes them: usable, without a next router, and one
      tunnel hop and at most fifteen away. */
  lemma PeersKeepTunnels(q: PeerState, t: Table, i: Input)
    requires TunnelsOk(t.routes)
    ensures TunnelsOk(PeerStep(q, t, i).table.routes)
  {
    var ops := InputMovesTables(q, t, i);
    hide TunnelsOk, PeerStep, Run, TakeZones, TunnelOps;
    var r := PeerStep(q, t, i);
    RunKeepsTunnels(t, ops);
    if (r.table, r.changes) != Run(t, ops) {
      var nets, page :| (r.table, r.changes) == TakeZones(t, nets, page);
      ListsMoveNoRoute(t, nets, page);
    }
  }

  // ------------------------------------------------------------- events that tell the truth

  lemma InStepIsTruthful(v: View, pending: seq<Event>, t: Table)
    requires InStep(v, pending, t)
    ensures Truthful(pending, t)
  {
    hide Exported, PendingAt;
    forall i | 0 <= i < |pending|
      ensures Agrees(Get(v, pending[i].Start()), Some(pending[i]), Exported(t, pending[i].Start()))
    {
      PendingMeaning(pending, i);
      assert Agrees(Get(v, pending[i].Start()), PendingAt(pending, pending[i].Start()), Exported(t, pending[i].Start()));
    }
  }

  /** Truthful events are those that some peer could be told: one that knows the
      export wherever nothing is pending. */
  lemma TruthHasAView(pending: seq<Event>, t: Table) returns (v: View)
    requires Truthful(pending, t)
    ensures InStep(v, pending, t)
  {
    v := map s: U16 | 0 <= s < 0x1_0000 && Exported(t, s).Some? && PendingAt(pending, s).None? :: Exported(t, s).value;
    hide Exported, FindStart;
    forall s: U16 ensures Agrees(Get(v, s), PendingAt(pending, s), Exported(t, s)) {
      if PendingAt(pending, s).Some? { assert s !in v; }
    }
  }

  lemma RouteOpsKeepTruth(pending: seq<Event>, t: Table, ops: seq<Op>)
    requires Inv(t) && RouteOps(ops) && Truthful(pending, t)
    ensures var (u, cs) := Run(t, ops); Inv(u) && Truthful(QueuedAll(pending, cs, u), u)
  {
    var v := TruthHasAView(pending, t);
    hide InStep, Truthful, Inv, QueuedAll, Run;
    RouteOpsKeepStep(v, pending, t, ops);
    InStepIsTruthful(v, QueuedAll(pending, Run(t, ops).1, Run(t, ops).0), Run(t, ops).0);
  }

  lemma ZoneOpsKeepTruth(pending: seq<Event>, t: Table, ops: seq<Op>)
    requires Inv(t) && ZoneOps(t, ops) && Truthful(pending, t)
    ensures var (u, cs) := Run(t, ops); Inv(u) && Truthful(QueuedAll(pending, cs, u), u)
  {
    var v := TruthHasAView(pending, t);
    hide InStep, Truthful, Inv, QueuedAll, Run;
    ZoneOpsKeepStep(v, pending, t, ops);
    InStepIsTruthful(v, QueuedAll(pending, Run(t, ops).1, Run(t, ops).0), Run(t, ops).0);
  }

  lemma PeerListsKeepTruth(pending: seq<Event>, t: Table, nets: seq<U16>, page: ZiPage)
    requires Inv(t) && Truthful(pending, t)
    ensures var (u, cs) := TakeZones(t, nets, page); Inv(u) && Truthful(QueuedAll(pending, cs, u), u)
  {
    PeerZonesChangeNoExport(t, nets, page);
    hide Inv, TakeZones, Exported, OneEach;
    assert QueuedAll(pending, [], TakeZones(t, nets, page).0) == pending;
  }

  /** What any peer's input changes, reported to a peer with truthful events. */
  lemma InputKeepsTruth(pending: seq<Event>, q: PeerState, t: Table, i: Input)
    requires Inv(t) && Truthful(pending, t) && Formed(i)
    ensures var r := PeerStep(q, t, i); Inv(r.table) && Truthful(QueuedAll(pending, r.changes, r.table), r.table)
  {
    var ops := InputMovesTables(q, t, i);
    hide Inv, Truthful, QueuedAll, PeerStep, Run, TakeZones, RouteOps, Formed;
    var r := PeerStep(q, t, i);
    RouteOpsKeepTruth(pending, t, ops);
    if (r.table, r.changes) != Run(t, ops) {
      var nets, page :| (r.table, r.changes) == TakeZones(t, nets, page);
      PeerListsKeepTruth(pending, t, nets, page);
    }
  }

  // ------------------------------------------------------------- lists off a cable

  function ListOps(nets: seq<U16>, page: ZiPage): seq<Op> {
    seq(|nets|, i requires 0 <= i < |nets| => OpZones(nets[i], NamesFor(page.zones, nets[i]), page.extended))
  }

  lemma {:induction false} ReplyIsARun(t: Table, nets: seq<U16>, page: ZiPage)
    ensures ZoneDistribution.TakeReply(t, nets, page) == Run(t, ListOps(nets, page))
  {
    hide AddZones, NamesFor;
    if nets != [] {
      var n := |nets| - 1;
      ReplyIsARun(t, nets[..n], page);
      var op := OpZones(nets[n], NamesFor(page.zones, nets[n]), page.extended);
      RunSnoc(t, ListOps(nets[..n], page), op);
      assert ListOps(nets, page) == ListOps(nets[..n], page) + [op];
    }
  }

  /** No list of a Reply unfinishes that of an exported network. */
  ghost predicate Finishes(t: Table, page: ZiPage) {
    forall n: U16 :: n in NetsNamed(page.zones) ==> !Unfinishes(t, n, NamesFor(page.zones, n), page.extended)
  }

  lemma ReplyKeepsTruth(pending: seq<Event>, t: Table, page: ZiPage)
    requires Inv(t) && Truthful(pending, t) && Finishes(t, page)
    ensures var (u, cs) := ZoneDistribution.LearnZones(t, page);
            Inv(u) && u.routes == t.routes && Truthful(QueuedAll(pending, cs, u), u)
  {
    var nets := NetsNamed(page.zones);
    var ops := ListOps(nets, page);
    ReplyIsARun(t, nets, page);
    ZoneDistribution.NamedOnce(page.zones);
    hide Inv, Truthful, QueuedAll, Unfinishes, NamesFor, NetsNamed;
    assert ZoneOps(t, ops);
    ZoneOpsKeepTruth(pending, t, ops);
    ListsKeepRoutes(t, ops);
  }

  lemma {:induction false} ListsKeepRoutes(t: Table, ops: seq<Op>)
    requires forall i :: 0 <= i < |ops| ==> ops[i].OpZones?
    ensures Run(t, ops).0.routes == t.routes
  {
    if ops != [] {
      ListsKeepRoutes(t, ops[..|ops| - 1]);
      StepRoutes(Run(t, ops[..|ops| - 1]).0, ops[|ops| - 1]);
    }
  }

  // ------------------------------------------------------------- runs

  datatype Router = Router(peer: PeerState, table: Table)

  /** Everything that moves the tables or the peer. Changes are reported to the peer
      once the packet, timer or batch that made them is done with. */
  datatype Deed =
    | Hears(input: Input)                    // the peer's packets, reconnecting, shutting down
    | Ticks(now: Time)                       // its receiver timers, then its sender timers
    | OtherPeer(q: PeerState, input: Input)  // another peer's packets and timers
    | Cables(ops: seq<Op>)                   // RTMP, aging, and the ports themselves
    | Replies(page: ZiPage)                  // a ZIP Reply

  ghost predicate AboutPorts(op: Op) {
    match op
    case OpLearn(_, target, _, _) => target.Port?
    case OpSweep(w) => w.Distance? ==> w.target.Port?
    case OpZones(_, _, _) => false
  }

  ghost predicate Possible(r: Router, d: Deed) {
    match d
    case Hears(i) => Formed(i) && !i.Changes?
    case Ticks(_) => true
    case OtherPeer(_, i) => Formed(i) && !i.Changes?
    case Cables(ops) => RouteOps(ops) && forall i :: 0 <= i < |ops| ==> AboutPorts(ops[i])
    case Replies(page) => Finishes(r.table, page)
  }

  function Notified(p: PeerState, u: Table, cs: seq<RouteChange>): Router { Router(RouteChanged(p, cs, u), u) }

  function Done(r: Router, d: Deed): Router {
    match d
    case Hears(i) =>
      var out := PeerStep(r.peer, r.table, i);
      Notified(out.peer, out.table, out.changes)
    case Ticks(now) =>
      var out := ReceiverTimers(r.peer, r.table, now);
      Notified(SenderTimers(out.peer, now).0, out.table, out.changes)
    case OtherPeer(q, i) =>
      var out := PeerStep(q, r.table, i);
      Notified(r.peer, out.table, out.changes)
    case Cables(ops) =>
      var (u, cs) := Run(r.table, ops);
      Notified(r.peer, u, cs)
    case Replies(page) =>
      var (u, cs) := ZoneDistribution.LearnZones(r.table, page);
      Notified(r.peer, u, cs)
  }

  ghost predicate RouterOk(r: Router) {
    && SenderInv(r.peer) && Inv(r.table) && TunnelsOk(r.table.routes)
    && Truthful(r.peer.pending, r.table)
  }

  /** A peer's own input either leaves its queue as it was or empties it. */
  lemma QueueKeptOrGone(p: PeerState, t: Table, i: Input)
    requires !i.Changes?
    ensures PeerStep(p, t, i).peer.pending == p.pending || PeerStep(p, t, i).peer.pending == []
  {
    hide Swept, LearnAll, ApplyAll, TakeZones, Transactions, ZiPages, SplitTuples, Export, NetsNamed;
    if i.Arrives? {
      match i.packet.cmd
      case RiRsp(_, _) => ReceivingKeepsSender(p, i.packet, t, i.now);
      case RiUpd(_) => ReceivingKeepsSender(p, i.packet, t, i.now);
      case ZiRsp(_) => ReceivingKeepsSender(p, i.packet, t, i.now);
      case _ =>
    }
  }

  lemma NothingIsTruthful(t: Table)
    ensures Truthful([], t)
  {
  }

  lemma NotifiedIsOk(p: PeerState, u: Table, cs: seq<RouteChange>)
    requires SenderInv(p) && Inv(u) && TunnelsOk(u.routes) && Truthful(QueuedAll(p.pending, cs, u), u)
    ensures RouterOk(Notified(p, u, cs))
  {
    hide Inv, TunnelsOk, Truthful, QueuedAll;
    NothingIsTruthful(u);
  }

  lemma HearingIsOk(r: Router, i: Input)
    requires RouterOk(r) && Formed(i) && !i.Changes?
    ensures RouterOk(Done(r, Hears(i)))
  {
    QueueKeptOrGone(r.peer, r.table, i);
    StepKeepsSenderInv(r.peer, r.table, i);
    PeersKeepTunnels(r.peer, r.table, i);
    NothingIsTruthful(r.table);
    hide Inv, TunnelsOk, Truthful, QueuedAll, PeerStep, SenderInv, RouteChanged;
    var out := PeerStep(r.peer, r.table, i);
    InputKeepsTruth(out.peer.pending, r.peer, r.table, i);
    NotifiedIsOk(out.peer, out.table, out.changes);
  }

  lemma TickingIsOk(r: Router, now: Time)
    requires RouterOk(r)
    ensures RouterOk(Done(r, Ticks(now)))
  {
    var i := Input.ReceiverTick(now);
    var out := PeerStep(r.peer, r.table, i);
    QueueKeptOrGone(r.peer, r.table, i);
    QueueKeptOrGone(out.peer, out.table, SenderTick(now));
    StepKeepsSenderInv(r.peer, r.table, i);
    StepKeepsSenderInv(out.peer, out.table, SenderTick(now));
    PeersKeepTunnels(r.peer, r.table, i);
    NothingIsTruthful(r.table);
    hide Inv, TunnelsOk, Truthful, QueuedAll, ReceiverTimers, SenderTimers, SenderInv, RouteChanged;
    var p := SenderTimers(out.peer, now).0;
    InputKeepsTruth(p.pending, r.peer, r.table, i);
    NotifiedIsOk(p, out.table, out.changes);
  }

  lemma DeedIsOk(r: Router, d: Deed)
    requires RouterOk(r) && Possible(r, d)
    ensures RouterOk(Done(r, d))
  {
    match d
    case Hears(i) => HearingIsOk(r, i);
    case Ticks(now) => TickingIsOk(r, now);
    case OtherPeer(q, i) =>
      hide Inv, TunnelsOk, Truthful, QueuedAll, PeerStep, SenderInv, RouteChanged, Formed;
      var out := PeerStep(q, r.table, i);
      PeersKeepTunnels(q, r.table, i);
      InputKeepsTruth(r.peer.pending, q, r.table, i);
      NotifiedIsOk(r.peer, out.table, out.changes);
    case Cables(ops) => CablesAreOk(r, ops);
    case Replies(page) =>
      hide Inv, TunnelsOk, Truthful, QueuedAll, SenderInv, RouteChanged, Finishes;
      var (u, cs) := ZoneDistribution.LearnZones(r.table, page);
      ReplyKeepsTruth(r.peer.pending, r.table, page);
      NotifiedIsOk(r.peer, u, cs);
  }

  lemma CablesAreOk(r: Router, ops: seq<Op>)
    requires RouterOk(r) && Possible(r, Cables(ops))
    ensures RouterOk(Done(r, Cables(ops)))
  {
    hide Inv, TunnelsOk, Truthful, QueuedAll, SenderInv, RouteChanged, Run, RouteOps;
    var (u, cs) := Run(r.table, ops);
    forall i | 0 <= i < |ops| ensures TunnelOpOk(ops[i]) { assert AboutPorts(ops[i]); }
    RunKeepsTunnels(r.table, ops);
    RouteOpsKeepTruth(r.peer.pending, r.table, ops);
    NotifiedIsOk(r.peer, u, cs);
  }

  ghost predicate DoneAt(rs: seq<Router>, ds: seq<Deed>, i: nat)
    requires i < |ds| && i + 1 < |rs|
  {
    Possible(rs[i], ds[i]) && rs[i + 1] == Done(rs[i], ds[i])
  }

  /** A run of the router from the moment the peer is made. */
  ghost predicate RouterRun(rs: seq<Router>, ds: seq<Deed>) {
    && |rs| == |ds| + 1
    && Inv(rs[0].table) && TunnelsOk(rs[0].table.routes)
    && (exists ip, configured, conn, now :: rs[0].peer == NewPeer(ip, configured, conn, now))
    && forall i :: 0 <= i < |ds| ==> DoneAt(rs, ds, i)
  }

  /** At every moment of every run the tables keep their invariants and what is queued
      for the peer is true of them. */
  lemma {:induction false} QueueAlwaysTellsTheTruth(rs: seq<Router>, ds: seq<Deed>, i: nat)
    requires RouterRun(rs, ds) && i < |rs|
    ensures RouterOk(rs[i])
  {
    hide Done, Possible, Inv, TunnelsOk;
    if i == 0 {
      NothingIsTruthful(rs[0].table);
    } else {
      QueueAlwaysTellsTheTruth(rs, ds, i - 1);
      assert DoneAt(rs, ds, i - 1);
      DeedIsOk(rs[i - 1], ds[i - 1]);
    }
  }

  /** An export served at any moment to a peer that knows nothing puts it in step
      exactly when no addition is pending. */
  lemma ServingAtAnyMoment(rs: seq<Router>, ds: seq<Deed>, i: nat)
    requires RouterRun(rs, ds) && i < |rs|
    ensures var r := rs[i];
            InStep(HearTuples(map[], Export(r.table)), r.peer.pending, r.table) <==> NoneAdded(r.peer.pending)
  {
    QueueAlwaysTellsTheTruth(rs, ds, i);
    hide Inv, TunnelsOk, SenderInv, Truthful, InStep;
    ServingPutsInStep(map[], rs[i].peer.pending, rs[i].table);
  }

  /** So an RI-Req served at any moment of any run, with no addition pending, begins a
      run of the two routers. */
  lemma AnyRunMayServe(rs: seq<Router>, ds: seq<Deed>, i: nat, r: PeerState, rt: Table, now: Time)
    requires RouterRun(rs, ds) && i < |rs|
    requires Live(rs[i].peer) && NoneAdded(rs[i].peer.pending)
    requires r.connLocal == rs[i].peer.connRemote != 0 && r.receiver == WaitRiRsp && r.seqRecv == 1
    requires Sound(rt) && Mirrors(rt, r.ip, map[])
    ensures var (q, out) := ServeRiReq(rs[i].peer, rs[i].table, now);
            var n := Net(q, rs[i].table, CmdsOf(out), r, rt, [], out, [], true);
            Served(n, rs[i].peer, rs[i].table, now) && RunOf([n], [])
  {
    QueueAlwaysTellsTheTruth(rs, ds, i);
    hide Inv, TunnelsOk, SenderInv, Truthful, ServeRiReq, Sound, Mirrors, NoneAdded, RunOf;
    var (q, out) := ServeRiReq(rs[i].peer, rs[i].table, now);
    ServedBegins(Net(q, rs[i].table, CmdsOf(out), r, rt, [], out, [], true), rs[i].peer, rs[i].table, now);
  }
}
