/** The two routers in full: over every run the receiver holds each network at the range
    it was told; told and exported range part only where one changed while its withdrawal
    was pending; and a quiet moment is one at which the receiver is connected and holds
    through the peer exactly the export, one hop further. */
module Synchrony {
  import opened Wire
  import opened Table
  import opened TableTheorems
  import opened TableMeaning
  import opened Paging
  import opened Aurp
  import opened ExportSync
  import opened TunnelView
  import opened RangeView
  import opened PeerTheorems
  import opened TwoRouters
  import opened Delivery
  import opened SenderSteps
  import Opening

  // ------------------------------------------------------------- the receiver

  /** The receiving table holds the network at the range told. */
  ghost predicate RangeHeld(n: Net, s: U16) {
    n.clear ==> ViaSpans(n.rt.routes, Peer(n.r.ip), s, RangeTold(n.heard, s))
  }

  lemma CommandSpans(n: Net, c: Cmd, now: Time, s: U16)
    requires Sound(n.rt) && Mirrors(n.rt, n.r.ip, HearLog(n.heard)) && Room(n, c, now)
    requires ViaSpans(n.rt.routes, Peer(n.r.ip), s, RangeTold(n.heard, s)) && (c.RiRsp? || c.RiUpd?)
    ensures ViaSpans(TableAfter(n.rt, n.r.ip, c, now).routes, Peer(n.r.ip), s, RangeTold(n.heard + [c], s))
  {
    RangeToldSnoc(n.heard, c, s);
    hide Sound, Mirrors, LearnAll, ApplyAll, ClearTuples, ClearEvents, HearLog, ViaSpans, RangeTold;
    if c.RiRsp? {
      TuplesSpan(n.rt, n.r.ip, HearLog(n.heard), c.tuples, now, s, RangeTold(n.heard, s));
    } else {
      EventsSpan(n.rt, n.r.ip, HearLog(n.heard), c.events, now, s, RangeTold(n.heard, s));
    }
  }

  lemma TakenFrame(n: Net, now: Time)
    requires NetInv(n) && n.data != [] && n.data[0].seqno == NumberOf(|n.heard| + 1)
    ensures var m := NetStep(n, DeliverData(now));
            m.r.ip == n.r.ip && (m.clear ==> n.clear && Room(n, n.data[0].cmd, now))
  {
    ExpectedIsLast(n);
    hide Inv, InStep, Told, HearLog, Sound, Mirrors, SenderInv, Routing, Room, DataOk, AcksOk;
    Numbering(|n.heard|);
    NewAnswered(n.r, n.data[0], n.rt, now);
  }

  lemma DuplicateFrame(n: Net, now: Time)
    requires NetInv(n) && n.data != [] && n.data[0].seqno != NumberOf(|n.heard| + 1)
    ensures var m := NetStep(n, DeliverData(now));
            m.r.ip == n.r.ip && m.clear == n.clear && m.rt == n.rt && m.heard == n.heard
  {
    hide Inv, InStep, Told, HearLog, Sound, Mirrors, SenderInv, Routing, Room;
    Numbering(|n.heard|);
    Numbering(|n.heard| + 1);
    DuplicateAnswered(n.r, n.data[0], n.rt, now);
  }

  lemma ClearFacts(n: Net)
    requires NetInv(n) && n.clear
    ensures Sound(n.rt) && Mirrors(n.rt, n.r.ip, HearLog(n.heard))
  {
  }

  lemma ArrivalKeepsHeld(n: Net, now: Time, s: U16)
    requires NetInv(n) && n.data != [] && RangeHeld(n, s)
    ensures RangeHeld(NetStep(n, DeliverData(now)), s)
  {
    hide NetInv, NetStep, ViaSpans, RangeTold, Room, TableAfter, Sound, Mirrors;
    var m := NetStep(n, DeliverData(now));
    if n.data[0].seqno == NumberOf(|n.heard| + 1) {
      ExpectedTaken(n, now);
      ExpectedIsLast(n);
      TakenFrame(n, now);
      if m.clear {
        TakenTable(n, now);
        ClearFacts(n);
        CommandSpans(n, n.data[0].cmd, now, s);
      }
    } else {
      DuplicateFrame(n, now);
    }
  }

  lemma TimersKeepHeld(n: Net, a: Act, s: U16)
    requires NetInv(n) && Enabled(n, a) && RangeHeld(n, s) && (a.ReceiverTick? || a.TickleAnswered?)
    ensures RangeHeld(NetStep(n, a), s)
  {
    assert n.r.ReceiverOpen();
    if a.ReceiverTick? { WaitingStays(n.r, n.rt, a.now); } else { AnswerStays(n.r, n.rt, a.now); }
    hide NetInv, ViaSpans, RangeTold, ReceiverTimers, Routing;
  }

  lemma RemoteKeepsHeld(n: Net, op: Op, s: U16)
    requires NetInv(n) && Enabled(n, RemoteTable(op)) && RangeHeld(n, s)
    ensures RangeHeld(NetStep(n, RemoteTable(op)), s)
  {
    hide ViaSpans, RangeTold, Step, Sound;
    if n.clear {
      ClearFacts(n);
      hide NetInv;
      ForeignSpans(n.rt, n.r.ip, op, s, RangeTold(n.heard, s));
    }
  }

  lemma OthersKeepHeld(n: Net, a: Act, s: U16)
    requires Enabled(n, a) && RangeHeld(n, s)
    requires !(a.DeliverData? || a.RemoteTable? || a.ReceiverTick? || a.TickleAnswered?)
    ensures RangeHeld(NetStep(n, a), s)
  {
    hide ViaSpans, RangeTold, Routing, SenderTimers, Run;
  }

  lemma StepKeepsHeld(n: Net, a: Act, s: U16)
    requires NetInv(n) && Enabled(n, a) && RangeHeld(n, s)
    ensures RangeHeld(NetStep(n, a), s)
  {
    hide NetInv, NetStep, RangeHeld, Enabled;
    match a
    case DeliverData(now) =>
      MustBeThere(n, a);
      ArrivalKeepsHeld(n, now, s);
    case RemoteTable(op) => RemoteKeepsHeld(n, op, s);
    case ReceiverTick(_) => TimersKeepHeld(n, a, s);
    case TickleAnswered(_) => TimersKeepHeld(n, a, s);
    case _ => OthersKeepHeld(n, a, s);
  }

  lemma MustBeThere(n: Net, a: Act)
    requires Enabled(n, a) && a.DeliverData?
    ensures n.data != []
  {
  }

  // ------------------------------------------------------------- the sender

  /** The range a peer holds the network at once the pages in hand have gone out. */
  function RangeOffered(n: Net, s: U16): Option<Range> {
    RangeAfterTuples(RangeTold(n.log, s), Joined(n.s.pages), s)
  }

  /** The peer was told one range, another is exported, and pending is a change of
      distance: the network went and came back otherwise before anything was sent. */
  ghost predicate Parting(n: Net, s: U16) {
    Live(n.s) && Reranged(RangeOffered(n, s), PendingAt(n.s.pending, s), ExportedRange(n.t, s))
  }

  ghost predicate RangeInv(n: Net, s: U16) {
    Live(n.s) ==> RangeAgrees(RangeOffered(n, s), PendingAt(n.s.pending, s), ExportedRange(n.t, s))
  }

  lemma LiveFacts(n: Net)
    requires NetInv(n) && Live(n.s)
    ensures InStep(Told(HearLog(n.log), n.s), n.s.pending, n.t) && Inv(n.t)
  {
    assert SendingOk(n);
  }

  lemma LocalKeepsRange(n: Net, a: Act, s: U16)
    requires NetInv(n) && Enabled(n, a) && (a.LocalRoutes? || a.LocalZones?) && RangeInv(n, s)
    ensures RangeInv(NetStep(n, a), s) && RangeOffered(NetStep(n, a), s) == RangeOffered(n, s)
  {
    if Live(n.s) { LiveFacts(n); }
    hide NetInv, Run, QueuedAll, InStep, Told, HearLog, Inv, RangeAgrees, ExportedRange, FindStart, RangeTold, ZoneOps, RouteOps;
    var v := Told(HearLog(n.log), n.s);
    if Live(n.s) {
      if a.LocalRoutes? {
        RouteOpsKeepRange(RangeOffered(n, s), v, n.s.pending, n.t, a.ops, s);
      } else {
        ZoneOpsKeepRange(RangeOffered(n, s), v, n.s.pending, n.t, a.ops, s);
      }
    }
  }

  /** One more page moves from hand to told. */
  lemma PageMovesRange(log: seq<Cmd>, pages: seq<seq<NetworkTuple>>, last: bool, s: U16)
    requires pages != []
    ensures RangeAfterTuples(RangeTold(log + [RiRsp(last, pages[0])], s), Joined(pages[1..]), s)
         == RangeAfterTuples(RangeTold(log, s), Joined(pages), s)
  {
    RangeToldSnoc(log, RiRsp(last, pages[0]), s);
    JoinedHead(pages);
    RangeAfterConcat(RangeTold(log, s), pages[0], Joined(pages[1..]), s);
  }

  lemma ProbeMovesNothing(w: Option<Range>, s: U16)
    ensures RangeAfterCmd(w, NULL_UPDATE, s) == w
  {
    assert RangeAfterEvents(w, NULL_UPDATE.events[..0], s) == w;
  }

  lemma UpdateBringsRange(n: Net, s: U16)
    requires NetInv(n) && Live(n.s) && n.s.pages == [] && RangeInv(n, s) && !Parting(n, s)
    ensures RangeAfterEvents(RangeTold(n.log, s), n.s.pending, s) == ExportedRange(n.t, s)
  {
    LiveFacts(n);
    var v := Told(HearLog(n.log), n.s);
    assert Agrees(Get(v, s), PendingAt(n.s.pending, s), Exported(n.t, s));
    assert RangeOffered(n, s) == RangeTold(n.log, s);
    hide NetInv, InStep, RangeTold, BestFor, ZonesComplete, FindStart;
    assert OneEach(n.s.pending) by { InStepIsOneEach(v, n.s.pending, n.t); }
    FlushKeepsRange(Get(v, s), RangeTold(n.log, s), n.s.pending, s, Exported(n.t, s), ExportedRange(n.t, s));
  }

  lemma InStepIsOneEach(v: View, pending: seq<Event>, t: Table)
    requires InStep(v, pending, t)
    ensures OneEach(pending)
  {
  }

  /** A new packet leaves what is offered alone, unless it is the update that brings it to
      what is exported. */
  lemma FreshKeepsRange(n: Net, q: PeerState, k: Packet, s: U16)
    requires NetInv(n) && OutcomeOk(n, Fresh(q, k)) && RangeInv(n, s) && !Parting(n, s)
    ensures var m := Applied(n, Fresh(q, k));
            && RangeInv(m, s)
            && ((RangeOffered(m, s) == RangeOffered(n, s) && m.s.pending == n.s.pending)
                || (RangeOffered(m, s) == ExportedRange(n.t, s) && m.s.pending == []))
  {
    var m := Applied(n, Fresh(q, k));
    assert Live(n.s) && SaysNext(n.s, q, k.cmd);
    if n.s.pages != [] {
      PageMovesRange(n.log, n.s.pages, n.s.pages[1..] == [], s);
    } else {
      RangeToldSnoc(n.log, k.cmd, s);
      if k.cmd == NULL_UPDATE { ProbeMovesNothing(RangeTold(n.log, s), s); }
      if k.cmd == RiUpd(n.s.pending) { UpdateBringsRange(n, s); }
    }
    hide NetInv, RangeTold, ExportedRange, OutcomeOk, Reranged, FindStart;
  }

  /** A step moves what is offered only to what is exported. */
  ghost predicate RangeMoves(n: Net, m: Net, s: U16) {
    Live(m.s) ==>
      Live(n.s) && (RangeOffered(m, s) == RangeOffered(n, s) || RangeOffered(m, s) == ExportedRange(m.t, s))
  }

  /** A step of the sender or the channels leaves the tables alone, and moves what is
      offered only by telling everything pending. */
  ghost predicate CalmMove(n: Net, m: Net, s: U16) {
    && m.t == n.t
    && (Live(m.s) ==>
          && Live(n.s)
          && ((RangeOffered(m, s) == RangeOffered(n, s) && m.s.pending == n.s.pending)
              || (RangeOffered(m, s) == ExportedRange(m.t, s) && m.s.pending == [])))
  }

  lemma OutcomeKeepsRange(n: Net, o: Outcome, s: U16)
    requires NetInv(n) && OutcomeOk(n, o) && RangeInv(n, s) && !Parting(n, s) && (o.Settled? ==> Live(n.s))
    ensures RangeInv(Applied(n, o), s) && CalmMove(n, Applied(n, o), s)
  {
    hide NetInv, RangeTold, RangeAfterTuples, ExportedRange, FindStart, RangeAgrees;
    if o.Fresh? {
      assert Live(n.s);
      FreshKeepsRange(n, o.peer, o.packet, s);
      hide RangeOffered, OutcomeOk, Parting;
    } else {
      hide Parting;
    }
  }

  lemma SenderKeepsRange(n: Net, a: Act, s: U16)
    requires NetInv(n) && Enabled(n, a) && (a.SendTick? || a.StrangerOpens? || a.DeliverAck?)
    requires RangeInv(n, s) && !Parting(n, s)
    ensures RangeInv(NetStep(n, a), s) && CalmMove(n, NetStep(n, a), s)
  {
    var m, o := n, Still;
    hide NetInv, NetStep, OutcomeOk, Applied, RangeOffered, RangeAgrees, Reranged;
    match a {
      case SendTick(now) => o := TickOutcome(n, now);
      case StrangerOpens(conn, now) => o := StrangerOutcome(n, conn, now);
      case DeliverAck(now) =>
        AckTaken(n);
        m := n.(acks := n.acks[1..]);
        o := AckOutcome(n, now);
        assert RangeOffered(m, s) == RangeOffered(n, s) by { SameOffer(n, m, s); }
    }
    if o.Settled? { SettledIsLive(m, o); }
    OutcomeKeepsRange(m, o, s);
    hide ExportedRange, FindStart;
  }

  lemma SameOffer(n: Net, m: Net, s: U16)
    requires m.log == n.log && m.s.pages == n.s.pages
    ensures RangeOffered(m, s) == RangeOffered(n, s)
  {
  }

  lemma SettledIsLive(n: Net, o: Outcome)
    requires NetInv(n) && OutcomeOk(n, o) && o.Settled?
    ensures Live(n.s)
  {
    hide Inv, InStep, Told, HearLog, Sound, Mirrors, SenderInv, DataOk, AcksOk, SendingOk;
  }

  lemma OthersKeepRange(n: Net, a: Act, s: U16)
    requires NetInv(n) && Enabled(n, a) && RangeInv(n, s)
    requires !(a.SendTick? || a.StrangerOpens? || a.DeliverAck? || a.LocalRoutes? || a.LocalZones?)
    ensures RangeInv(NetStep(n, a), s) && RangeMoves(n, NetStep(n, a), s)
  {
    match a
    case Asked(k, now) => AskedKeepsNet(n, k, now);
    case _ =>
      hide NetInv, RangeTold, RangeAfterTuples, RangeAgrees, ExportedRange, FindStart, Routing, ReceiverTimers, Step;
  }

  lemma StepKeepsRange(n: Net, a: Act, s: U16)
    requires NetInv(n) && Enabled(n, a) && RangeInv(n, s) && !Parting(n, s)
    ensures RangeInv(NetStep(n, a), s) && RangeMoves(n, NetStep(n, a), s)
  {
    if a.SendTick? || a.StrangerOpens? || a.DeliverAck? {
      SenderKeepsRange(n, a, s);
      hide NetInv, NetStep, RangeOffered, RangeInv, ExportedRange;
    } else if a.LocalRoutes? || a.LocalZones? {
      LocalKeepsRange(n, a, s);
      hide NetInv, RangeOffered, RangeInv, Run, QueuedAll;
    } else {
      OthersKeepRange(n, a, s);
    }
  }

  /** Deliveries and the sender's timer never part the two. */
  lemma CalmDoesNotPart(n: Net, a: Act, s: U16)
    requires NetInv(n) && Enabled(n, a) && (a.SendTick? || a.DeliverAck? || a.DeliverData?)
    requires RangeInv(n, s) && !Parting(n, s)
    ensures !Parting(NetStep(n, a), s)
  {
    if a.DeliverData? {
      hide NetInv, RangeTold, RangeAfterTuples, ExportedRange, FindStart, Routing;
    } else {
      SenderKeepsRange(n, a, s);
      hide NetInv, NetStep, RangeOffered, RangeInv, ExportedRange, FindStart;
    }
  }

  // ------------------------------------------------------------- every run

  lemma ServedOffer(n: Net, z: PeerState, t: Table, now: Time, s: U16)
    requires Served(n, z, t, now)
    ensures RangeOffered(n, s) == RangeAfterTuples(None, Export(t), s) && n.s.pending == z.pending && n.t == t && n.heard == []
  {
    hide Truthful, NoneAdded, Inv, Sound, Mirrors, Export, SplitTuples, SenderInv, RangeTold, RangeAfterTuples, Joined;
    SplitIsExact(Export(t));
    NoPagesJoin();
    var pages := SplitTuples(Export(t));
    assert pages != [];
    var p := z.(seqSend := 0, outstanding := None, pages := pages);
    var (q, out) := SendPage(p, now);
    assert CmdsOf(out) == [RiRsp(pages[1..] == [], pages[0])];
    assert n.log == [] + [RiRsp(pages[1..] == [], pages[0])];
    PageMovesRange([], pages, pages[1..] == [], s);
    NothingTold(s);
  }

  lemma NothingTold(s: U16)
    ensures RangeTold([], s) == None
  {
  }

  lemma NoPagesJoin()
    ensures Joined<NetworkTuple>([]) == []
  {
  }

  lemma NothingHeld(t: Table, ip: nat, s: U16)
    requires Mirrors(t, ip, map[])
    ensures ViaSpans(t.routes, Peer(ip), s, None)
  {
    assert ViaIs(t.routes, Peer(ip), s, OneMore(Get(map[], s)));
  }

  /** Pending events that tell the truth, none an addition, agree with any range. */
  lemma TrueEventsAgree(pending: seq<Event>, t: Table, s: U16)
    requires Truthful(pending, t) && NoneAdded(pending)
    ensures RangeAgrees(ExportedRange(t, s), PendingAt(pending, s), ExportedRange(t, s))
  {
    hide BestFor, ZonesComplete, Shareable;
  }

  lemma ServedRange(n: Net, z: PeerState, t: Table, now: Time, s: U16)
    requires Served(n, z, t, now)
    ensures RangeHeld(n, s) && RangeInv(n, s) && RangeOffered(n, s) == ExportedRange(n.t, s)
  {
    hide Inv, SenderInv, ServeRiReq, RangeOffered, RangeAgrees, ExportedRange, Truthful, NoneAdded, Mirrors, Sound, ViaSpans;
    ServedOffer(n, z, t, now, s);
    ExportGivesRanges(t, s);
    TrueEventsAgree(z.pending, t, s);
    NothingHeld(n.rt, n.r.ip, s);
    NothingTold(s);
  }

  /** At every moment of every run, while the receiving table had room for everything,
      it holds each network through the peer at the range it was told. */
  lemma {:induction false} HeldAsTold(ns: seq<Net>, acts: seq<Act>, i: nat, s: U16)
    requires RunOf(ns, acts) && i < |ns|
    ensures RangeHeld(ns[i], s)
  {
    hide NetInv, NetStep, Served, Enabled, RangeHeld, RunOf;
    if i == 0 {
      RunBegins(ns, acts);
      var z, t, now :| Served(ns[0], z, t, now);
      ServedRange(ns[0], z, t, now, s);
    } else {
      HeldAsTold(ns, acts, i - 1, s);
      RunKeepsNet(ns, acts, i - 1);
      RunStepsOn(ns, acts, i - 1);
      StepKeepsHeld(ns[i - 1], acts[i - 1], s);
    }
  }

  lemma RunBegins(ns: seq<Net>, acts: seq<Act>)
    requires RunOf(ns, acts)
    ensures ns != [] && exists z, t, now :: Served(ns[0], z, t, now)
  {
  }

  lemma RunStepsOn(ns: seq<Net>, acts: seq<Act>, i: nat)
    requires RunOf(ns, acts) && i + 1 < |ns|
    ensures i < |acts| && Enabled(ns[i], acts[i]) && ns[i + 1] == NetStep(ns[i], acts[i])
  {
    assert StepsTo(ns, acts, i);
    hide NetStep, Enabled;
  }

  /** At no moment before `i` were the two about to part. */
  ghost predicate NeverParting(ns: seq<Net>, i: nat, s: U16)
    requires i <= |ns|
  {
    forall j :: 0 <= j < i ==> !Parting(ns[j], s)
  }

  lemma {:induction false} OfferedAsExported(ns: seq<Net>, acts: seq<Act>, i: nat, s: U16)
    requires RunOf(ns, acts) && i < |ns| && NeverParting(ns, i, s)
    ensures RangeInv(ns[i], s)
  {
    hide NetInv, NetStep, Served, Enabled, RangeInv, RunOf, Parting;
    if i == 0 {
      RunBegins(ns, acts);
      var z, t, now :| Served(ns[0], z, t, now);
      ServedRange(ns[0], z, t, now, s);
    } else {
      OfferedAsExported(ns, acts, i - 1, s);
      RunKeepsNet(ns, acts, i - 1);
      RunStepsOn(ns, acts, i - 1);
      StepKeepsRange(ns[i - 1], acts[i - 1], s);
    }
  }

  // ------------------------------------------------------------- a network that keeps its range

  /** Whenever the network is exported up to `i`, it has this range. */
  ghost predicate KeepsRange(ns: seq<Net>, i: nat, s: U16, range: Range)
    requires i < |ns|
  {
    forall j :: 0 <= j <= i ==> ExportedRange(ns[j].t, s) == None || ExportedRange(ns[j].t, s) == Some(range)
  }

  ghost predicate OffersOnly(n: Net, s: U16, range: Range) {
    Live(n.s) ==> RangeOffered(n, s) == None || RangeOffered(n, s) == Some(range)
  }

  lemma NoPartingThere(n: Net, s: U16, range: Range)
    requires RangeInv(n, s) && OffersOnly(n, s, range)
    requires ExportedRange(n.t, s) == None || ExportedRange(n.t, s) == Some(range)
    ensures !Parting(n, s)
  {
    hide RangeOffered, ExportedRange, FindStart;
  }

  /** A network whose range never changes never parts the two. */
  lemma {:induction false} SteadyNeverParts(ns: seq<Net>, acts: seq<Act>, i: nat, s: U16, range: Range)
    requires RunOf(ns, acts) && i < |ns| && KeepsRange(ns, i, s, range)
    ensures RangeInv(ns[i], s) && OffersOnly(ns[i], s, range) && NeverParting(ns, i + 1, s)
  {
    hide NetInv, NetStep, Served, Enabled, RangeInv, RunOf, Parting, ExportedRange, RangeOffered;
    if i == 0 {
      RunBegins(ns, acts);
      var z, t, now :| Served(ns[0], z, t, now);
      ServedRange(ns[0], z, t, now, s);
    } else {
      SteadyNeverParts(ns, acts, i - 1, s, range);
      RunKeepsNet(ns, acts, i - 1);
      RunStepsOn(ns, acts, i - 1);
      StepKeepsRange(ns[i - 1], acts[i - 1], s);
    }
    NoPartingThere(ns[i], s, range);
  }

  // ------------------------------------------------------------- a quiet moment

  /** Exactly one route through the peer from the start of `x`: a good one, of the whole
      range, one hop further. */
  ghost predicate HeldOneHopFurther(rs: seq<Route>, ip: nat, x: NetworkTuple) {
    exists r :: r in rs && OneHopFurther(r, ip, x)
                && forall q :: q in rs && q.target == Peer(ip) && q.range.lo == x.range.lo ==> q == r
  }

  predicate OneHopFurther(r: Route, ip: nat, x: NetworkTuple) {
    r.target == Peer(ip) && r.range == x.range && r.distance == x.distance + 1 && r.state == Good && r.next == NO_NEXT
  }

  lemma ExportedTuple(t: Table, x: NetworkTuple)
    requires x in Export(t)
    ensures Exported(t, x.range.lo) == Some(x.distance) && ExportedRange(t, x.range.lo) == Some(x.range)
  {
    ExportIsExact(t);
    hide Export, BestFor, ShortestUsable;
    var i :| 0 <= i < |Export(t)| && Export(t)[i] == x;
    assert MayLearn(t, Export(t)[i].range.lo);
  }

  lemma ExportedHasTuple(t: Table, s: U16) returns (x: NetworkTuple)
    requires Exported(t, s).Some?
    ensures x in Export(t) && x.range.lo == s
  {
    ExportIsExact(t);
    hide Export, BestFor, ShortestUsable;
    assert MayLearn(t, s);
    var i :| 0 <= i < |Export(t)| && Export(t)[i].range.lo == s;
    x := Export(t)[i];
  }

  lemma OneRouteHeld(t: Table, ip: nat, x: NetworkTuple)
    requires Sound(t) && x.distance < 15
    requires ViaIs(t.routes, Peer(ip), x.range.lo, Some(x.distance + 1)) && ViaSpans(t.routes, Peer(ip), x.range.lo, Some(x.range))
    ensures HeldOneHopFurther(t.routes, ip, x)
  {
    var rs, s := t.routes, x.range.lo;
    assert RoutesOk(rs) && TunnelsOk(rs);
    hide Inv, RoutesOk, BestFor;
    var r :| r in rs && r.target == Peer(ip) && r.range.lo == s;
    forall q | q in rs && q.target == Peer(ip) && q.range.lo == s ensures q == r {
      SameStartSameRange(rs, q, r);
    }
  }

  lemma QuietFacts(ns: seq<Net>, acts: seq<Act>, i: nat)
    requires RunOf(ns, acts) && i < |ns| && ns[i].clear && ns[i].s.sender == SConnected && ns[i].s.pending == []
    ensures Sound(ns[i].rt) && ns[i].heard == ns[i].log && ns[i].s.pages == []
  {
    RunKeepsNet(ns, acts, i);
    assert SendingOk(ns[i]);
  }

  lemma QuietRange(ns: seq<Net>, acts: seq<Act>, i: nat, s: U16)
    requires RunOf(ns, acts) && i < |ns| && ns[i].clear && ns[i].s.sender == SConnected && ns[i].s.pending == []
    requires NeverParting(ns, i, s)
    ensures ViaSpans(ns[i].rt.routes, Peer(ns[i].r.ip), s, ExportedRange(ns[i].t, s))
  {
    QuietFacts(ns, acts, i);
    OfferedAsExported(ns, acts, i, s);
    HeldAsTold(ns, acts, i, s);
    NoPagesJoin();
    hide RunOf, NeverParting, ViaSpans, RangeTold, ExportedRange, Sound;
  }

  /** The main result for two routers. At any moment of any run, when the sender is
      connected with nothing pending and the receiving table had room for everything, the
      receiver is past waiting for the export; its table holds through the peer exactly
      the exported networks, each one hop further, at the range it was told; and it holds
      an exported network, whole, as the export has it unless the two parted before. */
  lemma QuietMeansSynchronised(ns: seq<Net>, acts: seq<Act>, i: nat, s: U16)
    requires RunOf(ns, acts) && i < |ns| && ns[i].clear
    requires ns[i].s.sender == SConnected && ns[i].s.pending == []
    ensures var n := ns[i];
            && (n.r.receiver == RConnected || n.r.receiver == WaitTickleAck)
            && ViaIs(n.rt.routes, Peer(n.r.ip), s, OneMore(Exported(n.t, s)))
            && ViaSpans(n.rt.routes, Peer(n.r.ip), s, RangeTold(n.log, s))
            && (NeverParting(ns, i, s) ==>
                  forall x :: x in Export(n.t) && x.range.lo == s ==> HeldOneHopFurther(n.rt.routes, n.r.ip, x))
            && ((forall x :: x in Export(n.t) ==> x.range.lo != s) ==>
                  forall r :: r in n.rt.routes && r.target == Peer(n.r.ip) ==> r.range.lo != s)
  {
    var n := ns[i];
    Opening.QuietIsConnected(ns, acts, i);
    QuietTellsDistances(ns, acts, i, s);
    QuietFacts(ns, acts, i);
    HeldAsTold(ns, acts, i, s);
    hide RunOf, NeverParting, ViaSpans, RangeTold, Sound, Export, HeldOneHopFurther;
    if NeverParting(ns, i, s) {
      QuietRange(ns, acts, i, s);
      forall x | x in Export(n.t) && x.range.lo == s ensures HeldOneHopFurther(n.rt.routes, n.r.ip, x) {
        ExportedTuple(n.t, x);
        hide ExportedRange;
        OneRouteHeld(n.rt, n.r.ip, x);
      }
    }
    if forall x :: x in Export(n.t) ==> x.range.lo != s {
      if Exported(n.t, s).Some? { var x := ExportedHasTuple(n.t, s); }
    }
  }

  /** So in particular for a network that never changed its range. */
  lemma SteadyNetworksAreHeldWhole(ns: seq<Net>, acts: seq<Act>, i: nat, x: NetworkTuple)
    requires RunOf(ns, acts) && i < |ns| && ns[i].clear
    requires ns[i].s.sender == SConnected && ns[i].s.pending == []
    requires x in Export(ns[i].t) && KeepsRange(ns, i, x.range.lo, x.range)
    ensures HeldOneHopFurther(ns[i].rt.routes, ns[i].r.ip, x)
  {
    SteadyNeverParts(ns, acts, i, x.range.lo, x.range);
    QuietMeansSynchronised(ns, acts, i, x.range.lo);
    hide RunOf, KeepsRange, Export, HeldOneHopFurther, ViaSpans, ViaIs;
    assert NeverParting(ns, i, x.range.lo);
  }
}
