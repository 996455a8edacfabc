/** The range at which a peer holds a network: what the events and pages it hears make of
    it, what they make of its table, and how that range follows the one exported. Only one
    thing parts the two: a range that changed while a withdrawal was still pending. */
module RangeView {
  import opened Wire
  import opened Table
  import opened TableTheorems
  import opened TableMeaning
  import opened Paging
  import opened Aurp
  import opened ExportSync
  import opened TunnelView

  // ------------------------------------------------------------- what a peer is told

  /** The range of the network that starts at `s` after one event: an addition gives it, a
      change of distance gives it only to a peer that lacked the network. */
  function RangeAfter(w: Option<Range>, e: Event, s: U16): Option<Range> {
    if e.Start() != s then w
    else
      match e.code
      case NA => if e.tuple.distance < 15 then Some(e.tuple.range) else w
      case ND => None
      case NRC => None
      case NDC => if e.tuple.distance >= 15 then None else if w.Some? then w else Some(e.tuple.range)
      case Null => w
      case ZC => w
  }

  function RangeAfterEvents(w: Option<Range>, es: seq<Event>, s: U16): Option<Range> {
    if es == [] then w else RangeAfter(RangeAfterEvents(w, es[..|es| - 1], s), es[|es| - 1], s)
  }

  function RangeAfterTuples(w: Option<Range>, ts: seq<NetworkTuple>, s: U16): Option<Range> {
    if ts == [] then w
    else
      var x := ts[|ts| - 1];
      if x.range.lo == s && x.distance < 15 then Some(x.range) else RangeAfterTuples(w, ts[..|ts| - 1], s)
  }

  function RangeAfterCmd(w: Option<Range>, c: Cmd, s: U16): Option<Range> {
    match c
    case RiRsp(_, ts) => RangeAfterTuples(w, ts, s)
    case RiUpd(es) => RangeAfterEvents(w, es, s)
    case _ => w
  }

  function RangeTold(log: seq<Cmd>, s: U16): Option<Range> {
    if log == [] then None else RangeAfterCmd(RangeTold(log[..|log| - 1], s), log[|log| - 1], s)
  }

  lemma RangeToldSnoc(log: seq<Cmd>, c: Cmd, s: U16)
    ensures RangeTold(log + [c], s) == RangeAfterCmd(RangeTold(log, s), c, s)
  {
    assert (log + [c])[..|log|] == log;
  }

  lemma {:induction false} RangeAfterConcat(w: Option<Range>, a: seq<NetworkTuple>, b: seq<NetworkTuple>, s: U16)
    ensures RangeAfterTuples(w, a + b, s) == RangeAfterTuples(RangeAfterTuples(w, a, s), b, s)
  {
    if b == [] {
      assert a + b == a;
    } else {
      var n := |b| - 1;
      assert (a + b)[..|a + b| - 1] == a + b[..n];
      RangeAfterConcat(w, a, b[..n], s);
    }
  }

  // ------------------------------------------------------------- what its table holds

  /** The routes through `target` that start at `s`: none, or all of them of range `w`. */
  ghost predicate ViaSpans(rs: seq<Route>, target: Target, s: U16, w: Option<Range>) {
    && (w.Some? <==> exists r :: r in rs && r.target == target && r.range.lo == s)
    && (forall r :: r in rs && r.target == target && r.range.lo == s ==> w == Some(r.range))
  }

  lemma LearnSpans(rs: seq<Route>, x: NetworkTuple, target: Target, now: Time, s: U16, w: Option<Range>)
    requires RoutesOk(rs) && x.distance < 15 && x.range.WellFormed() && !Blocked(rs, x.range)
    requires ViaSpans(rs, target, s, w)
    ensures ViaSpans(LearnRoutes(rs, x, target, NO_NEXT, now), target, s, if s == x.range.lo then Some(x.range) else w)
  {
    var out := LearnRoutes(rs, x, target, NO_NEXT, now);
    LearnKeepsRoutesOk(rs, x, target, NO_NEXT, now);
    var p := Position(rs, x.range, target, NO_NEXT);
    var z := out[if p.Some? then p.value else |rs|];
    assert z in out && z.Is(x.range, target, NO_NEXT);
    if s == x.range.lo {
      forall r | r in out && r.target == target && r.range.lo == s ensures r.range == x.range {
        SameStartSameRange(out, r, z);
      }
    } else {
      forall r: Route | r.range.lo == s ensures r in out <==> r in rs {
        if r in rs { LearnSparesOthers(rs, x, target, NO_NEXT, now, r); }
      }
    }
  }

  /** A sweep that keeps or drops the routes of `target` at `s` together. */
  lemma SweepSpans(w: Sweep, rs: seq<Route>, target: Target, s: U16, range: Option<Range>, drops: bool)
    requires ViaSpans(rs, target, s, range)
    requires forall r :: r in rs && r.target == target && r.range.lo == s ==>
               match SweepOne(w, r) case None => drops case Some(_) => !drops
    ensures ViaSpans(SweepAll(w, rs), target, s, if drops then None else range)
  {
    var out := SweepAll(w, rs);
    forall y | y in out && y.target == target && y.range.lo == s
      ensures !drops && exists r :: r in rs && r.target == target && r.range == y.range
    {
      SweptMembers(w, rs, y);
      var r :| r in rs && SweepOne(w, r) == Some(y);
      assert r.target == target && r.range == y.range;
    }
    if range.Some? && !drops {
      var r :| r in rs && r.target == target && r.range.lo == s;
      SweepKeepsMember(w, rs, r);
      var y := SweepOne(w, r).value;
      assert y in out && y.target == target && y.range.lo == s;
    }
  }

  lemma ViaIsHeld(rs: seq<Route>, target: Target, s: U16, w: Option<Range>)
    requires ViaSpans(rs, target, s, w)
    ensures HasVia(rs, target, s) <==> w.Some?
  {
    if r :| r in rs && r.target == target && r.range.lo == s {
      var i :| 0 <= i < |rs| && rs[i] == r;
    }
  }

  /** The routes an event leaves. */
  lemma AppliedRoutes(t: Table, ip: nat, e: Event, now: Time)
    ensures var d, u := e.tuple.distance, Apply(t, ip, e, now).0;
            && (d < 15 && (e.code == NA || (e.code == NDC && !HasVia(t.routes, Peer(ip), e.Start()))) ==>
                  u.routes == if Blocked(t.routes, e.tuple.range) then t.routes
                              else LearnRoutes(t.routes, e.tuple, Peer(ip), NO_NEXT, now))
            && (e.code == ND || e.code == NRC || (e.code == NDC && d >= 15) ==>
                  u.routes == SweepAll(DropStart(Peer(ip), e.Start()), t.routes))
            && (e.code == NDC && d < 15 && HasVia(t.routes, Peer(ip), e.Start()) ==>
                  u.routes == SweepAll(Distance(Peer(ip), e.Start(), d + 1, now), t.routes))
            && (e.code == Null || e.code == ZC || (e.code == NA && d >= 15) ==> u == t)
  {
    hide HasVia, Blocked, LearnRoutes, SweepAll, Learn, Swept;
    var d := e.tuple.distance;
    StepRoutes(t, OpLearn(e.tuple, Peer(ip), NO_NEXT, now));
    StepRoutes(t, OpSweep(DropStart(Peer(ip), e.Start())));
    if d < 15 { StepRoutes(t, OpSweep(Distance(Peer(ip), e.Start(), d + 1, now))); }
  }

  /** What an event does to the routes through the peer, it does to the range told. */
  lemma ApplySpans(t: Table, ip: nat, v: View, e: Event, now: Time, s: U16, w: Option<Range>)
    requires Sound(t) && Mirrors(t, ip, v) && Clear(t, v, e) && ViaSpans(t.routes, Peer(ip), s, w)
    ensures ViaSpans(Apply(t, ip, e, now).0.routes, Peer(ip), s, RangeAfter(w, e, s))
  {
    hide Sound, Apply, Learn, Swept, Mirrors, HasVia, ViaSpans, Blocked, LearnRoutes, SweepAll, RoutesOk, HearEvent;
    KnownIsHeld(t, ip, v, e.Start());
    if e.Start() == s { ViaIsHeld(t.routes, Peer(ip), s, w); }
    AppliedRoutes(t, ip, e, now);
    SoundRoutes(t);
    var d := e.tuple.distance;
    if Adds(v, e) {
      LearnSpans(t.routes, e.tuple, Peer(ip), now, s, w);
    } else if e.code == ND || e.code == NRC || (e.code == NDC && d >= 15) {
      DropSpans(t.routes, ip, e.Start(), s, w);
    } else if e.code == NDC {
      DistanceSpans(t.routes, Distance(Peer(ip), e.Start(), d + 1, now), Peer(ip), s, w);
    }
  }

  lemma SoundRoutes(t: Table)
    requires Sound(t)
    ensures RoutesOk(t.routes)
  {
  }

  lemma DropSpans(rs: seq<Route>, ip: nat, z: U16, s: U16, w: Option<Range>)
    requires ViaSpans(rs, Peer(ip), s, w)
    ensures ViaSpans(SweepAll(DropStart(Peer(ip), z), rs), Peer(ip), s, if z == s then None else w)
  {
    hide SweepAll;
    SweepSpans(DropStart(Peer(ip), z), rs, Peer(ip), s, w, z == s);
  }

  lemma DistanceSpans(rs: seq<Route>, sweep: Sweep, target: Target, s: U16, w: Option<Range>)
    requires sweep.Distance? && ViaSpans(rs, target, s, w)
    ensures ViaSpans(SweepAll(sweep, rs), target, s, w)
  {
    hide SweepAll;
    SweepSpans(sweep, rs, target, s, w, false);
  }

  lemma {:induction false} EventsSpan(t: Table, ip: nat, v: View, es: seq<Event>, now: Time, s: U16, w: Option<Range>)
    requires Sound(t) && Mirrors(t, ip, v) && ClearEvents(t, ip, v, es, now) && ViaSpans(t.routes, Peer(ip), s, w)
    ensures ViaSpans(ApplyAll(t, ip, es, now).0.routes, Peer(ip), s, RangeAfterEvents(w, es, s))
  {
    if es != [] {
      var n := |es| - 1;
      EventsSpan(t, ip, v, es[..n], now, s, w);
      EventsMirror(t, ip, v, es[..n], now);
      hide Sound, Mirrors, Clear, ViaSpans, Apply, RangeAfter, HearEvent;
      ApplySpans(ApplyAll(t, ip, es[..n], now).0, ip, HearEvents(v, es[..n]), es[n], now, s, RangeAfterEvents(w, es[..n], s));
    }
  }

  lemma {:induction false} TuplesSpan(t: Table, ip: nat, v: View, ts: seq<NetworkTuple>, now: Time, s: U16, w: Option<Range>)
    requires Sound(t) && Mirrors(t, ip, v) && ClearTuples(t, ip, ts, now) && ViaSpans(t.routes, Peer(ip), s, w)
    ensures ViaSpans(LearnAll(t, ip, ts, now).0.routes, Peer(ip), s, RangeAfterTuples(w, ts, s))
  {
    if ts != [] {
      var n := |ts| - 1;
      TuplesSpan(t, ip, v, ts[..n], now, s, w);
      TuplesMirror(t, ip, v, ts[..n], now);
      var u := LearnAll(t, ip, ts[..n], now).0;
      hide Mirrors, ViaSpans, Learn, Blocked;
      if ts[n].distance < MAX_HOPS {
        SoundRoutes(u);
        hide Sound;
        StepRoutes(u, OpLearn(ts[n], Peer(ip), NO_NEXT, now));
        LearnSpans(u.routes, ts[n], Peer(ip), now, s, RangeAfterTuples(w, ts[..n], s));
      }
    }
  }

  /** Whatever the router does with its ports and its other peers. */
  lemma ForeignSpans(t: Table, ip: nat, op: Op, s: U16, w: Option<Range>)
    requires Sound(t) && Foreign(op, ip) && ViaSpans(t.routes, Peer(ip), s, w)
    ensures ViaSpans(Step(t, op).0.routes, Peer(ip), s, w)
  {
    StepRoutes(t, op);
    hide Step, LearnRoutes, SweepAll, Inv, TunnelsOk, Blocked;
    match op
    case OpLearn(x, target, next, now) =>
      if !Blocked(t.routes, x.range) { LearnSparesVia(t.routes, x, target, next, now, Peer(ip)); }
    case OpSweep(sweep) => SweepSpans(sweep, t.routes, Peer(ip), s, w, false);
    case OpZones(_, _, _) =>
  }

  lemma LearnSparesVia(rs: seq<Route>, x: NetworkTuple, target: Target, next: Addr, now: Time, other: Target)
    requires target != other
    ensures forall r: Route :: r.target == other ==> (r in LearnRoutes(rs, x, target, next, now) <==> r in rs)
  {
    forall r: Route | r.target == other && r in rs ensures r in LearnRoutes(rs, x, target, next, now) {
      LearnSparesOthers(rs, x, target, next, now, r);
    }
  }

  // ------------------------------------------------------------- what is exported

  function ExportedRange(t: Table, s: U16): Option<Range> {
    if Exportable(t, s) then Some(BestFor(t, s).value.range) else None
  }

  /** A network told at range `w`, with `p` still pending, exported at range `e`. */
  ghost predicate RangeAgrees(w: Option<Range>, p: Option<Event>, e: Option<Range>) {
    match p
    case None => w == e
    case Some(x) =>
      match x.code
      case NA => w == None && e == Some(x.tuple.range)
      case NDC => e.Some? && (w.None? ==> e == Some(x.tuple.range))
      case ND => e == None
      case NRC => e == None
      case _ => false
  }

  /** The family that parts the two: a network the peer holds at one range, exported at
      another, and pending is a change of distance. */
  predicate Reranged(w: Option<Range>, p: Option<Event>, e: Option<Range>) {
    p.Some? && p.value.code == NDC && w.Some? && w != e
  }

  lemma {:induction false} RangeAfterPending(w: Option<Range>, pending: seq<Event>, n: nat, s: U16)
    requires OneEach(pending) && n <= |pending|
    ensures RangeAfterEvents(w, pending[..n], s) ==
            match FindStart(pending, s)
            case None => w
            case Some(i) => if i < n then RangeAfter(w, pending[i], s) else w
  {
    if n > 0 {
      RangeAfterPending(w, pending, n - 1, s);
      assert pending[..n][..n - 1] == pending[..n - 1];
      PendingMeaning(pending, n - 1);
    }
  }

  /** An update brings the range told to the range exported, except in that family. */
  lemma FlushKeepsRange(v: Option<Byte>, w: Option<Range>, pending: seq<Event>, s: U16, d: Option<Byte>, e: Option<Range>)
    requires OneEach(pending) && Agrees(v, PendingAt(pending, s), d) && RangeAgrees(w, PendingAt(pending, s), e)
    requires d.Some? ==> d.value < 15
    ensures RangeAfterEvents(w, pending, s) == e <==> !Reranged(w, PendingAt(pending, s), e)
  {
    RangeAfterPending(w, pending, |pending|, s);
    assert pending[..|pending|] == pending;
  }

  // ------------------------------------------------------------- table operations

  ghost predicate SameRange(a: Option<Route>, b: Option<Route>) {
    a.Some? && b.Some? ==> a.value.range == b.value.range
  }

  lemma LearnedRange(rs: seq<Route>, x: NetworkTuple, target: Target, next: Addr, now: Time, a: Route, b: Route)
    requires RoutesOk(rs) && x.range.WellFormed() && !Blocked(rs, x.range)
    requires a in rs && b in LearnRoutes(rs, x, target, next, now) && a.Start() == b.Start()
    ensures a.range == b.range
  {
    hide Position;
    var out := LearnRoutes(rs, x, target, next, now);
    if b in rs {
      SameStartSameRange(rs, a, b);
    } else {
      assert b.range == x.range;
      var i :| 0 <= i < |rs| && rs[i] == a;
      assert !Blocks(rs[i], x.range);
    }
  }

  lemma SweptRange(rs: seq<Route>, w: Sweep, a: Route, b: Route)
    requires RoutesOk(rs) && a in rs && b in SweepAll(w, rs) && a.Start() == b.Start()
    ensures a.range == b.range
  {
    SweptMembers(w, rs, b);
    hide SweepAll;
    var r :| r in rs && SweepOne(w, r) == Some(b);
    SameStartSameRange(rs, a, r);
  }

  /** No single operation moves the range of a network that has a best route before and
      after it. */
  lemma OpKeepsRange(t: Table, op: Op, s: U16)
    requires Inv(t) && OpOk(op)
    ensures SameRange(BestFor(t, s), BestFor(Step(t, op).0, s))
  {
    var u := Step(t, op).0;
    StepRoutes(t, op);
    BestStartsThere(t, s);
    BestStartsThere(u, s);
    if op.OpZones? { ZonesKeepInv(t, op.start, op.names, op.expected); }
    assert RoutesOk(t.routes);
    hide Step, BestFor, LearnRoutes, SweepAll, Blocked, RoutesOk, Inv;
    if BestFor(t, s).Some? && BestFor(u, s).Some? {
      var a, b := BestFor(t, s).value, BestFor(u, s).value;
      match op
      case OpLearn(x, target, next, now) =>
        if Blocked(t.routes, x.range) { SameStartSameRange(t.routes, a, b); }
        else { LearnedRange(t.routes, x, target, next, now, a, b); }
      case OpSweep(w) => SweptRange(t.routes, w, a, b);
      case OpZones(_, _, _) =>
    }
  }

  function RangeWorth(b: Option<Route>, complete: bool): Option<Range> {
    if Shareable(b) && complete then Some(b.value.range) else None
  }

  lemma OneChangeRange(w: Option<Range>, p: Option<Event>, u: Table, c: RouteChange, complete: bool)
    requires StartsThere(c.before, c.range.lo) && StartsThere(c.after, c.range.lo) && SameRange(c.before, c.after)
    requires ZonesComplete(u, c.range.lo) ==> complete
    requires RangeAgrees(w, p, RangeWorth(c.before, complete))
    ensures RangeAgrees(w, After(p, EventFor(u, c)), RangeWorth(c.after, ZonesComplete(u, c.range.lo)))
  {
    hide ZonesComplete;
  }

  /** One network part of the way through a batch whose events are all judged by the
      tables at its end. */
  lemma {:induction false} BatchRange(w: Option<Range>, v: View, pending: seq<Event>, t: Table, ops: seq<Op>, u: Table, s: U16)
    requires Inv(t) && RouteOps(ops) && InStep(v, pending, t) && (ZonesComplete(u, s) ==> ZonesComplete(t, s))
    requires RangeAgrees(w, PendingAt(pending, s), ExportedRange(t, s))
    ensures var (x, cs) := Run(t, ops);
            && (ChangeAt(cs, s).Some? ==> RangeAgrees(w, PendingAt(QueuedAll(pending, cs, u), s),
                                                      RangeWorth(BestFor(x, s), ZonesComplete(u, s))))
            && (ChangeAt(cs, s).None? ==> SameRange(BestFor(t, s), BestFor(x, s)))
  {
    if ops != [] {
      var n := |ops| - 1;
      BatchRange(w, v, pending, t, ops[..n], u, s);
      BatchAt(v, pending, t, ops[..n], u, s);
      BatchZones(t, ops[..n], s);
      var (x, cs) := Run(t, ops[..n]);
      var (y, ds) := Step(x, ops[n]);
      assert Run(t, ops) == (y, cs + ds);
      hide Run, Step, InStep, BestFor;
      BatchRangeOnce(w, pending, t, x, cs, ops[n], u, s);
    }
  }

  /** One more operation of a batch. */
  lemma BatchRangeOnce(w: Option<Range>, pending: seq<Event>, t: Table, x: Table, cs: seq<RouteChange>, op: Op, u: Table, s: U16)
    requires Inv(x) && OpOk(op) && !op.OpZones? && (ZonesComplete(u, s) ==> ZonesComplete(t, s))
    requires OneEach(QueuedAll(pending, cs, u)) && RangeAgrees(w, PendingAt(pending, s), ExportedRange(t, s))
    requires ChangeAt(cs, s).Some? ==> RangeAgrees(w, PendingAt(QueuedAll(pending, cs, u), s),
                                                   RangeWorth(BestFor(x, s), ZonesComplete(u, s)))
    requires ChangeAt(cs, s).None? ==>
               && PendingAt(QueuedAll(pending, cs, u), s) == PendingAt(pending, s)
               && SameRange(BestFor(t, s), BestFor(x, s)) && !Changed(BestFor(t, s), BestFor(x, s))
    ensures var (y, ds) := Step(x, op);
            && (ChangeAt(cs + ds, s).Some? ==> RangeAgrees(w, PendingAt(QueuedAll(pending, cs + ds, u), s),
                                                           RangeWorth(BestFor(y, s), ZonesComplete(u, s))))
            && (ChangeAt(cs + ds, s).None? ==> SameRange(BestFor(t, s), BestFor(y, s)))
  {
    var (y, ds) := Step(x, op);
    StepKeepsInv(x, op);
    OpKeepsRange(x, op, s);
    forall k | 0 <= k < |ds| ensures StartsThere(ds[k].before, ds[k].range.lo) && StartsThere(ds[k].after, ds[k].range.lo) {
      ChangesStartThere(x, y, ds, k);
    }
    var p := QueuedAll(pending, cs, u);
    QueuedAllConcat(pending, cs, ds, u);
    QueuedAllAt(p, ds, u, s);
    ChangeAtConcat(cs, ds, s);
    ChangeAtIn(ds, s);
    assert FollowsAt(x, y, ds, s);
    hide Step, BestFor, Follows, QueuedAll, ChangeAt, Inv, OneEach, EventFor, FindStart, RangeAgrees, ZonesComplete;
    if ChangeAt(ds, s).Some? {
      var complete := if ChangeAt(cs, s).Some? then ZonesComplete(u, s) else ZonesComplete(t, s);
      assert RangeAgrees(w, PendingAt(p, s), RangeWorth(BestFor(x, s), complete));
      OneChangeRange(w, PendingAt(p, s), u, ChangeAt(ds, s).value, complete);
    } else {
      assert !Changed(BestFor(x, s), BestFor(y, s)) && SameRange(BestFor(x, s), BestFor(y, s));
    }
  }

  /** Any batch of operations, its changes queued together, keeps told and exported range
      agreeing. */
  lemma RouteOpsKeepRange(w: Option<Range>, v: View, pending: seq<Event>, t: Table, ops: seq<Op>, s: U16)
    requires Inv(t) && RouteOps(ops) && InStep(v, pending, t) && RangeAgrees(w, PendingAt(pending, s), ExportedRange(t, s))
    ensures var (u, cs) := Run(t, ops);
            RangeAgrees(w, PendingAt(QueuedAll(pending, cs, u), s), ExportedRange(u, s))
  {
    var (u, cs) := Run(t, ops);
    BatchZones(t, ops, s);
    BatchAt(v, pending, t, ops, u, s);
    BatchRange(w, v, pending, t, ops, u, s);
    hide Run, QueuedAll, BestFor, ChangeAt, Inv, InStep, RangeAgrees, ZonesComplete, FindStart;
  }

  // ------------------------------------------------------------- zone lists

  lemma ZonesKeepRange(w: Option<Range>, pending: seq<Event>, t: Table, o: Op, s: U16)
    requires Inv(t) && o.OpZones? && !Unfinishes(t, o.start, o.names, o.expected)
    requires OneEach(pending) && RangeAgrees(w, PendingAt(pending, s), ExportedRange(t, s))
    ensures var (u, cs) := Step(t, o);
            RangeAgrees(w, PendingAt(QueuedAll(pending, cs, u), s), ExportedRange(u, s))
  {
    hide AddZones, QueuedAll, Inv, FindStart, BestFor, OneEach, Unfinishes, ZonesComplete;
    var (u, cs) := AddZones(t, o.start, o.names, o.expected);
    ZonesAt(t, o.start, o.names, o.expected, s);
    QueuedAllAt(pending, cs, u, s);
    ChangeAtIn(cs, s);
    if s != o.start { assert ExportedRange(u, s) == ExportedRange(t, s) by { SameExportedRange(t, u, s); } }
  }

  lemma SameExportedRange(t: Table, u: Table, s: U16)
    requires BestFor(t, s) == BestFor(u, s) && Get(t.zones, s) == Get(u.zones, s)
    ensures ExportedRange(t, s) == ExportedRange(u, s)
  {
  }

  lemma {:induction false} ZoneOpsKeepRange(w: Option<Range>, v: View, pending: seq<Event>, t: Table, ops: seq<Op>, s: U16)
    requires Inv(t) && ZoneOps(t, ops) && InStep(v, pending, t) && RangeAgrees(w, PendingAt(pending, s), ExportedRange(t, s))
    ensures var (u, cs) := Run(t, ops);
            RangeAgrees(w, PendingAt(QueuedAll(pending, cs, u), s), ExportedRange(u, s))
  {
    if ops != [] {
      var n := |ops| - 1;
      var first, o := ops[..n], ops[n];
      ZoneOpsPrefix(t, ops);
      ZoneOpsKeepRange(w, v, pending, t, first, s);
      ZoneOpsKeepStep(v, pending, t, first);
      ZoneOpsFrame(t, first, o.start);
      ZoneRunSnoc(t, ops);
      hide Run, AddZones, Inv, BestFor, Unfinishes, Names, ZoneOps, AboutNamed, ChangesOk, QueuedAll, RangeAgrees, ExportedRange;
      var (u, cs) := Run(t, first);
      var (x, ds) := Step(u, o);
      UnfinishesAlike(t, u, o.start, o.names, o.expected);
      assert OneEach(QueuedAll(pending, cs, u));
      ZonesKeepRange(w, QueuedAll(pending, cs, u), u, o, s);
      LaterListSameEvents(pending, cs, first, u, o);
      QueuedAllConcat(pending, cs, ds, x);
    }
  }

  // ------------------------------------------------------------- a whole export

  lemma {:induction false} RangeAfterAll(ts: seq<NetworkTuple>, s: U16, w: Option<Range>, x: NetworkTuple)
    requires forall i, j :: 0 <= i < j < |ts| ==> ts[i].range.lo != ts[j].range.lo
    requires x in ts && x.range.lo == s && x.distance < 15
    ensures RangeAfterTuples(w, ts, s) == Some(x.range)
  {
    var n := |ts| - 1;
    if ts[n] != x {
      var i :| 0 <= i < |ts| && ts[i] == x;
      assert ts[..n][i] == x;
      RangeAfterAll(ts[..n], s, w, x);
    }
  }

  lemma {:induction false} RangeUntouched(ts: seq<NetworkTuple>, s: U16, w: Option<Range>)
    requires forall i :: 0 <= i < |ts| ==> ts[i].range.lo != s
    ensures RangeAfterTuples(w, ts, s) == w
  {
    if ts != [] { RangeUntouched(ts[..|ts| - 1], s, w); }
  }

  /** Hearing a whole export gives every exported network its range, and no other one. */
  lemma ExportGivesRanges(t: Table, s: U16)
    ensures RangeAfterTuples(None, Export(t), s) == ExportedRange(t, s)
  {
    ExportIsExact(t);
    assert Exportable(t, s) <==> MayLearn(t, s);
    BestStartsThere(t, s);
    var out := Export(t);
    hide Export, BestFor, ShortestUsable, Exportable;
    if MayLearn(t, s) {
      var i :| 0 <= i < |out| && out[i].range.lo == s;
      RangeAfterAll(out, s, None, out[i]);
    } else {
      forall i | 0 <= i < |out| ensures out[i].range.lo != s { assert MayLearn(t, out[i].range.lo); }
      RangeUntouched(out, s, None);
    }
  }
}
