/** What the table operations do, said from outside: which routes are there after a
    tuple, a tick or a removal; how exactly a route grows old; and what an export and a
    beacon say of each network. */
module TableMeaning {
  import opened Wire
  import opened Table
  import opened TableTheorems

  // ------------------------------------------------------------- learning

  ghost predicate ShareANetwork(a: Range, b: Range) { exists n: U16 :: a.Contains(n) && b.Contains(n) }

  lemma OverlapIsSharing(a: Range, b: Range)
    requires a.WellFormed() && b.WellFormed()
    ensures a.Overlaps(b) <==> ShareANetwork(a, b)
  {
    if a.Overlaps(b) {
      var n := if a.lo <= b.lo then b.lo else a.lo;
      assert a.Contains(n) && b.Contains(n);
    }
  }

  /** A route that a tuple for `range` may not come beside: another range with a network
      in common, or the same range on a cable of our own. */
  ghost predicate Forbids(r: Route, range: Range) {
    if r.range == range then r.distance == 0 && r.target.Port? else ShareANetwork(r.range, range)
  }

  ghost predicate Forbidden(rs: seq<Route>, range: Range) { exists r :: r in rs && Forbids(r, range) }

  lemma ForbiddenIsBlocked(rs: seq<Route>, range: Range)
    requires RoutesOk(rs) && range.WellFormed()
    ensures Forbidden(rs, range) <==> Blocked(rs, range)
  {
    forall r | r in rs ensures Forbids(r, range) <==> Blocks(r, range) { OverlapIsSharing(r.range, range); }
    if Forbidden(rs, range) {
      var r :| r in rs && Forbids(r, range);
      var i :| 0 <= i < |rs| && rs[i] == r;
      assert Blocks(rs[i], range);
    }
    if Blocked(rs, range) {
      var i :| 0 <= i < |rs| && Blocks(rs[i], range);
      assert Forbids(rs[i], range);
    }
  }

  /** What a tuple makes of the route it is about, if it was held: 31 condemns it where
      it stands, 15 to 30 and anything past 31 deletes it, less replaces it. */
  function Heard(x: NetworkTuple, target: Target, next: Addr, was: Option<Route>, now: Time): Option<Route> {
    if x.distance == 31 then
      match was
      case None => None
      case Some(r) => Some(Route(r.range, x.extended, r.distance, r.target, r.next, Bad, now))
    else if x.distance >= 15 then None
    else Some(Route(x.range, x.extended, x.distance + 1, target, next, Good, now))
  }

  lemma {:induction false} FoundOrNot(rs: seq<Route>, range: Range, target: Target, next: Addr)
    requires RoutesOk(rs)
    ensures match Position(rs, range, target, next)
            case None => forall r :: r in rs ==> !r.Is(range, target, next)
            case Some(i) => i < |rs| && forall r :: r in rs && r.Is(range, target, next) ==> r == rs[i]
  {
    var p := Position(rs, range, target, next);
    if p.Some? {
      forall r | r in rs && r.Is(range, target, next) ensures r == rs[p.value] {
        SameStartSameRange(rs, r, rs[p.value]);
      }
    }
  }

  /** A tuple, exactly: dropped when a route forbids it; otherwise the one route of its
      range, target and next router becomes what was heard, and no other route changes. */
  lemma LearnMeaning(rs: seq<Route>, x: NetworkTuple, target: Target, next: Addr, now: Time, was: Option<Route>, y: Route)
    requires RoutesOk(rs)
    requires match was case None => (forall r :: r in rs ==> !r.Is(x.range, target, next))
                       case Some(r) => r in rs && r.Is(x.range, target, next)
    ensures y in LearnRoutes(rs, x, target, next, now) <==>
            if y.Is(x.range, target, next) then Heard(x, target, next, was, now) == Some(y) else y in rs
  {
    FoundOrNot(rs, x.range, target, next);
    hide RoutesOk, Position;
    var out := LearnRoutes(rs, x, target, next, now);
    if y in rs && !y.Is(x.range, target, next) { LearnSparesOthers(rs, x, target, next, now, y); }
    match Position(rs, x.range, target, next)
    case None =>
    case Some(i) =>
      assert was == Some(rs[i]);
      if Unreachable(x) {
        if y in out { TakenOut(rs, i, y); }
      } else {
        assert out[i] == Refreshed(rs[i], x, now);
        if y in out {
          var k :| 0 <= k < |out| && out[k] == y;
          if k != i { assert rs[k] == y; }
        }
      }
  }

  lemma TakenOut(rs: seq<Route>, i: nat, y: Route)
    requires i < |rs| && y in rs[..i] + rs[i + 1..]
    ensures y in rs
  {
  }

  /** So on the whole table. */
  lemma LearnedRoutes(t: Table, x: NetworkTuple, target: Target, next: Addr, now: Time, was: Option<Route>, y: Route)
    requires Inv(t) && x.range.WellFormed()
    requires match was case None => (forall r :: r in t.routes ==> !r.Is(x.range, target, next))
                       case Some(r) => r in t.routes && r.Is(x.range, target, next)
    ensures y in Learn(t, x, target, next, now).0.routes <==>
            if y.Is(x.range, target, next) && !Forbidden(t.routes, x.range) then Heard(x, target, next, was, now) == Some(y)
            else y in t.routes
  {
    ForbiddenIsBlocked(t.routes, x.range);
    StepRoutes(t, OpLearn(x, target, next, now));
    hide Forbidden, Blocked, LearnRoutes, Learn;
    if !Blocked(t.routes, x.range) { LearnMeaning(t.routes, x, target, next, now, was, y); }
  }

  // ------------------------------------------------------------- removing

  lemma SweptMembers(w: Sweep, rs: seq<Route>, y: Route)
    ensures y in SweepAll(w, rs) <==> exists r :: r in rs && SweepOne(w, r) == Some(y)
  {
    SweptComeFrom(w, rs);
    hide SweepOne, SweepAll;
    if y in SweepAll(w, rs) {
      assert ComesFrom(w, rs, y);
      var j :| 0 <= j < |rs| && SweepOne(w, rs[j]) == Some(y);
      assert rs[j] in rs;
    }
    if r :| r in rs && SweepOne(w, r) == Some(y) { SweepKeepsMember(w, rs, r); }
  }

  /** A target that goes takes all its routes and no other. */
  lemma TargetGone(t: Table, target: Target, y: Route)
    ensures y in Swept(t, DropTarget(target)).0.routes <==> y in t.routes && y.target != target
  {
    StepRoutes(t, OpSweep(DropTarget(target)));
    SweptMembers(DropTarget(target), t.routes, y);
  }

  lemma StartGone(t: Table, target: Target, s: U16, y: Route)
    ensures y in Swept(t, DropStart(target, s)).0.routes <==> y in t.routes && !(y.target == target && y.range.lo == s)
  {
    StepRoutes(t, OpSweep(DropStart(target, s)));
    SweptMembers(DropStart(target, s), t.routes, y);
  }

  /** A changed distance: the same routes, and at that start of that target the new
      distance, confirmed now. */
  lemma DistanceSet(t: Table, target: Target, s: U16, d: Byte, now: Time, y: Route)
    ensures var there := (r: Route) => r.target == target && r.range.lo == s;
            y in Swept(t, Distance(target, s, d, now)).0.routes <==>
            if there(y) then y.distance == d && y.seen == now && exists r :: r in t.routes && y == r.(distance := d, seen := now)
            else y in t.routes
  {
    var w := Distance(target, s, d, now);
    StepRoutes(t, OpSweep(w));
    SweptMembers(w, t.routes, y);
  }

  // ------------------------------------------------------------- growing old

  /** How many validity periods of 20 s some ticks found gone, each counted from the one
      before, and when the last was counted. */
  function Periods(seen: Time, ticks: seq<Time>): (nat, Time) {
    if ticks == [] then (0, seen)
    else
      var n := |ticks| - 1;
      var (k, last) := Periods(seen, ticks[..n]);
      if ticks[n] >= last + 20_000 then (k + 1, ticks[n]) else (k, last)
  }

  function StateAt(k: nat): State
    requires k < 4
  {
    if k == 0 then Good else if k == 1 then Suspect else if k == 2 then Bad else Worst
  }

  /** What is left of a route seen good, `k` periods on. */
  function Older(r: Route, p: (nat, Time)): Option<Route> {
    if p.0 < 4 then Some(r.(state := StateAt(p.0), seen := p.1)) else None
  }

  lemma {:induction false} AgesExactly(r: Route, ticks: seq<Time>)
    requires r.state == Good && r.target.Port? && r.distance != 0
    ensures AgeRun(r, ticks) == Older(r, Periods(r.seen, ticks))
  {
    if ticks != [] { AgesExactly(r, ticks[..|ticks| - 1]); }
  }

  ghost predicate ApartAt(from: Time, gap: nat, ticks: seq<Time>, i: nat)
    requires i < |ticks|
  {
    ticks[i] >= (if i == 0 then from else ticks[i - 1]) + gap
  }

  /** Each tick at least `gap` past the one before, the first past `from`. */
  ghost predicate Apart(from: Time, gap: nat, ticks: seq<Time>) {
    forall i :: 0 <= i < |ticks| ==> ApartAt(from, gap, ticks, i)
  }

  lemma ApartPrefix(from: Time, gap: nat, ticks: seq<Time>)
    requires ticks != [] && Apart(from, gap, ticks)
    ensures Apart(from, gap, ticks[..|ticks| - 1])
    ensures ticks[|ticks| - 1] >= (if |ticks| == 1 then from else ticks[|ticks| - 2]) + gap
  {
    var n := |ticks| - 1;
    assert ApartAt(from, gap, ticks, n);
    forall i | 0 <= i < n ensures ApartAt(from, gap, ticks[..n], i) {
      assert ApartAt(from, gap, ticks, i);
    }
  }

  lemma {:induction false} SpacedTicksCount(seen: Time, ticks: seq<Time>)
    requires Apart(seen, 20_000, ticks)
    ensures Periods(seen, ticks) == (|ticks|, if ticks == [] then seen else ticks[|ticks| - 1])
  {
    if ticks != [] {
      ApartPrefix(seen, 20_000, ticks);
      SpacedTicksCount(seen, ticks[..|ticks| - 1]);
      hide Apart;
    }
  }

  /** Nothing confirms this route; it may be removed. */
  ghost predicate Unconfirmed(op: Op, r: Route) {
    match op
    case OpLearn(x, target, next, _) => !r.Is(x.range, target, next)
    case OpSweep(Distance(t, s, _, _)) => r.target != t || r.Start() != s
    case _ => true
  }

  ghost predicate NoneConfirms(ops: seq<Op>, r: Route) { forall i :: 0 <= i < |ops| ==> Unconfirmed(ops[i], r) }

  lemma {:induction false} TicksSnoc(ops: seq<Op>)
    requires ops != []
    ensures var o := ops[|ops| - 1];
            TicksOf(ops) == TicksOf(ops[..|ops| - 1]) + if o.OpSweep? && o.sweep.Aging? then [o.sweep.now] else []
  {
  }

  /** Any route like this one, at any time, is this one, as old as the ticks say. */
  ghost predicate OnlyOlder(rs: seq<Route>, r: Route, p: (nat, Time)) {
    forall x :: x in rs && x.Is(r.range, r.target, r.next) ==> Older(r, p) == Some(x)
  }

  lemma PeriodsSnoc(seen: Time, ticks: seq<Time>, now: Time)
    ensures Periods(seen, ticks + [now]) ==
            (var (k, last) := Periods(seen, ticks); if now >= last + 20_000 then (k + 1, now) else (k, last))
  {
    assert (ticks + [now])[..|ticks|] == ticks;
  }

  lemma OlderOnce(r: Route, p: (nat, Time), x: Route, now: Time)
    requires r.state == Good && r.target.Port? && r.distance != 0 && Older(r, p) == Some(x)
    ensures AgeRoute(x, now) == Older(r, if now >= p.1 + 20_000 then (p.0 + 1, now) else p)
  {
  }

  lemma TickAges(rs: seq<Route>, now: Time, r: Route, p: (nat, Time))
    requires r.state == Good && r.target.Port? && r.distance != 0 && OnlyOlder(rs, r, p)
    ensures OnlyOlder(SweepAll(Aging(now), rs), r, if now >= p.1 + 20_000 then (p.0 + 1, now) else p)
  {
    hide SweepAll, Older, AgeRoute;
    var out := SweepAll(Aging(now), rs);
    forall y | y in out && y.Is(r.range, r.target, r.next)
      ensures Older(r, if now >= p.1 + 20_000 then (p.0 + 1, now) else p) == Some(y)
    {
      SweptMembers(Aging(now), rs, y);
      var x :| x in rs && SweepOne(Aging(now), x) == Some(y);
      AgedIdentity(x, now);
      OlderOnce(r, p, x, now);
    }
  }

  lemma AgedIdentity(x: Route, now: Time)
    ensures AgeRoute(x, now).Some? ==> AgeRoute(x, now).value.Is(x.range, x.target, x.next)
  {
  }

  lemma SweepLeavesIt(rs: seq<Route>, w: Sweep, r: Route, p: (nat, Time))
    requires !w.Aging? && Unconfirmed(OpSweep(w), r) && OnlyOlder(rs, r, p)
    ensures OnlyOlder(SweepAll(w, rs), r, p)
  {
    hide SweepAll, Older;
    var out := SweepAll(w, rs);
    forall y | y in out && y.Is(r.range, r.target, r.next) ensures Older(r, p) == Some(y) {
      SweptMembers(w, rs, y);
      var x :| x in rs && SweepOne(w, x) == Some(y);
    }
  }

  lemma LearnLeavesIt(rs: seq<Route>, x: NetworkTuple, target: Target, next: Addr, now: Time, r: Route, p: (nat, Time))
    requires !r.Is(x.range, target, next) && OnlyOlder(rs, r, p)
    ensures OnlyOlder(LearnRoutes(rs, x, target, next, now), r, p)
  {
    hide Older;
    var out := LearnRoutes(rs, x, target, next, now);
    forall y | y in out && y.Is(r.range, r.target, r.next) ensures y in rs {}
  }

  lemma StepAges(t: Table, op: Op, r: Route, ticks: seq<Time>)
    requires r.state == Good && r.target.Port? && r.distance != 0 && Unconfirmed(op, r)
    requires OnlyOlder(t.routes, r, Periods(r.seen, ticks))
    ensures var more := if op.OpSweep? && op.sweep.Aging? then [op.sweep.now] else [];
            OnlyOlder(Step(t, op).0.routes, r, Periods(r.seen, ticks + more))
  {
    StepRoutes(t, op);
    hide Step, SweepAll, LearnRoutes, Blocked, Periods, OnlyOlder;
    var p := Periods(r.seen, ticks);
    assert ticks + [] == ticks;
    match op
    case OpLearn(x, target, next, now) =>
      if !Blocked(t.routes, x.range) { LearnLeavesIt(t.routes, x, target, next, now, r, p); }
    case OpSweep(w) =>
      if w.Aging? {
        PeriodsSnoc(r.seen, ticks, w.now);
        TickAges(t.routes, w.now, r, p);
      } else {
        SweepLeavesIt(t.routes, w, r, p);
      }
    case OpZones(_, _, _) =>
  }

  /** Old routes age exactly: over any run of operations of which none confirms it, a
      route that was good is, if it is there at all, as many levels down as validity
      periods went by; after four it is gone; and it goes sooner only by being removed. */
  lemma {:induction false} AgingIsExact(t: Table, ops: seq<Op>, r: Route)
    requires RoutesOk(t.routes) && r in t.routes && r.state == Good && r.target.Port? && r.distance != 0
    requires NoneConfirms(ops, r)
    ensures var p := Periods(r.seen, TicksOf(ops));
            && OnlyOlder(Run(t, ops).0.routes, r, p)
            && ((forall i :: 0 <= i < |ops| ==> Spares(ops[i], r)) && p.0 < 4 ==> Older(r, p).value in Run(t, ops).0.routes)
  {
    if ops == [] {
      forall x | x in t.routes && x.Is(r.range, r.target, r.next) ensures x == r { SameStartSameRange(t.routes, x, r); }
    } else {
      var n := |ops| - 1;
      AgingIsExact(t, ops[..n], r);
      TicksSnoc(ops);
      hide Step, Older, Periods, OnlyOlder;
      StepAges(Run(t, ops[..n]).0, ops[n], r, TicksOf(ops[..n]));
    }
    if forall i :: 0 <= i < |ops| ==> Spares(ops[i], r) {
      AgesExactly(r, TicksOf(ops));
      hide Step;
      if Older(r, Periods(r.seen, TicksOf(ops))).Some? { RouteInRun(t, ops, r); }
    }
  }

  /** Tick by tick: left alone, it stands one level lower after each validity period. */
  lemma OneLevelATick(t: Table, ops: seq<Op>, r: Route)
    requires RoutesOk(t.routes) && r in t.routes && r.state == Good && r.target.Port? && r.distance != 0
    requires forall i :: 0 <= i < |ops| ==> Spares(ops[i], r)
    requires Apart(r.seen, 20_000, TicksOf(ops)) && 0 < |TicksOf(ops)| < 4
    ensures var ticks := TicksOf(ops);
            r.(state := StateAt(|ticks|), seen := ticks[|ticks| - 1]) in Run(t, ops).0.routes
  {
    assert NoneConfirms(ops, r) by {
      forall i | 0 <= i < |ops| ensures Unconfirmed(ops[i], r) { assert Spares(ops[i], r); }
    }
    AgingIsExact(t, ops, r);
    SpacedTicksCount(r.seen, TicksOf(ops));
  }

  /** After two periods unconfirmed a route is never chosen, by start or by number;
      after four it is not there. */
  lemma UnconfirmedIsNotUsed(t: Table, ops: seq<Op>, r: Route, q: U16)
    requires RoutesOk(t.routes) && r in t.routes && r.state == Good && r.target.Port? && r.distance != 0
    requires NoneConfirms(ops, r) && Apart(r.seen, 20_000, TicksOf(ops)) && |TicksOf(ops)| >= 2
    ensures var u := Run(t, ops).0;
            && (BestFor(u, q).Some? ==> !BestFor(u, q).value.Is(r.range, r.target, r.next))
            && (BestForNet(u, q).Some? ==> !BestForNet(u, q).value.Is(r.range, r.target, r.next))
            && (|TicksOf(ops)| >= 4 ==> forall x :: x in u.routes ==> !x.Is(r.range, r.target, r.next))
  {
    AgingIsExact(t, ops, r);
    SpacedTicksCount(r.seen, TicksOf(ops));
    hide Run, Periods, TicksOf, Pick;
    var u := Run(t, ops).0;
    PickBounds(u.routes, u.best, ByStart(q));
    PickBounds(u.routes, u.best, ByNet(q));
  }

  // ------------------------------------------------------------- the export

  /** A shortest usable route of its start. */
  ghost predicate ShortestUsable(rs: seq<Route>, r: Route) {
    && r in rs && (r.state == Good || r.state == Suspect)
    && forall q :: q in rs && (q.state == Good || q.state == Suspect) && q.range.lo == r.range.lo ==> r.distance <= q.distance
  }

  lemma BestIsShortest(t: Table, s: U16)
    ensures BestFor(t, s).Some? ==> ShortestUsable(t.routes, BestFor(t, s).value) && BestFor(t, s).value.range.lo == s
    ensures BestFor(t, s).None? ==> forall q :: q in t.routes && q.range.lo == s ==> q.state == Bad || q.state == Worst
  {
    PickBounds(t.routes, t.best, ByStart(s));
    hide Pick;
    if BestFor(t, s).Some? {
      var r := BestFor(t, s).value;
      forall q | q in t.routes && (q.state == Good || q.state == Suspect) && q.range.lo == s ensures r.distance <= q.distance {
        var i :| 0 <= i < |t.routes| && t.routes[i] == q;
        assert Eligible(t.routes[i], ByStart(s));
      }
    } else {
      forall q | q in t.routes && q.range.lo == s ensures q.state == Bad || q.state == Worst {
        var i :| 0 <= i < |t.routes| && t.routes[i] == q;
        assert !Eligible(t.routes[i], ByStart(s));
      }
    }
  }

  /** A start a peer may learn: its best route runs over a cable, in fewer than 15 hops,
      and its zone list has names, as many as were announced. */
  ghost predicate MayLearn(t: Table, s: U16) {
    var b := BestFor(t, s);
    && b.Some? && b.value.target.Port? && b.value.distance < 15
    && s in t.zones && t.zones[s].1.names != []
    && (t.zones[s].1.expected.Some? ==> |t.zones[s].1.names| >= t.zones[s].1.expected.value)
  }

  function Whole(r: Route): NetworkTuple { NetworkTuple(r.range, r.extended, r.distance) }

  /** Tuples about exactly the starts of `starts` that may be learned, in their order. */
  ghost predicate Exports(t: Table, starts: seq<U16>, out: seq<NetworkTuple>) {
    && (forall i :: 0 <= i < |out| ==> MayLearn(t, out[i].range.lo) && out[i] == Whole(BestFor(t, out[i].range.lo).value))
    && (forall i :: 0 <= i < |out| ==> out[i].range.lo in starts)
    && (forall s :: s in starts && MayLearn(t, s) ==> exists i :: 0 <= i < |out| && out[i].range.lo == s)
    && (forall i, j :: 0 <= i < j < |out| ==> out[i].range.lo != out[j].range.lo)
  }

  lemma ExportsNone(t: Table, starts: seq<U16>, s: U16, out: seq<NetworkTuple>)
    requires Exports(t, starts, out) && !MayLearn(t, s)
    ensures Exports(t, starts + [s], out)
  {
    hide MayLearn, BestFor;
    forall z | z in starts + [s] && MayLearn(t, z) ensures exists i :: 0 <= i < |out| && out[i].range.lo == z {
      assert z in starts;
    }
  }

  lemma ExportsOneMore(t: Table, starts: seq<U16>, s: U16, out: seq<NetworkTuple>)
    requires Exports(t, starts, out) && MayLearn(t, s) && s !in starts
    requires BestFor(t, s).Some? && BestFor(t, s).value.range.lo == s
    ensures Exports(t, starts + [s], out + [Whole(BestFor(t, s).value)])
  {
    hide MayLearn, BestFor;
    var more := out + [Whole(BestFor(t, s).value)];
    forall z | z in starts + [s] && MayLearn(t, z) ensures exists i :: 0 <= i < |more| && more[i].range.lo == z {
      if z == s {
        assert more[|out|].range.lo == s;
      } else {
        var i :| 0 <= i < |out| && out[i].range.lo == z;
        assert more[i].range.lo == z;
      }
    }
  }

  lemma {:induction false} ExportOfIsExact(t: Table, starts: seq<U16>)
    requires Distinct(starts)
    ensures Exports(t, starts, ExportOf(t, starts))
  {
    if starts != [] {
      var n := |starts| - 1;
      ExportOfIsExact(t, starts[..n]);
      BestIsShortest(t, starts[n]);
      assert starts == starts[..n] + [starts[n]];
      assert starts[n] !in starts[..n];
      assert Exportable(t, starts[n]) <==> MayLearn(t, starts[n]);
      hide Exports, MayLearn, Exportable, BestFor;
      if Exportable(t, starts[n]) {
        ExportsOneMore(t, starts[..n], starts[n], ExportOf(t, starts[..n]));
      } else {
        ExportsNone(t, starts[..n], starts[n], ExportOf(t, starts[..n]));
      }
    }
  }

  lemma MayLearnHasStart(t: Table, s: U16)
    requires MayLearn(t, s)
    ensures s in Starts(t.routes)
  {
    BestStartsThere(t, s);
    StartsMeaning(t.routes);
    PickBounds(t.routes, t.best, ByStart(s));
    AtMeaning(t.routes, s);
  }

  /** The export, exactly: one tuple for each start a peer may learn, and each tuple the
      whole range, the extended flag and the distance of a shortest usable route. */
  lemma ExportIsExact(t: Table)
    ensures forall i :: 0 <= i < |Export(t)| ==>
              && MayLearn(t, Export(t)[i].range.lo)
              && Export(t)[i] == Whole(BestFor(t, Export(t)[i].range.lo).value)
              && ShortestUsable(t.routes, BestFor(t, Export(t)[i].range.lo).value)
    ensures forall s: U16 :: MayLearn(t, s) ==> exists i :: 0 <= i < |Export(t)| && Export(t)[i].range.lo == s
    ensures forall i, j :: 0 <= i < j < |Export(t)| ==> Export(t)[i].range.lo != Export(t)[j].range.lo
  {
    StartsMeaning(t.routes);
    ExportOfIsExact(t, Starts(t.routes));
    var out := Export(t);
    assert Exports(t, Starts(t.routes), out);
    hide BestFor, ShortestUsable, Starts, ExportOf, Export;
    forall i | 0 <= i < |out| ensures ShortestUsable(t.routes, BestFor(t, out[i].range.lo).value) {
      assert MayLearn(t, out[i].range.lo);
      BestIsShortest(t, out[i].range.lo);
    }
    forall s: U16 | MayLearn(t, s) ensures exists i :: 0 <= i < |Export(t)| && Export(t)[i].range.lo == s {
      MayLearnHasStart(t, s);
    }
  }

  // ------------------------------------------------------------- beacons

  /** What a cable is told of one start: the whole range and the extended flag of its best
      route, at its distance; or, when only unusable routes are left, of the first of
      them, at 31; nothing back the way it is reached, nor from 15 hops on. */
  lemma AnnouncedIsExact(t: Table, s: U16, port: nat, x: NetworkTuple)
    requires RoutesOk(t.routes)
    ensures Announced(t, s, port) == Some(x) <==>
            match BestFor(t, s)
            case Some(r) => r.target != Port(port) && r.distance < 15 && x == Whole(r)
            case None =>
              At(t.routes, s) != [] &&
              var r := At(t.routes, s)[0];
              r.target != Port(port) && x == NetworkTuple(r.range, r.extended, 31)
  {
    BestIsShortest(t, s);
    AtMeaning(t.routes, s);
    hide Pick, At, RoutesOk;
    if BestFor(t, s).None? && At(t.routes, s) != [] {
      assert At(t.routes, s)[0] in t.routes;
    }
  }

  /** Each start at most once in a beacon. */
  lemma {:induction false} BeaconNamesOnce(t: Table, starts: seq<U16>, port: nat)
    requires Distinct(starts)
    ensures var out := BeaconOf(t, starts, port);
            && (forall i :: 0 <= i < |out| ==>
                  out[i].range.lo in starts && Announced(t, out[i].range.lo, port) == Some(out[i]))
            && (forall s :: s in starts && Announced(t, s, port).Some? ==> Announced(t, s, port).value in out)
            && (forall i, j :: 0 <= i < j < |out| ==> out[i].range.lo != out[j].range.lo)
  {
    if starts != [] {
      var n := |starts| - 1;
      BeaconNamesOnce(t, starts[..n], port);
      AnnouncedMeaning(t, starts[n], port);
      hide Announced;
      assert starts == starts[..n] + [starts[n]];
      assert starts[n] !in starts[..n];
    }
  }

  /** A beacon, exactly: one tuple for each start there is something to say about. */
  lemma BeaconIsExact(t: Table, port: nat, x: NetworkTuple)
    ensures x in Beacon(t, port) <==> x.range.lo in Starts(t.routes) && Announced(t, x.range.lo, port) == Some(x)
    ensures forall i, j :: 0 <= i < j < |Beacon(t, port)| ==> Beacon(t, port)[i].range.lo != Beacon(t, port)[j].range.lo
  {
    StartsMeaning(t.routes);
    BeaconNamesOnce(t, Starts(t.routes), port);
    hide Announced, Starts, BeaconOf;
  }
}
