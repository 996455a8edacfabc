/** A receiver's real table against what it was told: the routes it holds through
    one peer are exactly that peer's networks, each one tunnel hop further. */
module TunnelView {
  import opened Wire
  import opened Table
  import opened TableTheorems
  import opened Aurp
  import opened ExportSync

  /** The routes through `target` that start at `s`: none, or one at distance `d`. */
  ghost predicate ViaIs(rs: seq<Route>, target: Target, s: U16, d: Option<nat>) {
    if d.None? then forall i :: 0 <= i < |rs| ==> !(rs[i].target == target && rs[i].Start() == s)
    else
      && (exists i :: 0 <= i < |rs| && rs[i].target == target && rs[i].Start() == s)
      && (forall i :: 0 <= i < |rs| && rs[i].target == target && rs[i].Start() == s ==> rs[i].distance == d.value)
  }

  function OneMore(d: Option<Byte>): Option<nat> {
    match d case None => None case Some(x) => Some(x + 1)
  }

  /** The table holds through `ip` just what `v` says its sender exports. */
  ghost predicate Mirrors(t: Table, ip: nat, v: View) {
    forall s: U16 :: ViaIs(t.routes, Peer(ip), s, OneMore(Get(v, s)))
  }

  /** A receiver's table: the invariant, and tunnel routes as the tunnel makes them. */
  ghost predicate Sound(t: Table) { Inv(t) && TunnelsOk(t.routes) }

  // ------------------------------------------------------------- one route list

  lemma LearnVia(rs: seq<Route>, x: NetworkTuple, target: Target, now: Time, s: U16, d: Option<nat>)
    requires RoutesOk(rs) && TunnelsOk(rs) && target.Peer? && x.distance < MAX_HOPS
    requires x.range.WellFormed() && !Blocked(rs, x.range)
    requires ViaIs(rs, target, s, d)
    ensures ViaIs(LearnRoutes(rs, x, target, NO_NEXT, now), target, s,
                  if s == x.range.lo then Some(x.distance + 1) else d)
  {
    var out := LearnRoutes(rs, x, target, NO_NEXT, now);
    LearnKeepsRoutesOk(rs, x, target, NO_NEXT, now);
    LearnKeepsTunnels(rs, x, target, NO_NEXT, now);
    var p := Position(rs, x.range, target, NO_NEXT);
    var k := if p.Some? then p.value else |rs|;
    assert out[k].Is(x.range, target, NO_NEXT) && out[k].distance == x.distance + 1;
    if s == x.range.lo {
      forall i | 0 <= i < |out| && out[i].target == target && out[i].Start() == s ensures out[i] == out[k] {
        SameStartSameRange(out, out[i], out[k]);
      }
    } else if d.Some? {
      var i :| 0 <= i < |rs| && rs[i].target == target && rs[i].Start() == s;
      assert out[i] == rs[i];
    }
  }

  lemma {:induction false} SweepVia(w: Sweep, rs: seq<Route>, target: Target, s: U16, d: Option<nat>, d': Option<nat>)
    requires ViaIs(rs, target, s, d)
    requires forall i :: 0 <= i < |rs| && rs[i].target == target && rs[i].Start() == s ==>
               match SweepOne(w, rs[i])
               case None => d' == None
               case Some(r) => d' == Some(r.distance as nat)
    requires d.None? ==> d'.None?
    ensures ViaIs(SweepAll(w, rs), target, s, d')
  {
    SweptComeFrom(w, rs);
    var out := SweepAll(w, rs);
    forall i | 0 <= i < |out| && out[i].target == target && out[i].Start() == s ensures d' == Some(out[i].distance as nat) {
      assert out[i] in out;
      var j :| 0 <= j < |rs| && SweepOne(w, rs[j]) == Some(out[i]);
    }
    if d'.Some? {
      var i :| 0 <= i < |rs| && rs[i].target == target && rs[i].Start() == s;
      SweepKeepsMember(w, rs, rs[i]);
      var r := SweepOne(w, rs[i]).value;
      var k :| 0 <= k < |out| && out[k] == r;
    }
  }

  // ------------------------------------------------------------- one event

  /** An event that would have to create or refresh a route. */
  predicate Adds(v: View, e: Event) {
    e.tuple.distance < MAX_HOPS && (e.code == NA || (e.code == NDC && e.Start() !in v))
  }

  /** The table has room for the event: nothing in it blocks the range. */
  predicate Clear(t: Table, v: View, e: Event) {
    Adds(v, e) ==> e.tuple.range.WellFormed() && !Blocked(t.routes, e.tuple.range)
  }

  lemma KnownIsHeld(t: Table, ip: nat, v: View, s: U16)
    requires Mirrors(t, ip, v)
    ensures HasVia(t.routes, Peer(ip), s) <==> s in v
  {
    assert ViaIs(t.routes, Peer(ip), s, OneMore(Get(v, s)));
  }

  lemma LearnMirrors(t: Table, ip: nat, v: View, x: NetworkTuple, now: Time)
    requires Sound(t) && Mirrors(t, ip, v) && x.distance < MAX_HOPS
    requires x.range.WellFormed() && !Blocked(t.routes, x.range)
    ensures var u := Learn(t, x, Peer(ip), NO_NEXT, now).0;
            Sound(u) && Mirrors(u, ip, v[x.range.lo := x.distance])
  {
    var op := OpLearn(x, Peer(ip), NO_NEXT, now);
    StepKeepsInv(t, op);
    StepKeepsTunnels(t, op);
    StepRoutes(t, op);
    var u, v' := Learn(t, x, Peer(ip), NO_NEXT, now).0, v[x.range.lo := x.distance];
    forall s: U16 ensures ViaIs(u.routes, Peer(ip), s, OneMore(Get(v', s))) {
      LearnVia(t.routes, x, Peer(ip), now, s, OneMore(Get(v, s)));
    }
  }

  lemma DropMirrors(t: Table, ip: nat, v: View, s: U16)
    requires Sound(t) && Mirrors(t, ip, v)
    ensures var u := Swept(t, DropStart(Peer(ip), s)).0; Sound(u) && Mirrors(u, ip, v - {s})
  {
    var w := DropStart(Peer(ip), s);
    SweepIsSound(t, w);
    var u, v' := Swept(t, w).0, v - {s};
    forall z: U16 ensures ViaIs(u.routes, Peer(ip), z, OneMore(Get(v', z))) {
      assert ViaIs(t.routes, Peer(ip), z, OneMore(Get(v, z)));
      SweepVia(w, t.routes, Peer(ip), z, OneMore(Get(v, z)), OneMore(Get(v', z)));
    }
  }

  lemma DistanceMirrors(t: Table, ip: nat, v: View, s: U16, d: Byte, now: Time)
    requires Sound(t) && Mirrors(t, ip, v) && d < MAX_HOPS && s in v
    ensures var u := Swept(t, Distance(Peer(ip), s, d + 1, now)).0; Sound(u) && Mirrors(u, ip, v[s := d])
  {
    var w := Distance(Peer(ip), s, d + 1, now);
    SweepIsSound(t, w);
    var u, v' := Swept(t, w).0, v[s := d];
    forall z: U16 ensures ViaIs(u.routes, Peer(ip), z, OneMore(Get(v', z))) {
      assert ViaIs(t.routes, Peer(ip), z, OneMore(Get(v, z)));
      SweepVia(w, t.routes, Peer(ip), z, OneMore(Get(v, z)), OneMore(Get(v', z)));
    }
  }

  lemma SweepIsSound(t: Table, w: Sweep)
    requires Sound(t) && TunnelOpOk(OpSweep(w)) && SweepOk(w)
    ensures var u := Swept(t, w).0; Sound(u) && u.routes == SweepAll(w, t.routes)
  {
    var op := OpSweep(w);
    StepKeepsInv(t, op);
    StepKeepsTunnels(t, op);
    StepRoutes(t, op);
  }

  /** Applying an event to the table does to the routes through the peer what the
      receiver's rules do to the view, when the table has room for it. */
  lemma ApplyMirrors(t: Table, ip: nat, v: View, e: Event, now: Time)
    requires Sound(t) && Mirrors(t, ip, v) && Clear(t, v, e)
    ensures var u := Apply(t, ip, e, now).0; Sound(u) && Mirrors(u, ip, HearEvent(v, e))
  {
    hide Learn, Swept, Sound, Mirrors, HasVia;
    var s, d := e.Start(), e.tuple.distance;
    KnownIsHeld(t, ip, v, s);
    if Adds(v, e) {
      LearnMirrors(t, ip, v, e.tuple, now);
    } else if e.code == ND || e.code == NRC || (e.code == NDC && d >= MAX_HOPS) {
      DropMirrors(t, ip, v, s);
    } else if e.code == NDC {
      DistanceMirrors(t, ip, v, s, d, now);
    }
  }

  /** A network the table has no room for is not learned, and only then does the
      table fall behind on a network it did not hold. */
  lemma BlockedIsLost(t: Table, ip: nat, v: View, e: Event, now: Time)
    requires Sound(t) && Mirrors(t, ip, v) && e.tuple.range.WellFormed()
    requires Adds(v, e) && e.Start() !in v
    ensures Mirrors(Apply(t, ip, e, now).0, ip, HearEvent(v, e)) <==> !Blocked(t.routes, e.tuple.range)
  {
    var s := e.Start();
    KnownIsHeld(t, ip, v, s);
    if Blocked(t.routes, e.tuple.range) {
      assert Apply(t, ip, e, now).0 == t;
      assert ViaIs(t.routes, Peer(ip), s, None);
      assert Get(HearEvent(v, e), s).Some?;
    } else {
      ApplyMirrors(t, ip, v, e, now);
    }
  }

  lemma EmptyIsSound()
    ensures Inv(EMPTY)
  {
  }

  const CABLE := Route(Range(1, 5), true, 0, Port(0), NO_NEXT, Good, 0)

  lemma OneCable(zone: Name)
    ensures var t := AddPort(EMPTY, 0, Range(1, 5), true, [zone], 0); Inv(t) && t.routes == [CABLE]
  {
    EmptyIsSound();
    hide Inv, BestFor;
    PortKeepsInv(EMPTY, 0, Range(1, 5), true, [zone], 0);
  }

  /** A table whose one route is a port's holds nothing through any tunnel. */
  lemma OneCableMirrorsNothing(t: Table, r: Route, ip: nat)
    requires Inv(t) && t.routes == [r] && r.target.Port?
    ensures Sound(t) && Mirrors(t, ip, map[])
  {
    hide Inv;
    forall s: U16 ensures ViaIs(t.routes, Peer(ip), s, OneMore(Get(map[], s))) {}
  }

  /** One such input: a port's cable covers networks 1 to 5, and a peer adds 3 to 4. */
  lemma BlockedByACable(zone: Name)
    ensures var t := AddPort(EMPTY, 0, Range(1, 5), true, [zone], 0);
            var e := Event(NA, NetworkTuple(Range(3, 4), true, 0));
            && Sound(t) && Mirrors(t, 7, map[]) && Adds(map[], e)
            && !Mirrors(Apply(t, 7, e, 0).0, 7, HearEvent(map[], e))
  {
    hide AddPort, Inv, Apply, HearEvent, Sound, Mirrors;
    var t := AddPort(EMPTY, 0, Range(1, 5), true, [zone], 0);
    var e := Event(NA, NetworkTuple(Range(3, 4), true, 0));
    OneCable(zone);
    OneCableMirrorsNothing(t, CABLE, 7);
    assert Blocks(t.routes[0], e.tuple.range);
    BlockedIsLost(t, 7, map[], e, 0);
  }

  /** A route through `target` to exactly this range. */
  ghost predicate HoldsRange(rs: seq<Route>, target: Target, range: Range) {
    exists x :: x in rs && x.target == target && x.range == range
  }

  lemma DistanceMovesNoRange(rs: seq<Route>, w: Sweep, r: Route, x: Route)
    requires RoutesOk(rs) && w.Distance? && r in rs && r.target == w.target && r.Start() == w.start
    requires x in SweepAll(w, rs) && x.target == w.target && x.Start() == w.start
    ensures x.range == r.range
  {
    hide SweepAll, RoutesOk;
    SweptComeFrom(w, rs);
    assert ComesFrom(w, rs, x);
    var j :| 0 <= j < |rs| && SweepOne(w, rs[j]) == Some(x);
    SameStartSameRange(rs, rs[j], r);
  }

  lemma ReaddedIsDistance(gone: Event, back: Event)
    requires (gone.code == ND || gone.code == NRC) && back.code == NA && gone.Start() == back.Start()
    ensures Queued([gone], back) == [Event(NDC, back.tuple)]
  {
    assert FindStart([gone][..0], back.Start()) == None;
    assert FindStart([gone], back.Start()) == Some(0);
  }

  /** A network withdrawn and added back before the update goes out is told as a
      change of distance, which moves no range: the peer ends up with the network's
      new range exactly when it is the old one. */
  lemma ReaddedRange(t: Table, ip: nat, r: Route, gone: Event, back: Event, now: Time)
    requires Sound(t) && r in t.routes && r.target == Peer(ip) && r.Start() == back.Start()
    requires (gone.code == ND || gone.code == NRC) && back.code == NA && gone.Start() == back.Start()
    requires back.tuple.distance < MAX_HOPS
    ensures Queued([gone], back) == [Event(NDC, back.tuple)]
    ensures var u := Apply(t, ip, Event(NDC, back.tuple), now).0;
            HoldsRange(u.routes, Peer(ip), back.tuple.range) <==> r.range == back.tuple.range
  {
    ReaddedIsDistance(gone, back);
    DistanceSweeps(t, ip, r, back.tuple, now);
    RangeStays(t.routes, Distance(Peer(ip), back.Start(), back.tuple.distance + 1, now), r, back.tuple.range);
    hide Apply, SweepAll, Queued, Inv, TunnelsOk, HoldsRange;
  }

  /** One such input: network 5 goes and comes back as 5 to 7 before the update. */
  lemma RangeGrowsUnheard()
    ensures var x, y := NetworkTuple(Range(5, 5), true, 0), NetworkTuple(Range(5, 7), true, 0);
            var t := Learn(EMPTY, x, Peer(7), NO_NEXT, 0).0;
            && Queued([Event(ND, x)], Event(NA, y)) == [Event(NDC, y)]
            && HoldsRange(t.routes, Peer(7), x.range)
            && !HoldsRange(Apply(t, 7, Event(NDC, y), 0).0.routes, Peer(7), y.range)
  {
    var x, y := NetworkTuple(Range(5, 5), true, 0), NetworkTuple(Range(5, 7), true, 0);
    forall s: U16 ensures ViaIs([], Peer(7), s, OneMore(Get(map[], s))) {}
    LearnMirrors(EMPTY, 7, map[], x, 0);
    StepRoutes(EMPTY, OpLearn(x, Peer(7), NO_NEXT, 0));
    var t := Learn(EMPTY, x, Peer(7), NO_NEXT, 0).0;
    var r := Route(x.range, true, 1, Peer(7), NO_NEXT, Good, 0);
    assert t.routes == [r];
    assert r in t.routes;
    ReaddedRange(t, 7, r, Event(ND, x), Event(NA, y), 0);
  }

  lemma RangeStays(rs: seq<Route>, w: Sweep, r: Route, range: Range)
    requires RoutesOk(rs) && w.Distance? && r in rs && r.target == w.target && r.Start() == w.start == range.lo
    ensures HoldsRange(SweepAll(w, rs), w.target, range) <==> r.range == range
  {
    SweepKeepsMember(w, rs, r);
    hide SweepAll, RoutesOk;
    var out := SweepAll(w, rs);
    if r.range == range {
      var x := SweepOne(w, r).value;
      assert x in out && x.target == w.target && x.range == range;
    }
    forall x | x in out && x.target == w.target && x.range == range ensures x.range == r.range {
      DistanceMovesNoRange(rs, w, r, x);
    }
  }

  lemma DistanceSweeps(t: Table, ip: nat, r: Route, x: NetworkTuple, now: Time)
    requires Sound(t) && r in t.routes && r.target == Peer(ip) && r.Start() == x.range.lo && x.distance < MAX_HOPS
    ensures Apply(t, ip, Event(NDC, x), now).0.routes
         == SweepAll(Distance(Peer(ip), x.range.lo, x.distance + 1, now), t.routes)
  {
    hide SweepAll, Swept, Inv, TunnelsOk;
    assert HasVia(t.routes, Peer(ip), x.range.lo);
    SweepIsSound(t, Distance(Peer(ip), x.range.lo, x.distance + 1, now));
  }

  // ------------------------------------------------------------- whole packets

  ghost predicate ClearEvents(t: Table, ip: nat, v: View, es: seq<Event>, now: Time) {
    es == [] ||
    var n := |es| - 1;
    ClearEvents(t, ip, v, es[..n], now)
    && Clear(ApplyAll(t, ip, es[..n], now).0, HearEvents(v, es[..n]), es[n])
  }

  ghost predicate ClearTuples(t: Table, ip: nat, ts: seq<NetworkTuple>, now: Time) {
    ts == [] ||
    var n := |ts| - 1;
    ClearTuples(t, ip, ts[..n], now)
    && (ts[n].distance < MAX_HOPS ==>
          ts[n].range.WellFormed() && !Blocked(LearnAll(t, ip, ts[..n], now).0.routes, ts[n].range))
  }

  lemma {:induction false} EventsMirror(t: Table, ip: nat, v: View, es: seq<Event>, now: Time)
    requires Sound(t) && Mirrors(t, ip, v) && ClearEvents(t, ip, v, es, now)
    ensures var u := ApplyAll(t, ip, es, now).0; Sound(u) && Mirrors(u, ip, HearEvents(v, es))
  {
    if es != [] {
      var n := |es| - 1;
      EventsMirror(t, ip, v, es[..n], now);
      ApplyMirrors(ApplyAll(t, ip, es[..n], now).0, ip, HearEvents(v, es[..n]), es[n], now);
    }
  }

  lemma {:induction false} TuplesMirror(t: Table, ip: nat, v: View, ts: seq<NetworkTuple>, now: Time)
    requires Sound(t) && Mirrors(t, ip, v) && ClearTuples(t, ip, ts, now)
    ensures var u := LearnAll(t, ip, ts, now).0; Sound(u) && Mirrors(u, ip, HearTuples(v, ts))
  {
    if ts != [] {
      var n := |ts| - 1;
      TuplesMirror(t, ip, v, ts[..n], now);
      if ts[n].distance < MAX_HOPS {
        LearnMirrors(LearnAll(t, ip, ts[..n], now).0, ip, HearTuples(v, ts[..n]), ts[n], now);
      }
    }
  }

  // ------------------------------------------------------------- everything else

  /** An operation that is none of this peer's business. */
  ghost predicate Foreign(op: Op, ip: nat) {
    match op
    case OpLearn(_, target, _, _) => target != Peer(ip)
    case OpSweep(Aging(_)) => true
    case OpSweep(DropTarget(target)) => target != Peer(ip)
    case OpSweep(DropStart(target, _)) => target != Peer(ip)
    case OpSweep(Distance(target, _, _, _)) => target != Peer(ip)
    case OpZones(_, _, _) => true
  }

  lemma ForeignSweepVia(w: Sweep, rs: seq<Route>, ip: nat, s: U16, d: Option<nat>)
    requires Foreign(OpSweep(w), ip) && ViaIs(rs, Peer(ip), s, d)
    ensures ViaIs(SweepAll(w, rs), Peer(ip), s, d)
  {
    hide SweepAll;
    SweepVia(w, rs, Peer(ip), s, d, d);
  }

  /** Whatever the router does with its ports and its other peers, the routes
      through this one stay what they were. */
  lemma ForeignKeepsMirror(t: Table, ip: nat, v: View, op: Op)
    requires Sound(t) && Mirrors(t, ip, v) && OpOk(op) && TunnelOpOk(op) && Foreign(op, ip)
    ensures Sound(Step(t, op).0) && Mirrors(Step(t, op).0, ip, v)
  {
    StepKeepsInv(t, op);
    StepKeepsTunnels(t, op);
    StepRoutes(t, op);
    hide Step, ViaIs, LearnRoutes, SweepAll, Inv, TunnelsOk;
    var u := Step(t, op).0;
    forall s: U16 ensures ViaIs(u.routes, Peer(ip), s, OneMore(Get(v, s))) {
      var d := OneMore(Get(v, s));
      assert ViaIs(t.routes, Peer(ip), s, d);
      match op
      case OpLearn(x, target, next, now) =>
        if !Blocked(t.routes, x.range) { LearnViaOther(t.routes, x, target, next, now, Peer(ip), s, d); }
      case OpSweep(w) => ForeignSweepVia(w, t.routes, ip, s, d);
      case OpZones(_, _, _) =>
    }
  }

  lemma LearnViaOther(rs: seq<Route>, x: NetworkTuple, target: Target, next: Addr, now: Time, other: Target, s: U16, d: Option<nat>)
    requires target != other && ViaIs(rs, other, s, d)
    ensures ViaIs(LearnRoutes(rs, x, target, next, now), other, s, d)
  {
    var out := LearnRoutes(rs, x, target, next, now);
    if d.Some? {
      var i :| 0 <= i < |rs| && rs[i].target == other && rs[i].Start() == s;
      LearnSparesOthers(rs, x, target, next, now, rs[i]);
      var k :| 0 <= k < |out| && out[k] == rs[i];
    }
    forall k | 0 <= k < |out| && out[k].target == other ensures out[k] in rs {}
  }
}
