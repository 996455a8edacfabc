/** What the tables keep: an invariant preserved by every operation, the meaning
    of "best route", and the stream of reported changes. */
module TableTheorems {
  import opened Wire
  import opened Table

  // ------------------------------------------------------------- the invariant

  ghost predicate Compatible(a: Route, b: Route) {
    (a.range == b.range || !a.range.Overlaps(b.range)) && !a.Is(b.range, b.target, b.next)
  }

  /** Ranges are pairwise equal or disjoint, (range, target, next) is unique,
      and no stored distance exceeds the hop limit. */
  ghost predicate RoutesOk(rs: seq<Route>) {
    && (forall i :: 0 <= i < |rs| ==> rs[i].range.WellFormed() && rs[i].distance <= MAX_HOPS)
    && (forall i, j :: 0 <= i < j < |rs| ==> Compatible(rs[i], rs[j]))
  }

  /** The recorded incumbent of every start is exactly the best usable route,
      and zone lists exist only where a route still does. */
  ghost predicate Inv(t: Table) {
    && RoutesOk(t.routes)
    && (forall s: U16 :: Get(t.best, s) == KeyOf(BestFor(t, s)))
    && (forall s: U16 :: s in t.zones ==> At(t.routes, s) != [])
  }

  // ------------------------------------------------------------- what Pick means

  ghost predicate Eligible(r: Route, q: Query) { r.state.Usable() && r.Matches(q) }

  /** Pick returns a shortest usable match, and on a tie the incumbent if it is there. */
  lemma {:induction false} PickBounds(rs: seq<Route>, best: map<U16, RouteKey>, q: Query)
    ensures var p := Pick(rs, best, q);
            && (p.None? <==> forall i :: 0 <= i < |rs| ==> !Eligible(rs[i], q))
            && (p.Some? ==> p.value in rs && Eligible(p.value, q))
            && (p.Some? ==> forall i :: 0 <= i < |rs| && Eligible(rs[i], q) ==>
                  p.value.distance <= rs[i].distance
                  && (p.value.distance == rs[i].distance && Incumbent(best, rs[i]) ==> Incumbent(best, p.value)))
  {
    if rs != [] {
      PickBounds(rs[..|rs| - 1], best, q);
      assert rs == rs[..|rs| - 1] + [rs[|rs| - 1]];
    }
  }

  /** One eligible route comes before another in the choice: shorter; as short and
      the incumbent; or neither, and earlier in the table. */
  ghost predicate Precedes(rs: seq<Route>, best: map<U16, RouteKey>, i: nat, j: nat)
    requires i < |rs| && j < |rs|
  {
    || rs[i].distance < rs[j].distance
    || (rs[i].distance == rs[j].distance && Incumbent(best, rs[i]) && !Incumbent(best, rs[j]))
    || (rs[i].distance == rs[j].distance && (Incumbent(best, rs[i]) <==> Incumbent(best, rs[j])) && i <= j)
  }

  ghost predicate ChosenAt(rs: seq<Route>, best: map<U16, RouteKey>, q: Query, i: nat)
    requires i < |rs|
  {
    Eligible(rs[i], q) && forall j :: 0 <= j < |rs| && Eligible(rs[j], q) ==> Precedes(rs, best, i, j)
  }

  lemma ChosenAtSnoc(rs: seq<Route>, best: map<U16, RouteKey>, q: Query, i: nat)
    requires rs != [] && i < |rs| - 1 && ChosenAt(rs[..|rs| - 1], best, q, i)
    ensures var r := rs[|rs| - 1];
            if Eligible(r, q) && Displaces(best, r, rs[i]) then ChosenAt(rs, best, q, |rs| - 1)
            else ChosenAt(rs, best, q, i)
  {
    var n := |rs| - 1;
    forall j | 0 <= j < n && Eligible(rs[j], q) ensures Precedes(rs, best, i, j) {
      assert Eligible(rs[..n][j], q);
      assert Precedes(rs[..n], best, i, j);
    }
  }

  lemma {:induction false} PickPosition(rs: seq<Route>, best: map<U16, RouteKey>, q: Query) returns (i: nat)
    requires Pick(rs, best, q).Some?
    ensures i < |rs| && rs[i] == Pick(rs, best, q).value && ChosenAt(rs, best, q, i)
  {
    var n := |rs| - 1;
    PickBounds(rs[..n], best, q);
    if Pick(rs[..n], best, q).None? {
      i := n;
      forall j | 0 <= j < n ensures !Eligible(rs[j], q) { assert !Eligible(rs[..n][j], q); }
    } else {
      var k := PickPosition(rs[..n], best, q);
      ChosenAtSnoc(rs, best, q, k);
      i := if Eligible(rs[n], q) && Displaces(best, rs[n], rs[k]) then n else k;
    }
  }

  /** What Pick chooses, exactly: the shortest usable match; on a tie the incumbent;
      else the first one found; and nothing only when nothing usable matches. */
  lemma PickMeaning(rs: seq<Route>, best: map<U16, RouteKey>, q: Query)
    ensures var p := Pick(rs, best, q);
            && (p.None? <==> forall i :: 0 <= i < |rs| ==> !Eligible(rs[i], q))
            && (forall i :: 0 <= i < |rs| && ChosenAt(rs, best, q, i) ==> p == Some(rs[i]))
            && (p.Some? ==> exists i :: 0 <= i < |rs| && ChosenAt(rs, best, q, i) && rs[i] == p.value)
  {
    PickBounds(rs, best, q);
    if Pick(rs, best, q).Some? {
      var k := PickPosition(rs, best, q);
      forall i | 0 <= i < |rs| && ChosenAt(rs, best, q, i) ensures rs[i] == rs[k] {
        assert Precedes(rs, best, i, k) && Precedes(rs, best, k, i);
      }
    }
  }

  lemma {:induction false} AtMeaning(rs: seq<Route>, s: U16)
    ensures forall i :: 0 <= i < |At(rs, s)| ==> At(rs, s)[i] in rs && At(rs, s)[i].Start() == s
    ensures forall i :: 0 <= i < |rs| && rs[i].Start() == s ==> rs[i] in At(rs, s)
  {
    if rs != [] {
      AtMeaning(rs[..|rs| - 1], s);
      assert rs == rs[..|rs| - 1] + [rs[|rs| - 1]];
    }
  }

  lemma {:induction false} PickStartsThere(rs: seq<Route>, best: map<U16, RouteKey>, s: U16)
    ensures Pick(rs, best, ByStart(s)).Some? ==> Pick(rs, best, ByStart(s)).value.Start() == s
  {
    if rs != [] { PickStartsThere(rs[..|rs| - 1], best, s); }
  }

  lemma PickAppend(rs: seq<Route>, r: Route, best: map<U16, RouteKey>, q: Query)
    ensures var b := Pick(rs, best, q);
            Pick(rs + [r], best, q) ==
            if r.state.Usable() && r.Matches(q) && (b.Some? ==> Displaces(best, r, b.value)) then Some(r) else b
  {
    assert (rs + [r])[..|rs|] == rs;
  }

  lemma AtAppend(rs: seq<Route>, r: Route, s: U16)
    ensures At(rs + [r], s) == if r.Start() == s then At(rs, s) + [r] else At(rs, s)
  {
    assert (rs + [r])[..|rs|] == rs;
  }

  /** The best route of a start depends on nothing but the routes of that start
      and its own incumbent. */
  lemma {:induction false} BestIsLocal(rs: seq<Route>, best: map<U16, RouteKey>, best': map<U16, RouteKey>, s: U16)
    requires Get(best, s) == Get(best', s)
    ensures Pick(rs, best, ByStart(s)) == Pick(At(rs, s), best', ByStart(s))
  {
    if rs != [] {
      var first, r := rs[..|rs| - 1], rs[|rs| - 1];
      BestIsLocal(first, best, best', s);
      PickStartsThere(first, best, s);
      hide Pick, At;
      assert rs == first + [r];
      PickAppend(first, r, best, ByStart(s));
      AtAppend(first, r, s);
      if r.Start() == s { PickAppend(At(first, s), r, best', ByStart(s)); }
    }
  }

  lemma BestDependsOn(t: Table, u: Table, s: U16)
    requires At(t.routes, s) == At(u.routes, s) && Get(t.best, s) == Get(u.best, s)
    ensures BestFor(t, s) == BestFor(u, s)
  {
    BestIsLocal(t.routes, t.best, t.best, s);
    BestIsLocal(u.routes, u.best, t.best, s);
  }

  lemma BestStartsThere(t: Table, s: U16)
    ensures BestFor(t, s).Some? ==> BestFor(t, s).value in t.routes && BestFor(t, s).value.Start() == s
    ensures BestFor(t, s).Some? ==> BestFor(t, s).value.state.Usable() && At(t.routes, s) != []
  {
    PickBounds(t.routes, t.best, ByStart(s));
    AtMeaning(t.routes, s);
  }

  lemma SameStartSameRange(rs: seq<Route>, a: Route, b: Route)
    requires RoutesOk(rs) && a in rs && b in rs && a.Start() == b.Start()
    ensures a.range == b.range
    ensures a.Key() == b.Key() ==> a == b
  {
    var i :| 0 <= i < |rs| && rs[i] == a;
    var j :| 0 <= j < |rs| && rs[j] == b;
    if i < j { assert Compatible(rs[i], rs[j]); }
    if j < i { assert Compatible(rs[j], rs[i]); }
  }

  /** Recording the winner as the incumbent does not change the winner. */
  lemma BestIsStable(rs: seq<Route>, best: map<U16, RouteKey>, best': map<U16, RouteKey>, s: U16)
    requires RoutesOk(rs)
    requires Get(best', s) == KeyOf(Pick(rs, best, ByStart(s)))
    ensures Pick(rs, best', ByStart(s)) == Pick(rs, best, ByStart(s))
  {
    var q := ByStart(s);
    PickBounds(rs, best, q);
    PickBounds(rs, best', q);
    if Pick(rs, best, q).Some? {
      var r, p := Pick(rs, best, q).value, Pick(rs, best', q).value;
      assert Incumbent(best', r);
      assert p.distance == r.distance;
      assert Incumbent(best', p);
      SameStartSameRange(rs, r, p);
    }
  }

  // ------------------------------------------------------------- what Starts lists

  lemma {:induction false} StartsMeaning(rs: seq<Route>)
    ensures Distinct(Starts(rs))
    ensures forall s: U16 :: s in Starts(rs) <==> At(rs, s) != []
  {
    if rs != [] {
      StartsMeaning(rs[..|rs| - 1]);
    }
  }

  lemma {:induction false} OfTargetAt(rs: seq<Route>, target: Target, s: U16)
    requires At(OfTarget(rs, target), s) == []
    ensures forall i :: 0 <= i < |At(rs, s)| ==> At(rs, s)[i].target != target
  {
    if rs != [] {
      var n := |rs| - 1;
      var kept := OfTarget(rs[..n], target);
      if rs[n].target == target {
        assert (kept + [rs[n]])[..|kept|] == kept;
        assert |At(kept, s)| <= |At(kept + [rs[n]], s)|;
      } else {
        assert kept + [] == kept;
      }
      OfTargetAt(rs[..n], target, s);
    }
  }

  // ------------------------------------------------------------- settling

  lemma {:induction false} SettleMeaning(t: Table, starts: seq<U16>, before: seq<Option<Route>>, s: U16)
    requires |starts| == |before| && Distinct(starts)
    ensures var u := Settle(t, starts, before).0;
            && u.routes == t.routes
            && (s !in starts ==> Get(u.best, s) == Get(t.best, s) && Get(u.zones, s) == Get(t.zones, s))
            && (s in starts ==>
                  && Get(u.best, s) == KeyOf(BestFor(t, s))
                  && Get(u.zones, s) == if At(t.routes, s) == [] then None else Get(t.zones, s))
  {
    hide Pick, At;
    if starts != [] {
      var n := |starts| - 1;
      assert starts == starts[..n] + [starts[n]];
      SettleMeaning(t, starts[..n], before[..n], s);
      SettleMeaning(t, starts[..n], before[..n], starts[n]);
      var u := Settle(t, starts[..n], before[..n]).0;
      BestDependsOn(u, t, starts[n]);
      BestStartsThere(u, starts[n]);
    }
  }

  /** The last change reported for a start. */
  function ChangeAt(cs: seq<RouteChange>, s: U16): Option<RouteChange> {
    if cs == [] then None
    else
      var n := |cs| - 1;
      if cs[n].range.lo == s then Some(cs[n]) else ChangeAt(cs[..n], s)
  }

  /** At most one change per start. */
  ghost predicate OnePerStart(cs: seq<RouteChange>) {
    forall i, j :: 0 <= i < j < |cs| ==> cs[i].range.lo != cs[j].range.lo
  }

  ghost predicate StartsThere(r: Option<Route>, s: U16) { r.Some? ==> r.value.Start() == s }

  lemma {:induction false} ChangeAtAppend(cs: seq<RouteChange>, ds: seq<RouteChange>, s: U16)
    requires |ds| <= 1
    ensures ChangeAt(cs + ds, s) ==
            if ds != [] && ds[0].range.lo == s then Some(ds[0]) else ChangeAt(cs, s)
  {
    if ds == [] {
      assert cs + ds == cs;
    } else {
      assert (cs + ds)[..|cs|] == cs;
    }
  }

  /** The change reported at `s` is the one from `before` to `after`, if there is one. */
  ghost predicate ReportsAt(cs: seq<RouteChange>, s: U16, before: Option<Route>, after: Option<Route>) {
    match ChangeAt(cs, s)
    case None => !Changed(before, after)
    case Some(c) =>
      && Changed(before, after) && c.before == before && c.after == after
      && c.range == (if after.Some? then after.value.range else before.value.range)
  }

  ghost predicate Reports(t: Table, starts: seq<U16>, before: seq<Option<Route>>, cs: seq<RouteChange>)
    requires |starts| == |before|
  {
    && OnePerStart(cs)
    && (forall k :: 0 <= k < |cs| ==> cs[k].range.lo in starts)
    && (forall s: U16 :: s !in starts ==> ChangeAt(cs, s) == None)
    && (forall i :: 0 <= i < |starts| ==> ReportsAt(cs, starts[i], before[i], BestFor(t, starts[i])))
  }

  lemma ReportOneMore(t: Table, starts: seq<U16>, before: seq<Option<Route>>, cs: seq<RouteChange>, s: U16, b: Option<Route>)
    requires |starts| == |before| && Reports(t, starts, before, cs)
    requires s !in starts && StartsThere(b, s) && StartsThere(BestFor(t, s), s)
    ensures Reports(t, starts + [s], before + [b], cs + Reported(s, b, BestFor(t, s)))
  {
    var ds := Reported(s, b, BestFor(t, s));
    hide BestFor, ChangeAt;
    forall z: U16
      ensures ChangeAt(cs + ds, z) == if ds != [] && z == s then Some(ds[0]) else ChangeAt(cs, z)
    {
      ChangeAtAppend(cs, ds, z);
    }
  }

  /** Settling reports, for each start it was given, exactly the change between
      the snapshot and the table, and nothing for any other start. */
  lemma {:induction false} SettleReports(t: Table, starts: seq<U16>, before: seq<Option<Route>>)
    requires |starts| == |before| && Distinct(starts)
    requires forall i :: 0 <= i < |starts| ==> StartsThere(before[i], starts[i])
    ensures Reports(t, starts, before, Settle(t, starts, before).1)
  {
    if starts != [] {
      var n := |starts| - 1;
      var first, earlier := starts[..n], before[..n];
      assert starts == first + [starts[n]] && before == earlier + [before[n]];
      SettleReports(t, first, earlier);
      var (u, cs) := Settle(t, first, earlier);
      SettleMeaning(t, first, earlier, starts[n]);
      BestDependsOn(u, t, starts[n]);
      BestStartsThere(t, starts[n]);
      hide Reports, BestFor;
      ReportOneMore(t, first, earlier, cs, starts[n], before[n]);
    }
  }

  // ------------------------------------------------------------- touching some starts

  /** Replacing the routes of some starts and settling those starts restores the
      invariant, and says exactly what became of every start. */
  lemma SettledTable(t: Table, routes: seq<Route>, starts: seq<U16>)
    requires Inv(t) && RoutesOk(routes) && Distinct(starts)
    requires forall s: U16 :: s !in starts ==> At(routes, s) == At(t.routes, s)
    ensures var (u, cs) := Settle(t.(routes := routes), starts, Snapshot(t, starts));
            Inv(u) && u.routes == routes && Follows(t, u, cs)
  {
    var m := t.(routes := routes);
    var before := Snapshot(t, starts);
    var (u, cs) := Settle(m, starts, before);
    forall i | 0 <= i < |starts| ensures StartsThere(before[i], starts[i]) {
      BestStartsThere(t, starts[i]);
    }
    SettleReports(m, starts, before);
    SettleMeaning(m, starts, before, 0);
    forall s: U16
      ensures Get(u.best, s) == KeyOf(BestFor(u, s))
      ensures s in u.zones ==> At(u.routes, s) != []
      ensures FollowsAt(t, u, cs, s)
    {
      SettleMeaning(m, starts, before, s);
      if s in starts {
        BestIsStable(routes, m.best, u.best, s);
        assert BestFor(u, s) == BestFor(m, s);
        assert u.routes == routes;
        var i :| 0 <= i < |starts| && starts[i] == s;
        assert before[i] == BestFor(t, s);
        assert ReportsAt(cs, starts[i], before[i], BestFor(m, s));
      } else {
        BestDependsOn(t, u, s);
        assert ChangeAt(cs, s) == None;
      }
    }
  }

  /** How one start may move under an operation that reports `cs`: a reported
      change is exactly (old best, new best); unreported means the same target
      and distance; a zone list only ever goes with the last route. */
  ghost predicate FollowsAt(t: Table, u: Table, cs: seq<RouteChange>, s: U16) {
    && (match ChangeAt(cs, s)
        case None => !Changed(BestFor(t, s), BestFor(u, s))
        case Some(c) =>
          && c.before == BestFor(t, s) && c.after == BestFor(u, s)
          && (c.after.Some? || c.before.Some?) && c.range == (if c.after.Some? then c.after else c.before).value.range)
    && (Get(u.zones, s) == Get(t.zones, s) || (Get(u.zones, s) == None && At(u.routes, s) == []))
  }

  ghost predicate Follows(t: Table, u: Table, cs: seq<RouteChange>) {
    && OnePerStart(cs)
    && (forall s: U16 :: FollowsAt(t, u, cs, s))
  }

  // ------------------------------------------------------------- learning keeps it

  lemma {:induction false} AtConcat(a: seq<Route>, b: seq<Route>, s: U16)
    ensures At(a + b, s) == At(a, s) + At(b, s)
  {
    if b == [] {
      assert a + b == a;
    } else {
      var n := |b| - 1;
      assert (a + b)[..|a + b| - 1] == a + b[..n];
      AtConcat(a, b[..n], s);
    }
  }

  lemma AtSplice(rs: seq<Route>, i: nat, mid: seq<Route>, s: U16)
    requires i < |rs| && rs[i].Start() != s && |mid| <= 1
    requires mid != [] ==> mid[0].Start() != s
    ensures At(rs[..i] + mid + rs[i + 1..], s) == At(rs, s)
  {
    assert rs == rs[..i] + [rs[i]] + rs[i + 1..];
    AtConcat(rs[..i] + [rs[i]], rs[i + 1..], s);
    AtConcat(rs[..i], [rs[i]], s);
    AtConcat(rs[..i] + mid, rs[i + 1..], s);
    AtConcat(rs[..i], mid, s);
    assert At([rs[i]], s) == [];
    assert At(mid, s) == [];
  }

  lemma LearnTouchesOneStart(rs: seq<Route>, t: NetworkTuple, target: Target, next: Addr, now: Time, s: U16)
    requires s != t.range.lo
    ensures At(LearnRoutes(rs, t, target, next, now), s) == At(rs, s)
  {
    match Position(rs, t.range, target, next)
    case Some(i) =>
      if Unreachable(t) {
        assert rs[..i] + rs[i + 1..] == rs[..i] + [] + rs[i + 1..];
        AtSplice(rs, i, [], s);
      } else {
        var r := Refreshed(rs[i], t, now);
        assert rs[i := r] == rs[..i] + [r] + rs[i + 1..];
        AtSplice(rs, i, [r], s);
      }
    case None =>
      var r := Route(t.range, t.extended, if t.distance < 0xff then t.distance + 1 else 0, target, next, Good, now);
      AtConcat(rs, [r], s);
  }

  lemma LearnKeepsRoutesOk(rs: seq<Route>, t: NetworkTuple, target: Target, next: Addr, now: Time)
    requires RoutesOk(rs) && t.range.WellFormed() && !Blocked(rs, t.range)
    ensures RoutesOk(LearnRoutes(rs, t, target, next, now))
  {
    var out := LearnRoutes(rs, t, target, next, now);
    forall i, j | 0 <= i < j < |out| ensures Compatible(out[i], out[j]) {
      match Position(rs, t.range, target, next)
      case Some(k) =>
        if Unreachable(t) {
          assert Compatible(rs[if i < k then i else i + 1], rs[if j < k then j else j + 1]);
        } else {
          assert Compatible(rs[i], rs[j]);
        }
      case None =>
        if j < |rs| {
          assert Compatible(rs[i], rs[j]);
        } else {
          assert !Blocks(rs[i], t.range) && !rs[i].Is(t.range, target, next);
        }
    }
  }

  /** A tuple whose range is inverted breaks the invariant exactly when the
      table stores it: when nothing blocks it and it is a reachable distance. */
  lemma LearnKeepsInv(t: Table, tuple: NetworkTuple, target: Target, next: Addr, now: Time)
    requires Inv(t)
    ensures var (u, cs) := Learn(t, tuple, target, next, now);
            && (Inv(u) <==> tuple.range.WellFormed() || Blocked(t.routes, tuple.range) || tuple.distance >= MAX_HOPS)
            && (Inv(u) ==> Follows(t, u, cs))
  {
    var rs := LearnRoutes(t.routes, tuple, target, next, now);
    var s := tuple.range.lo;
    if Blocked(t.routes, tuple.range) {
    } else if tuple.range.WellFormed() {
      LearnKeepsRoutesOk(t.routes, tuple, target, next, now);
      forall z: U16 | z !in [s] ensures At(rs, z) == At(t.routes, z) {
        LearnTouchesOneStart(t.routes, tuple, target, next, now, z);
      }
      SettledTable(t, rs, [s]);
    } else {
      assert forall i :: 0 <= i < |t.routes| ==> t.routes[i].range != tuple.range;
      if tuple.distance >= MAX_HOPS {
        SettledTable(t, rs, [s]);
      } else {
        SettleMeaning(t.(routes := rs), [s], Snapshot(t, [s]), s);
        assert !rs[|t.routes|].range.WellFormed();
      }
    }
  }

  /** A tuple the wire does carry, six bytes saying 5 to 3, and a table it breaks. */
  lemma InvertedRangeBreaks()
    ensures Inv(EMPTY)
    ensures !Inv(Learn(EMPTY, NetworkTuple(Range(5, 3), true, 1), Port(0), Addr(9, 1), 0).0)
  {
    assert Inv(EMPTY);
    LearnKeepsInv(EMPTY, NetworkTuple(Range(5, 3), true, 1), Port(0), Addr(9, 1), 0);
  }

  // ------------------------------------------------------------- sweeping keeps it

  ghost predicate SweepOk(w: Sweep) { w.Distance? ==> w.distance <= MAX_HOPS }

  ghost predicate ComesFrom(w: Sweep, rs: seq<Route>, r: Route) {
    exists j :: 0 <= j < |rs| && SweepOne(w, rs[j]) == Some(r)
  }

  lemma {:induction false} SweptComeFrom(w: Sweep, rs: seq<Route>)
    ensures forall r :: r in SweepAll(w, rs) ==> ComesFrom(w, rs, r)
  {
    if rs != [] {
      var n := |rs| - 1;
      SweptComeFrom(w, rs[..n]);
      forall r | r in SweepAll(w, rs) ensures ComesFrom(w, rs, r) {
        if SweepOne(w, rs[n]) != Some(r) {
          assert r in SweepAll(w, rs[..n]);
          assert ComesFrom(w, rs[..n], r);
          var j :| 0 <= j < |rs[..n]| && SweepOne(w, rs[..n][j]) == Some(r);
          assert SweepOne(w, rs[j]) == Some(r);
        }
      }
    }
  }

  lemma {:induction false} SweepKeepsRoutesOk(w: Sweep, rs: seq<Route>)
    requires RoutesOk(rs) && SweepOk(w)
    ensures RoutesOk(SweepAll(w, rs))
  {
    if rs != [] {
      var n := |rs| - 1;
      SweepKeepsRoutesOk(w, rs[..n]);
      SweptComeFrom(w, rs[..n]);
      var kept, out := SweepAll(w, rs[..n]), SweepAll(w, rs);
      forall i, j | 0 <= i < j < |out| ensures Compatible(out[i], out[j]) {
        if j < |kept| {
          assert Compatible(kept[i], kept[j]);
        } else {
          assert kept[i] in kept;
          var k :| 0 <= k < |rs[..n]| && SweepOne(w, rs[..n][k]) == Some(kept[i]);
          assert Compatible(rs[k], rs[n]);
        }
      }
    }
  }

  lemma {:induction false} SweepCommutesWithAt(w: Sweep, rs: seq<Route>, s: U16)
    ensures At(SweepAll(w, rs), s) == SweepAll(w, At(rs, s))
  {
    if rs != [] {
      var n := |rs| - 1;
      SweepCommutesWithAt(w, rs[..n], s);
      var kept, here := SweepAll(w, rs[..n]), At(rs[..n], s);
      var o := SweepOne(w, rs[n]);
      if o.Some? { assert (kept + [o.value])[..|kept|] == kept; }
      if rs[n].Start() == s { assert (here + [rs[n]])[..|here|] == here; }
      else { assert here + [] == here; }
    }
  }

  lemma {:induction false} SweepSpares(w: Sweep, rs: seq<Route>)
    requires forall i :: 0 <= i < |rs| ==> SweepOne(w, rs[i]) == Some(rs[i])
    ensures SweepAll(w, rs) == rs
  {
    if rs != [] {
      SweepSpares(w, rs[..|rs| - 1]);
    }
  }

  lemma SweepTouchesItsStarts(w: Sweep, rs: seq<Route>, s: U16)
    requires s !in SweptStarts(w, rs)
    ensures At(SweepAll(w, rs), s) == At(rs, s)
  {
    SweepCommutesWithAt(w, rs, s);
    AtMeaning(rs, s);
    match w
    case Aging(_) => StartsMeaning(rs);
    case DropTarget(target) =>
      StartsMeaning(OfTarget(rs, target));
      OfTargetAt(rs, target, s);
      SweepSpares(w, At(rs, s));
    case DropStart(_, _) => SweepSpares(w, At(rs, s));
    case Distance(_, _, _, _) => SweepSpares(w, At(rs, s));
  }

  lemma SweepKeepsInv(t: Table, w: Sweep)
    requires Inv(t) && SweepOk(w)
    ensures var (u, cs) := Swept(t, w); Inv(u) && Follows(t, u, cs)
  {
    var starts := SweptStarts(w, t.routes);
    StartsMeaning(t.routes);
    if w.DropTarget? { StartsMeaning(OfTarget(t.routes, w.target)); }
    SweepKeepsRoutesOk(w, t.routes);
    forall s: U16 | s !in starts ensures At(SweepAll(w, t.routes), s) == At(t.routes, s) {
      SweepTouchesItsStarts(w, t.routes, s);
    }
    SettledTable(t, SweepAll(w, t.routes), starts);
  }

  // ------------------------------------------------------------- zones and ports keep it

  lemma ZonesKeepInv(t: Table, s: U16, names: seq<Name>, expected: Option<nat>)
    requires Inv(t)
    ensures var (u, cs) := AddZones(t, s, names, expected);
            && Inv(u) && u.routes == t.routes && u.best == t.best
            && |cs| <= 1
            && (|cs| == 1 ==> cs[0].range.lo == s && cs[0].after == BestFor(t, s) && cs[0].after.Some?
                              && cs[0].range == cs[0].after.value.range)
  {
    var u := AddZones(t, s, names, expected).0;
    forall z: U16 ensures BestFor(u, z) == BestFor(t, z) {}
    BestStartsThere(t, s);
  }

  /** A configured port may be added while its range is clear of the others, as
      configuration checks. */
  lemma PortKeepsInv(t: Table, port: nat, range: Range, extended: bool, zones: seq<Name>, now: Time)
    requires Inv(t) && range.WellFormed()
    requires forall i :: 0 <= i < |t.routes| ==> !t.routes[i].range.Overlaps(range)
    ensures Inv(AddPort(t, port, range, extended, zones, now))
    ensures BestFor(AddPort(t, port, range, extended, zones, now), range.lo)
         == Some(Route(range, extended, 0, Port(port), NO_NEXT, Good, now))
    ensures forall s: U16 :: s != range.lo ==>
              BestFor(AddPort(t, port, range, extended, zones, now), s) == BestFor(t, s)
  {
    var u := AddPort(t, port, range, extended, zones, now);
    var r := u.routes[|t.routes|];
    assert u.routes[..|t.routes|] == t.routes;
    forall s: U16
      ensures Get(u.best, s) == KeyOf(BestFor(u, s))
      ensures s in u.zones ==> At(u.routes, s) != []
      ensures s == range.lo ==> BestFor(u, s) == Some(r)
      ensures s != range.lo ==> BestFor(u, s) == BestFor(t, s)
    {
      if s == range.lo {
        PickBounds(t.routes, u.best, ByStart(s));
        assert Pick(t.routes, u.best, ByStart(s)) == None;
      } else {
        AtConcat(t.routes, [r], s);
        assert At([r], s) == [];
        BestDependsOn(u, t, s);
      }
    }
  }

  // ------------------------------------------------------------- any run

  ghost predicate OpOk(op: Op) {
    match op
    case OpLearn(tuple, _, _, _) => tuple.range.WellFormed()
    case OpSweep(w) => SweepOk(w)
    case OpZones(_, _, _) => true
  }

  lemma StepKeepsInv(t: Table, op: Op)
    requires Inv(t) && OpOk(op)
    ensures Inv(Step(t, op).0)
    ensures !op.OpZones? ==> Follows(t, Step(t, op).0, Step(t, op).1)
  {
    match op
    case OpLearn(tuple, target, next, now) => LearnKeepsInv(t, tuple, target, next, now);
    case OpSweep(w) => SweepKeepsInv(t, w);
    case OpZones(s, names, expected) => ZonesKeepInv(t, s, names, expected);
  }

  /** The best target and distance for each start, as a listener keeps it. */
  type Known = map<U16, (Target, Byte)>

  function BestAt(r: Option<Route>): Option<(Target, Byte)> {
    if r.Some? then Some((r.value.target, r.value.distance)) else None
  }

  /** A listener sets the start to the new best, or forgets it. */
  function Heard(m: Known, c: RouteChange): Known {
    if c.after.Some? then m[c.range.lo := (c.after.value.target, c.after.value.distance)]
    else m - {c.range.lo}
  }

  function HeardAll(m: Known, cs: seq<RouteChange>): Known {
    if cs == [] then m else Heard(HeardAll(m, cs[..|cs| - 1]), cs[|cs| - 1])
  }

  ghost predicate Tracks(m: Known, t: Table) {
    forall s: U16 :: Get(m, s) == BestAt(BestFor(t, s))
  }

  lemma {:induction false} HeardAt(m: Known, cs: seq<RouteChange>, s: U16)
    ensures Get(HeardAll(m, cs), s) ==
            match ChangeAt(cs, s) case None => Get(m, s) case Some(c) => BestAt(c.after)
  {
    if cs != [] {
      HeardAt(m, cs[..|cs| - 1], s);
    }
  }

  /** A listener that applies what one operation reports stays in step. */
  lemma ChangesTrackOneStep(m: Known, t: Table, op: Op)
    requires Inv(t) && OpOk(op) && Tracks(m, t)
    ensures Tracks(HeardAll(m, Step(t, op).1), Step(t, op).0)
  {
    var (u, cs) := Step(t, op);
    StepKeepsInv(t, op);
    forall s: U16 ensures Get(HeardAll(m, cs), s) == BestAt(BestFor(u, s)) {
      HeardAt(m, cs, s);
      if op.OpZones? {
        ZonesKeepInv(t, op.start, op.names, op.expected);
        assert BestFor(u, s) == BestFor(t, s);
      } else {
        assert FollowsAt(t, u, cs, s);
      }
    }
  }

  function Run(t: Table, ops: seq<Op>): (Table, seq<RouteChange>) {
    if ops == [] then (t, [])
    else
      var n := |ops| - 1;
      var (u, cs) := Run(t, ops[..n]);
      var (v, ds) := Step(u, ops[n]);
      (v, cs + ds)
  }

  lemma {:induction false} HeardConcat(m: Known, cs: seq<RouteChange>, ds: seq<RouteChange>)
    ensures HeardAll(m, cs + ds) == HeardAll(HeardAll(m, cs), ds)
  {
    if ds == [] {
      assert cs + ds == cs;
    } else {
      var n := |ds| - 1;
      assert (cs + ds)[..|cs + ds| - 1] == cs + ds[..n];
      HeardConcat(m, cs, ds[..n]);
    }
  }

  /** Over any run of operations, replaying every reported change reproduces the
      best target and distance of every start. */
  lemma {:induction false} ChangesTrackEveryRun(m: Known, t: Table, ops: seq<Op>)
    requires Inv(t) && Tracks(m, t)
    requires forall i :: 0 <= i < |ops| ==> OpOk(ops[i])
    ensures Inv(Run(t, ops).0)
    ensures Tracks(HeardAll(m, Run(t, ops).1), Run(t, ops).0)
  {
    if ops != [] {
      var n := |ops| - 1;
      ChangesTrackEveryRun(m, t, ops[..n]);
      var (u, cs) := Run(t, ops[..n]);
      StepKeepsInv(u, ops[n]);
      ChangesTrackOneStep(HeardAll(m, cs), u, ops[n]);
      HeardConcat(m, cs, Step(u, ops[n]).1);
    }
  }

  // ------------------------------------------------------------- looking a network up

  lemma MatchesAlike(rs: seq<Route>, r: Route, x: Route, net: U16)
    requires RoutesOk(rs) && r in rs && x in rs && r.range.Contains(net)
    ensures x.Matches(ByNet(net)) <==> x.Matches(ByStart(r.Start()))
  {
    var i :| 0 <= i < |rs| && rs[i] == r;
    var j :| 0 <= j < |rs| && rs[j] == x;
    if i < j { assert Compatible(rs[i], rs[j]); }
    if j < i { assert Compatible(rs[j], rs[i]); }
  }

  /** Forwarding looks a network up by number; under the invariant that is the
      best route of the one range that holds it, incumbents included. */
  lemma BestForNetIsBestOfItsRange(t: Table, net: U16, r: Route)
    requires Inv(t) && r in t.routes && r.range.Contains(net)
    ensures BestForNet(t, net) == BestFor(t, r.Start())
  {
    var s := r.Start();
    PickBounds(t.routes, t.best, ByNet(net));
    PickBounds(t.routes, t.best, ByStart(s));
    forall x | x in t.routes ensures x.Matches(ByNet(net)) <==> x.Matches(ByStart(s)) {
      MatchesAlike(t.routes, r, x, net);
    }
    hide Pick, At;
    var b := BestFor(t, s);
    if b.Some? {
      assert Eligible(b.value, ByNet(net));
      assert Get(t.best, s) == Some(b.value.Key());
      var p := BestForNet(t, net);
      assert p.Some?;
      SameStartSameRange(t.routes, p.value, b.value);
    }
  }

  lemma UnroutedNetHasNoBest(t: Table, net: U16)
    requires forall i :: 0 <= i < |t.routes| ==> !t.routes[i].range.Contains(net)
    ensures BestForNet(t, net) == None
  {
    PickBounds(t.routes, t.best, ByNet(net));
  }

  // ------------------------------------------------------------- what is exported

  /** The distance at which a start is exported, if it is. */
  function Exported(t: Table, s: U16): Option<Byte> {
    if Exportable(t, s) then Some(BestFor(t, s).value.distance) else None
  }

  /** A tuple names an exported start, at its exported distance. */
  ghost predicate Announces(ts: seq<NetworkTuple>, s: U16, d: Option<Byte>) {
    if d.None? then forall i :: 0 <= i < |ts| ==> ts[i].range.lo != s
    else
      && (exists i :: 0 <= i < |ts| && ts[i].range.lo == s)
      && (forall i :: 0 <= i < |ts| && ts[i].range.lo == s ==> ts[i].distance == d.value)
  }

  lemma {:induction false} ExportOfMeaning(t: Table, starts: seq<U16>, s: U16)
    ensures Announces(ExportOf(t, starts), s, if s in starts then Exported(t, s) else None)
    ensures forall i :: 0 <= i < |ExportOf(t, starts)| ==> ExportOf(t, starts)[i].distance < MAX_HOPS
  {
    if starts != [] {
      var n := |starts| - 1;
      ExportOfMeaning(t, starts[..n], s);
      BestStartsThere(t, starts[n]);
      assert starts == starts[..n] + [starts[n]];
      var out := ExportOf(t, starts);
      if Exportable(t, starts[n]) {
        var first := ExportOf(t, starts[..n]);
        assert out == first + [BestFor(t, starts[n]).value.Tuple()];
        assert out[|first|].range.lo == starts[n];
        if s in starts[..n] && Exportable(t, s) {
          var i :| 0 <= i < |first| && first[i].range.lo == s;
          assert out[i].range.lo == s;
        }
      }
    }
  }

  /** The export names exactly the exportable starts, each at its best distance. */
  lemma ExportMeaning(t: Table, s: U16)
    ensures Announces(Export(t), s, Exported(t, s))
    ensures forall i :: 0 <= i < |Export(t)| ==> Export(t)[i].distance < MAX_HOPS
  {
    ExportOfMeaning(t, Starts(t.routes), s);
    StartsMeaning(t.routes);
    BestStartsThere(t, s);
  }

  // ------------------------------------------------------------- what a cable is told

  /** The distance a start is announced at on `port`: nothing back the way the best
      route goes; otherwise its distance while that is below 15; and 31 when no
      usable route is left and the first known did not go that way. */
  ghost predicate TellsCable(t: Table, port: nat, s: U16, d: Option<Byte>) {
    match BestFor(t, s)
    case Some(r) =>
      d == if r.target != Port(port) && r.distance < MAX_HOPS then Some(r.distance) else None
    case None =>
      d == if At(t.routes, s) != [] && At(t.routes, s)[0].target != Port(port) then Some(NOTIFY as Byte) else None
  }

  function AnnouncedDistance(t: Table, s: U16, port: nat): Option<Byte> {
    match Announced(t, s, port) case None => None case Some(x) => Some(x.distance)
  }

  lemma AnnouncedMeaning(t: Table, s: U16, port: nat)
    ensures Announced(t, s, port).Some? ==> Announced(t, s, port).value.range.lo == s
    ensures TellsCable(t, port, s, AnnouncedDistance(t, s, port))
  {
    BestStartsThere(t, s);
    AtMeaning(t.routes, s);
    if BestFor(t, s).None? && At(t.routes, s) != [] {
      var r := At(t.routes, s)[0];
      PickBounds(t.routes, t.best, ByStart(s));
      var i :| 0 <= i < |t.routes| && t.routes[i] == r;
      assert !Eligible(t.routes[i], ByStart(s));
    }
  }

  lemma {:induction false} BeaconOfMeaning(t: Table, starts: seq<U16>, port: nat, s: U16)
    ensures Announces(BeaconOf(t, starts, port), s, if s in starts then AnnouncedDistance(t, s, port) else None)
  {
    if starts != [] {
      var n := |starts| - 1;
      BeaconOfMeaning(t, starts[..n], port, s);
      AnnouncedMeaning(t, starts[n], port);
      assert starts == starts[..n] + [starts[n]];
      var first, out := BeaconOf(t, starts[..n], port), BeaconOf(t, starts, port);
      var x := Announced(t, starts[n], port);
      hide Announced, BeaconOf;
      if x.Some? {
        assert out[|first|].range.lo == starts[n];
        if s in starts[..n] && AnnouncedDistance(t, s, port).Some? {
          var i :| 0 <= i < |first| && first[i].range.lo == s;
          assert out[i].range.lo == s;
        }
      }
    }
  }

  /** Split horizon: what RTMP tells the cable of `port` about a network. */
  lemma BeaconMeaning(t: Table, port: nat, s: U16)
    ensures exists d :: Announces(Beacon(t, port), s, d) && TellsCable(t, port, s, d)
  {
    BeaconOfMeaning(t, Starts(t.routes), port, s);
    AnnouncedMeaning(t, s, port);
    StartsMeaning(t.routes);
    BestStartsThere(t, s);
    var d := if s in Starts(t.routes) then AnnouncedDistance(t, s, port) else None;
    assert TellsCable(t, port, s, d);
  }

  // ------------------------------------------------------------- tunnel routes

  /** Every route through a tunnel is good, has no next router, and counts the
      tunnel hop. */
  ghost predicate TunnelsOk(rs: seq<Route>) {
    forall i :: 0 <= i < |rs| && rs[i].target.Peer? ==>
      rs[i].state == Good && rs[i].next == NO_NEXT && 1 <= rs[i].distance <= MAX_HOPS
  }

  /** What the tunnel runtime may ask of the table. */
  ghost predicate TunnelOpOk(op: Op) {
    match op
    case OpLearn(tuple, target, next, _) => target.Peer? ==> tuple.distance < MAX_HOPS && next == NO_NEXT
    case OpSweep(w) => w.Distance? && w.target.Peer? ==> 1 <= w.distance <= MAX_HOPS
    case OpZones(_, _, _) => true
  }

  lemma LearnKeepsTunnels(rs: seq<Route>, t: NetworkTuple, target: Target, next: Addr, now: Time)
    requires TunnelsOk(rs) && (target.Peer? ==> t.distance < MAX_HOPS && next == NO_NEXT)
    ensures TunnelsOk(LearnRoutes(rs, t, target, next, now))
  {
  }

  lemma SweepKeepsTunnels(rs: seq<Route>, w: Sweep)
    requires TunnelsOk(rs) && (w.Distance? && w.target.Peer? ==> 1 <= w.distance <= MAX_HOPS)
    ensures TunnelsOk(SweepAll(w, rs))
  {
    SweptComeFrom(w, rs);
    var out := SweepAll(w, rs);
    forall i | 0 <= i < |out| && out[i].target.Peer?
      ensures out[i].state == Good && out[i].next == NO_NEXT && 1 <= out[i].distance <= MAX_HOPS
    {
      assert out[i] in out;
      var j :| 0 <= j < |rs| && SweepOne(w, rs[j]) == Some(out[i]);
    }
  }

  lemma StepKeepsTunnels(t: Table, op: Op)
    requires TunnelsOk(t.routes) && TunnelOpOk(op)
    ensures TunnelsOk(Step(t, op).0.routes)
  {
    StepRoutes(t, op);
    if op.OpLearn? {
      LearnKeepsTunnels(t.routes, op.tuple, op.target, op.next, op.now);
    } else if op.OpSweep? {
      SweepKeepsTunnels(t.routes, op.sweep);
    }
    assert TunnelsOk(Step(t, op).0.routes);
  }

  /** The routes an operation leaves, settling aside. */
  lemma StepRoutes(t: Table, op: Op)
    ensures Step(t, op).0.routes ==
            match op
            case OpLearn(tuple, target, next, now) =>
              if Blocked(t.routes, tuple.range) then t.routes else LearnRoutes(t.routes, tuple, target, next, now)
            case OpSweep(w) => SweepAll(w, t.routes)
            case OpZones(_, _, _) => t.routes
  {
    match op
    case OpLearn(tuple, target, next, now) =>
      SettleRoutes(t.(routes := LearnRoutes(t.routes, tuple, target, next, now)), [tuple.range.lo], Snapshot(t, [tuple.range.lo]));
    case OpSweep(w) =>
      var starts := SweptStarts(w, t.routes);
      SettleRoutes(t.(routes := SweepAll(w, t.routes)), starts, Snapshot(t, starts));
    case OpZones(_, _, _) =>
  }

  lemma {:induction false} SettleRoutes(t: Table, starts: seq<U16>, before: seq<Option<Route>>)
    requires |starts| == |before|
    ensures Settle(t, starts, before).0.routes == t.routes
  {
    if starts != [] { SettleRoutes(t, starts[..|starts| - 1], before[..|starts| - 1]); }
  }

  // ------------------------------------------------------------- aging

  function Level(s: State): nat {
    match s case Good => 0 case Suspect => 1 case Bad => 2 case Worst => 3
  }

  /** One route under a sequence of validity ticks. */
  function AgeRun(r: Route, ticks: seq<Time>): Option<Route> {
    if ticks == [] then Some(r)
    else
      var n := |ticks| - 1;
      match AgeRun(r, ticks[..n])
      case None => None
      case Some(x) => AgeRoute(x, ticks[n])
  }

  /** Each level takes a full validity period, whenever the ticks fall. */
  lemma {:induction false} AgingTakesItsTime(r: Route, ticks: seq<Time>, latest: Time)
    requires r.state == Good && forall i :: 0 <= i < |ticks| ==> ticks[i] <= latest
    ensures match AgeRun(r, ticks)
            case None => latest >= r.seen + 4 * VALIDITY
            case Some(x) =>
              && x.Is(r.range, r.target, r.next) && x.distance == r.distance
              && x.seen >= r.seen + Level(x.state) * VALIDITY
              && (x.state != Good ==> latest >= r.seen + Level(x.state) * VALIDITY)
  {
    if ticks != [] {
      AgingTakesItsTime(r, ticks[..|ticks| - 1], latest);
    }
  }

  /** An operation that neither confirms nor removes this route. */
  ghost predicate Spares(op: Op, r: Route) {
    match op
    case OpLearn(tuple, target, next, _) => !r.Is(tuple.range, target, next)
    case OpSweep(Aging(_)) => true
    case OpSweep(DropTarget(t)) => r.target != t
    case OpSweep(DropStart(t, s)) => r.target != t || r.Start() != s
    case OpSweep(Distance(t, s, _, _)) => r.target != t || r.Start() != s
    case OpZones(_, _, _) => true
  }

  lemma {:induction false} AgeRunKeepsIdentity(r: Route, ticks: seq<Time>)
    ensures AgeRun(r, ticks).Some? ==> AgeRun(r, ticks).value.Is(r.range, r.target, r.next)
  {
    if ticks != [] { AgeRunKeepsIdentity(r, ticks[..|ticks| - 1]); }
  }

  function TicksOf(ops: seq<Op>): seq<Time> {
    if ops == [] then []
    else
      var n := |ops| - 1;
      TicksOf(ops[..n]) + if ops[n].OpSweep? && ops[n].sweep.Aging? then [ops[n].sweep.now] else []
  }

  lemma LearnSparesOthers(rs: seq<Route>, t: NetworkTuple, target: Target, next: Addr, now: Time, r: Route)
    requires r in rs && !r.Is(t.range, target, next)
    ensures r in LearnRoutes(rs, t, target, next, now)
  {
    var k :| 0 <= k < |rs| && rs[k] == r;
    var out := LearnRoutes(rs, t, target, next, now);
    match Position(rs, t.range, target, next)
    case Some(i) =>
      if Unreachable(t) { assert r == out[if k < i then k else k - 1]; } else { assert r == out[k]; }
    case None => assert r == out[k];
  }

  lemma {:induction false} SweepKeepsMember(w: Sweep, rs: seq<Route>, r: Route)
    requires r in rs && SweepOne(w, r).Some?
    ensures SweepOne(w, r).value in SweepAll(w, rs)
  {
    var n := |rs| - 1;
    if r != rs[n] {
      assert r in rs[..n];
      SweepKeepsMember(w, rs[..n], r);
    }
  }

  lemma {:induction false} RouteInRun(t: Table, ops: seq<Op>, r: Route)
    requires r in t.routes
    requires forall i :: 0 <= i < |ops| ==> Spares(ops[i], r)
    requires AgeRun(r, TicksOf(ops)).Some?
    ensures AgeRun(r, TicksOf(ops)).value in Run(t, ops).0.routes
  {
    if ops != [] {
      var n := |ops| - 1;
      var ticks, before := TicksOf(ops), TicksOf(ops[..n]);
      if ticks != before { assert ticks[..|ticks| - 1] == before; } else { assert ops[n].OpSweep? ==> !ops[n].sweep.Aging?; }
      RouteInRun(t, ops[..n], r);
      var x := AgeRun(r, before).value;
      var u := Run(t, ops[..n]).0;
      AgeRunKeepsIdentity(r, before);
      assert Spares(ops[n], r);
      StepRoutes(u, ops[n]);
      match ops[n]
      case OpLearn(tuple, target, next, now) =>
        if !Blocked(u.routes, tuple.range) { LearnSparesOthers(u.routes, tuple, target, next, now, x); }
      case OpSweep(w) => SweepKeepsMember(w, u.routes, x);
      case OpZones(_, _, _) =>
    }
  }

  /** A route confirmed good stays usable for two validity periods and present
      for four, whatever else the table does meanwhile. */
  lemma ConfirmedRouteLasts(t: Table, ops: seq<Op>, r: Route, latest: Time)
    requires r in t.routes && r.state == Good
    requires forall i :: 0 <= i < |ops| ==> Spares(ops[i], r)
    requires forall i :: 0 <= i < |TicksOf(ops)| ==> TicksOf(ops)[i] <= latest
    requires latest < r.seen + 4 * VALIDITY
    ensures exists x :: x in Run(t, ops).0.routes && x.Is(r.range, r.target, r.next) && x.distance == r.distance
                        && (latest < r.seen + 2 * VALIDITY ==> x.state.Usable())
  {
    AgingTakesItsTime(r, TicksOf(ops), latest);
    RouteInRun(t, ops, r);
    var x := AgeRun(r, TicksOf(ops)).value;
    assert latest < r.seen + 2 * VALIDITY ==> Level(x.state) <= 1;
  }
}
