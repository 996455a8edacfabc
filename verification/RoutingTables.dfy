/** The routing and zone tables as they run: one object whose fields every
    operation changes in place, each proved against its value in Table.dfy. */
module RoutingTables {
  import opened Wire
  import opened Spec = Table
  import TableTheorems

  class Tables {
    var routes: seq<Route>
    var zones: map<U16, (U16, ZoneList)>
    var best: map<U16, RouteKey>

    function View(): Table
      reads this
    {
      Table(routes, zones, best)
    }

    constructor ()
      ensures View() == EMPTY
    {
      routes, zones, best := [], map[], map[];
    }

    // ----------------------------------------------------------- reading

    method Choose(q: Query) returns (b: Option<Route>)
      ensures b == Pick(routes, best, q)
    {
      b := None;
      for i := 0 to |routes|
        invariant b == Pick(routes[..i], best, q)
      {
        assert routes[..i + 1][..i] == routes[..i];
        var r := routes[i];
        if r.state.Usable() && r.Matches(q) {
          var take := b.None?
                      || r.distance < b.value.distance
                      || (r.distance == b.value.distance && Incumbent(best, r) && !Incumbent(best, b.value));
          if take { b := Some(r); }
        }
      }
      assert routes[..|routes|] == routes;
    }

    method ListStarts() returns (out: seq<U16>)
      ensures out == Starts(routes)
    {
      out := [];
      for i := 0 to |routes|
        invariant out == Starts(routes[..i])
      {
        assert routes[..i + 1][..i] == routes[..i];
        if routes[i].range.lo !in out { out := out + [routes[i].range.lo]; }
      }
      assert routes[..|routes|] == routes;
    }

    method StartsThrough(t: Target) returns (out: seq<U16>)
      ensures out == Starts(OfTarget(routes, t))
    {
      out := [];
      for i := 0 to |routes|
        invariant out == Starts(OfTarget(routes[..i], t))
      {
        assert routes[..i + 1][..i] == routes[..i];
        var r := routes[i];
        ghost var through := OfTarget(routes[..i], t);
        assert through + [] == through && (through + [r])[..|through|] == through;
        if r.target == t && r.range.lo !in out { out := out + [r.range.lo]; }
      }
      assert routes[..|routes|] == routes;
    }

    method TakeSnapshot(starts: seq<U16>) returns (before: seq<Option<Route>>)
      ensures before == Snapshot(View(), starts)
    {
      before := [];
      for i := 0 to |starts|
        invariant |before| == i && forall k :: 0 <= k < i ==> before[k] == BestFor(View(), starts[k])
      {
        var b := Choose(ByStart(starts[i]));
        before := before + [b];
      }
    }

    /** The exportable networks, by loop. */
    method ListExport() returns (out: seq<NetworkTuple>)
      ensures out == Export(View())
    {
      var starts := ListStarts();
      out := [];
      for i := 0 to |starts|
        invariant out == ExportOf(View(), starts[..i])
      {
        assert starts[..i + 1][..i] == starts[..i];
        if Exportable(View(), starts[i]) {
          var b := Choose(ByStart(starts[i]));
          out := out + [b.value.Tuple()];
        }
      }
      assert starts[..|starts|] == starts;
    }

    /** What a port's cable is told. */
    method ListBeacon(port: nat) returns (out: seq<NetworkTuple>)
      ensures out == Beacon(View(), port)
    {
      var starts := ListStarts();
      out := [];
      for i := 0 to |starts|
        invariant out == BeaconOf(View(), starts[..i], port)
      {
        assert starts[..i + 1][..i] == starts[..i];
        var b := Choose(ByStart(starts[i]));
        if b.None? {
          var here := At(routes, starts[i]);
          if here == [] { continue; }
          b := Some(here[0]);
        }
        if b.value.target == Port(port) { continue; }
        var tuple := b.value.Tuple();
        if !b.value.state.Usable() {
          tuple := tuple.(distance := NOTIFY);
        } else if tuple.distance >= MAX_HOPS {
          continue;
        }
        out := out + [tuple];
      }
      assert starts[..|starts|] == starts;
    }

    // ----------------------------------------------------------- settling

    method HasRouteAt(s: U16) returns (found: bool)
      ensures found <==> At(routes, s) != []
    {
      TableTheorems.AtMeaning(routes, s);
      found := exists i :: 0 <= i < |routes| && routes[i].range.lo == s;
      if At(routes, s) != [] { assert At(routes, s)[0] in routes; }
    }

    /** Records the incumbent of one start, and drops its zone list with its last
        route. */
    method SettleStart(s: U16) returns (chosen: Option<Route>)
      modifies `zones, `best
      ensures chosen == BestFor(old(View()), s) && View() == SettleOne(old(View()), s)
    {
      chosen := Choose(ByStart(s));
      if chosen.Some? { best := best[s := chosen.value.Key()]; } else { best := best - {s}; }
      var held := HasRouteAt(s);
      if !held {
        zones := zones - {s};
        best := best - {s};
      }
    }

    method SettleStarts(starts: seq<U16>, before: seq<Option<Route>>) returns (changes: seq<RouteChange>)
      requires |starts| == |before|
      modifies `zones, `best
      ensures (View(), changes) == Settle(old(View()), starts, before)
    {
      changes := [];
      for i := 0 to |starts|
        invariant (View(), changes) == Settle(old(View()), starts[..i], before[..i])
      {
        SettleSnoc(old(View()), starts, before, i);
        var s := starts[i];
        var chosen := SettleStart(s);
        if Changed(before[i], chosen) {
          var range := if chosen.Some? then chosen.value.range
                       else if before[i].Some? then before[i].value.range else Range(s, s);
          changes := changes + [RouteChange(range, before[i], chosen)];
        } else {
          assert changes + [] == changes;
        }
      }
      assert starts[..|starts|] == starts && before[..|before|] == before;
    }

    // ----------------------------------------------------------- changing

    method AddPort(port: nat, range: Range, extended: bool, names: seq<Name>, now: Time)
      modifies this
      ensures View() == Spec.AddPort(old(View()), port, range, extended, names, now)
    {
      routes := routes + [Route(range, extended, 0, Port(port), NO_NEXT, Good, now)];
      zones := zones[range.lo := (range.hi, ZoneList(names, None))];
      best := best[range.lo := RouteKey(Port(port), NO_NEXT)];
    }

    method Learn(t: NetworkTuple, target: Target, next: Addr, now: Time) returns (changes: seq<RouteChange>)
      modifies this
      ensures (View(), changes) == Spec.Learn(old(View()), t, target, next, now)
    {
      if Blocked(routes, t.range) { return []; }
      var s := t.range.lo;
      var before := TakeSnapshot([s]);
      var bad := t.distance == NOTIFY;
      var unreachable := t.distance >= MAX_HOPS && !bad;
      var i := Position(routes, t.range, target, next);
      if i.Some? && unreachable {
        routes := routes[..i.value] + routes[i.value + 1..];
      } else if i.Some? {
        var r := routes[i.value].(extended := t.extended);
        if !bad { r := r.(distance := t.distance + 1); }
        r := r.(state := if bad then Bad else Good, seen := now);
        routes := routes[i.value := r];
      } else if !unreachable && !bad {
        routes := routes + [Route(t.range, t.extended, t.distance + 1, target, next, Good, now)];
      }
      assert routes == LearnRoutes(old(routes), t, target, next, now);
      changes := SettleStarts([s], before);
    }

    method Age(now: Time) returns (changes: seq<RouteChange>)
      modifies this
      ensures (View(), changes) == Swept(old(View()), Aging(now))
    {
      var starts := ListStarts();
      var before := TakeSnapshot(starts);
      var kept: seq<Route> := [];
      for i := 0 to |routes|
        invariant kept == SweepAll(Aging(now), routes[..i]) && View() == old(View())
      {
        assert routes[..i + 1][..i] == routes[..i];
        var r := routes[i];
        if r.Direct() || r.target.Peer? || Since(now, r.seen) < VALIDITY {
          kept := kept + [r];
        } else {
          match r.state.Aged()
          case Some(s) => kept := kept + [r.(state := s, seen := now)];
          case None =>
        }
      }
      assert routes[..|routes|] == routes;
      routes := kept;
      changes := SettleStarts(starts, before);
    }

    method RemoveTarget(t: Target) returns (changes: seq<RouteChange>)
      modifies this
      ensures (View(), changes) == Swept(old(View()), DropTarget(t))
    {
      var starts := StartsThrough(t);
      var before := TakeSnapshot(starts);
      var kept: seq<Route> := [];
      for i := 0 to |routes|
        invariant kept == SweepAll(DropTarget(t), routes[..i]) && View() == old(View())
      {
        assert routes[..i + 1][..i] == routes[..i];
        if routes[i].target != t { kept := kept + [routes[i]]; }
      }
      assert routes[..|routes|] == routes;
      routes := kept;
      changes := SettleStarts(starts, before);
    }

    method Remove(t: Target, start: U16) returns (changes: seq<RouteChange>)
      modifies this
      ensures (View(), changes) == Swept(old(View()), DropStart(t, start))
    {
      var before := TakeSnapshot([start]);
      var kept: seq<Route> := [];
      for i := 0 to |routes|
        invariant kept == SweepAll(DropStart(t, start), routes[..i]) && View() == old(View())
      {
        assert routes[..i + 1][..i] == routes[..i];
        if !(routes[i].target == t && routes[i].range.lo == start) { kept := kept + [routes[i]]; }
      }
      assert routes[..|routes|] == routes;
      routes := kept;
      changes := SettleStarts([start], before);
    }

    method SetDistance(t: Target, start: U16, distance: Byte, now: Time) returns (changes: seq<RouteChange>)
      modifies this
      ensures (View(), changes) == Swept(old(View()), Distance(t, start, distance, now))
    {
      var before := TakeSnapshot([start]);
      ghost var w, was := Distance(t, start, distance, now), routes;
      for i := 0 to |routes|
        invariant |routes| == |was| && zones == old(zones) && best == old(best)
        invariant forall k :: 0 <= k < i ==> SweepOne(w, was[k]) == Some(routes[k])
        invariant forall k :: i <= k < |was| ==> routes[k] == was[k]
      {
        var r := routes[i];
        if r.target == t && r.range.lo == start {
          routes := routes[i := r.(distance := distance, seen := now)];
        }
      }
      SweptEachInPlace(w, was, routes);
      changes := SettleStarts([start], before);
    }

    method AddZones(s: U16, names: seq<Name>, expected: Option<nat>) returns (changes: seq<RouteChange>)
      modifies `zones
      ensures (View(), changes) == Spec.AddZones(old(View()), s, names, expected)
    {
      var here := At(routes, s);
      if here == [] { return []; }
      var was := Exportable(View(), s);
      var list := if s in zones then zones[s].1 else ZoneList([], None);
      ghost var held := list.names;
      if expected.Some? { list := list.(expected := expected); }
      for i := 0 to |names|
        invariant list.names == AddNames(held, names[..i])
        invariant list.expected == if expected.Some? then expected else ZonesOf(View(), s).expected
      {
        assert names[..i + 1][..i] == names[..i];
        if !HoldsName(list.names, names[i]) { list := list.(names := list.names + [names[i]]); }
      }
      assert names[..|names|] == names;
      zones := zones[s := (here[0].range.hi, list)];
      var b := Choose(ByStart(s));
      changes := if b.Some? && !was && Exportable(View(), s) then [RouteChange(b.value.range, None, b)] else [];
    }
  }

  lemma SettleSnoc(t: Table, starts: seq<U16>, before: seq<Option<Route>>, i: nat)
    requires |starts| == |before| && i < |starts|
    ensures var (u, cs) := Settle(t, starts[..i], before[..i]);
            Settle(t, starts[..i + 1], before[..i + 1]) ==
            (SettleOne(u, starts[i]), cs + Reported(starts[i], before[i], BestFor(u, starts[i])))
  {
    assert starts[..i + 1][..i] == starts[..i] && before[..i + 1][..i] == before[..i];
  }

  /** A sweep that keeps every route works in place. */
  lemma {:induction false} SweptEachInPlace(w: Sweep, rs: seq<Route>, out: seq<Route>)
    requires |out| == |rs| && forall k :: 0 <= k < |rs| ==> SweepOne(w, rs[k]) == Some(out[k])
    ensures SweepAll(w, rs) == out
  {
    if rs != [] {
      var n := |rs| - 1;
      SweptEachInPlace(w, rs[..n], out[..n]);
      assert out == out[..n] + [out[n]];
    }
  }
}
