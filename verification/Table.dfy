/** The routing and zone tables as a value: what each operation of the router's
    table computes. The class in RoutingTables.dfy changes its fields in place
    and is proved against these functions. */
module Table {
  import opened Wire

  /** How long an entry may go unconfirmed before it drops one level. */
  const VALIDITY: nat := 20 * SECOND

  /** Distance 31 in a tuple is notify-neighbour: the sender thinks it bad. */
  const NOTIFY: nat := 31

  /** From this distance on a network is unreachable. */
  const MAX_HOPS: nat := 15

  const NO_NEXT := Addr(0, 0)

  datatype Target = Port(port: nat) | Peer(ip: nat)

  datatype State = Good | Suspect | Bad | Worst {
    predicate Usable() { Good? || Suspect? }

    function Aged(): Option<State> {
      match this
      case Good => Some(Suspect)
      case Suspect => Some(Bad)
      case Bad => Some(Worst)
      case Worst => None
    }
  }

  /** What identifies a route within its range. */
  datatype RouteKey = RouteKey(target: Target, next: Addr)

  datatype Query = ByStart(start: U16) | ByNet(net: U16)

  datatype Route = Route(range: Range, extended: bool, distance: Byte, target: Target,
                         next: Addr, state: State, seen: Time) {
    function Start(): U16 { range.lo }

    function Key(): RouteKey { RouteKey(target, next) }

    function Tuple(): NetworkTuple { NetworkTuple(range, extended, distance) }

    predicate Direct() { distance == 0 && target.Port? }

    predicate Matches(q: Query) {
      match q
      case ByStart(s) => range.lo == s
      case ByNet(n) => range.Contains(n)
    }

    predicate Is(r: Range, t: Target, n: Addr) { range == r && target == t && next == n }
  }

  /** What was best for a range and what is now. */
  datatype RouteChange = RouteChange(range: Range, before: Option<Route>, after: Option<Route>)

  datatype ZoneList = ZoneList(names: seq<Name>, expected: Option<nat>) {
    predicate Complete() {
      names != [] && (expected.Some? ==> |names| >= expected.value)
    }
  }

  datatype Table = Table(routes: seq<Route>, zones: map<U16, (U16, ZoneList)>, best: map<U16, RouteKey>)

  // ------------------------------------------------------------- choosing

  predicate Incumbent(best: map<U16, RouteKey>, r: Route) {
    Get(best, r.range.lo) == Some(r.Key())
  }

  /** Whether `r` displaces `b`, the choice so far. */
  predicate Displaces(best: map<U16, RouteKey>, r: Route, b: Route) {
    r.distance < b.distance
    || (r.distance == b.distance && Incumbent(best, r) && !Incumbent(best, b))
  }

  function Pick(routes: seq<Route>, best: map<U16, RouteKey>, q: Query): Option<Route> {
    if routes == [] then None
    else
      var b := Pick(routes[..|routes| - 1], best, q);
      var r := routes[|routes| - 1];
      if r.state.Usable() && r.Matches(q) && (b.Some? ==> Displaces(best, r, b.value)) then Some(r)
      else b
  }

  function BestFor(t: Table, s: U16): Option<Route> {
    Pick(t.routes, t.best, ByStart(s))
  }

  function BestForNet(t: Table, net: U16): Option<Route> {
    Pick(t.routes, t.best, ByNet(net))
  }

  function KeyOf(r: Option<Route>): Option<RouteKey> {
    if r.Some? then Some(r.value.Key()) else None
  }

  // ------------------------------------------------------------- listing

  /** The routes whose range starts at `s`, in table order. */
  function At(routes: seq<Route>, s: U16): seq<Route> {
    if routes == [] then []
    else
      var r := routes[|routes| - 1];
      At(routes[..|routes| - 1], s) + if r.Start() == s then [r] else []
  }

  function OfTarget(routes: seq<Route>, t: Target): seq<Route> {
    if routes == [] then []
    else
      var r := routes[|routes| - 1];
      OfTarget(routes[..|routes| - 1], t) + if r.target == t then [r] else []
  }

  /** Every range start once, first come first. */
  function Starts(routes: seq<Route>): seq<U16> {
    if routes == [] then []
    else
      var out := Starts(routes[..|routes| - 1]);
      var s := routes[|routes| - 1].Start();
      if s in out then out else out + [s]
  }

  function Snapshot(t: Table, starts: seq<U16>): seq<Option<Route>> {
    seq(|starts|, i requires 0 <= i < |starts| => BestFor(t, starts[i]))
  }

  // ------------------------------------------------------------- settling

  predicate Changed(before: Option<Route>, after: Option<Route>) {
    if before.Some? && after.Some? then
      before.value.target != after.value.target || before.value.distance != after.value.distance
    else before.Some? || after.Some?
  }

  function Reported(s: U16, before: Option<Route>, after: Option<Route>): seq<RouteChange> {
    if !Changed(before, after) then []
    else
      var range := if after.Some? then after.value.range
                   else if before.Some? then before.value.range else Range(s, s);
      [RouteChange(range, before, after)]
  }

  /** One start settled: its incumbent is the best, and without routes it has no zone list. */
  function SettleOne(t: Table, s: U16): Table {
    var chosen := BestFor(t, s);
    var best := if chosen.Some? then t.best[s := chosen.value.Key()] else t.best - {s};
    if At(t.routes, s) == [] then t.(zones := t.zones - {s}, best := best - {s})
    else t.(best := best)
  }

  function Settle(t: Table, starts: seq<U16>, before: seq<Option<Route>>): (Table, seq<RouteChange>)
    requires |starts| == |before|
  {
    if starts == [] then (t, [])
    else
      var n := |starts| - 1;
      var (u, cs) := Settle(t, starts[..n], before[..n]);
      (SettleOne(u, starts[n]), cs + Reported(starts[n], before[n], BestFor(u, starts[n])))
  }

  // ------------------------------------------------------------- learning

  predicate Blocks(r: Route, range: Range) {
    (r.range != range && r.range.Overlaps(range)) || (r.range == range && r.Direct())
  }

  predicate Blocked(routes: seq<Route>, range: Range) {
    exists i :: 0 <= i < |routes| && Blocks(routes[i], range)
  }

  function Position(routes: seq<Route>, range: Range, target: Target, next: Addr): (i: Option<nat>)
    ensures i.Some? ==> i.value < |routes| && routes[i.value].Is(range, target, next)
    ensures i.None? ==> forall j :: 0 <= j < |routes| ==> !routes[j].Is(range, target, next)
  {
    if routes == [] then None
    else
      var n := |routes| - 1;
      var i := Position(routes[..n], range, target, next);
      if i.Some? then i
      else if routes[n].Is(range, target, next) then Some(n)
      else assert routes == routes[..n] + [routes[n]]; None
  }

  predicate Unreachable(t: NetworkTuple) { t.distance >= MAX_HOPS && t.distance != NOTIFY }

  function Refreshed(r: Route, t: NetworkTuple, now: Time): Route
    requires !Unreachable(t)
  {
    if t.distance == NOTIFY then r.(extended := t.extended, state := Bad, seen := now)
    else r.(extended := t.extended, distance := t.distance + 1, state := Good, seen := now)
  }

  function LearnRoutes(routes: seq<Route>, t: NetworkTuple, target: Target, next: Addr, now: Time)
    : seq<Route>
  {
    match Position(routes, t.range, target, next)
    case Some(i) =>
      if Unreachable(t) then routes[..i] + routes[i + 1..]
      else routes[i := Refreshed(routes[i], t, now)]
    case None =>
      if Unreachable(t) || t.distance == NOTIFY then routes
      else routes + [Route(t.range, t.extended, t.distance + 1, target, next, Good, now)]
  }

  function Learn(t: Table, tuple: NetworkTuple, target: Target, next: Addr, now: Time)
    : (Table, seq<RouteChange>)
  {
    if Blocked(t.routes, tuple.range) then (t, [])
    else
      var s := tuple.range.lo;
      Settle(t.(routes := LearnRoutes(t.routes, tuple, target, next, now)), [s], Snapshot(t, [s]))
  }

  // ------------------------------------------------------------- sweeping

  /** The four operations that pass over every route once. */
  datatype Sweep =
    | Aging(now: Time)
    | DropTarget(target: Target)
    | DropStart(target: Target, start: U16)
    | Distance(target: Target, start: U16, distance: Byte, now: Time)

  /** One route at a validity tick; None is the end of it. */
  function AgeRoute(r: Route, now: Time): Option<Route> {
    if r.Direct() || r.target.Peer? || Since(now, r.seen) < VALIDITY then Some(r)
    else
      match r.state.Aged()
      case Some(s) => Some(r.(state := s, seen := now))
      case None => None
  }

  function SweepOne(w: Sweep, r: Route): Option<Route> {
    match w
    case Aging(now) => AgeRoute(r, now)
    case DropTarget(t) => if r.target == t then None else Some(r)
    case DropStart(t, s) => if r.target == t && r.Start() == s then None else Some(r)
    case Distance(t, s, d, now) =>
      if r.target == t && r.Start() == s then Some(r.(distance := d, seen := now)) else Some(r)
  }

  function SweepAll(w: Sweep, routes: seq<Route>): seq<Route> {
    if routes == [] then []
    else
      var kept := SweepAll(w, routes[..|routes| - 1]);
      match SweepOne(w, routes[|routes| - 1])
      case Some(r) => kept + [r]
      case None => kept
  }

  function SweptStarts(w: Sweep, routes: seq<Route>): seq<U16> {
    match w
    case Aging(_) => Starts(routes)
    case DropTarget(t) => Starts(OfTarget(routes, t))
    case DropStart(_, s) => [s]
    case Distance(_, s, _, _) => [s]
  }

  function Swept(t: Table, w: Sweep): (Table, seq<RouteChange>) {
    var starts := SweptStarts(w, t.routes);
    Settle(t.(routes := SweepAll(w, t.routes)), starts, Snapshot(t, starts))
  }

  // ------------------------------------------------------------- zones

  function AddNames(have: seq<Name>, names: seq<Name>): seq<Name> {
    if names == [] then have
    else
      var n := |names| - 1;
      var out := AddNames(have, names[..n]);
      if HoldsName(out, names[n]) then out else out + [names[n]]
  }

  predicate ZonesComplete(t: Table, s: U16) { s in t.zones && t.zones[s].1.Complete() }

  predicate Shareable(r: Option<Route>) {
    r.Some? && r.value.target.Port? && r.value.distance < MAX_HOPS
  }

  /** A start that goes into the export. */
  predicate Exportable(t: Table, s: U16) { Shareable(BestFor(t, s)) && ZonesComplete(t, s) }

  function ZonesOf(t: Table, s: U16): ZoneList {
    if s in t.zones then t.zones[s].1 else ZoneList([], None)
  }

  function MergedZones(z: ZoneList, names: seq<Name>, expected: Option<nat>): ZoneList {
    ZoneList(AddNames(z.names, names), if expected.Some? then expected else z.expected)
  }

  function AddZones(t: Table, s: U16, names: seq<Name>, expected: Option<nat>)
    : (Table, seq<RouteChange>)
  {
    var here := At(t.routes, s);
    if here == [] then (t, [])
    else
      var z := MergedZones(ZonesOf(t, s), names, expected);
      var u := t.(zones := t.zones[s := (here[0].range.hi, z)]);
      var b := BestFor(u, s);
      (u, if b.Some? && !Exportable(t, s) && Exportable(u, s)
          then [RouteChange(b.value.range, None, b)] else [])
  }

  // ------------------------------------------------------------- ports, export

  function AddPort(t: Table, port: nat, range: Range, extended: bool, zones: seq<Name>, now: Time): Table {
    Table(t.routes + [Route(range, extended, 0, Port(port), NO_NEXT, Good, now)],
          t.zones[range.lo := (range.hi, ZoneList(zones, None))],
          t.best[range.lo := RouteKey(Port(port), NO_NEXT)])
  }

  const EMPTY := Table([], map[], map[])

  function ExportOf(t: Table, starts: seq<U16>): seq<NetworkTuple> {
    if starts == [] then []
    else
      var n := |starts| - 1;
      var out := ExportOf(t, starts[..n]);
      if Exportable(t, starts[n]) then out + [BestFor(t, starts[n]).value.Tuple()] else out
  }

  /** The export: what is reached through ports, never what came through a tunnel. */
  function Export(t: Table): seq<NetworkTuple> { ExportOf(t, Starts(t.routes)) }

  /** How a start is announced on a port's cable: never back the way it is
      reached; notify-neighbour when nothing usable is left of it. */
  function Announced(t: Table, s: U16, port: nat): Option<NetworkTuple> {
    var here := At(t.routes, s);
    var b := if BestFor(t, s).Some? then BestFor(t, s) else if here != [] then Some(here[0]) else None;
    if b.None? || b.value.target == Port(port) then None
    else if !b.value.state.Usable() then Some(b.value.Tuple().(distance := NOTIFY))
    else if b.value.distance >= MAX_HOPS then None
    else Some(b.value.Tuple())
  }

  function BeaconOf(t: Table, starts: seq<U16>, port: nat): seq<NetworkTuple> {
    if starts == [] then []
    else
      var n := |starts| - 1;
      var out := BeaconOf(t, starts[..n], port);
      match Announced(t, starts[n], port)
      case Some(x) => out + [x]
      case None => out
  }

  /** The tuples an RTMP packet on `port` carries. */
  function Beacon(t: Table, port: nat): seq<NetworkTuple> { BeaconOf(t, Starts(t.routes), port) }

  // ------------------------------------------------------------- one step of any kind

  datatype Op =
    | OpLearn(tuple: NetworkTuple, target: Target, next: Addr, now: Time)
    | OpSweep(sweep: Sweep)
    | OpZones(start: U16, names: seq<Name>, expected: Option<nat>)

  function Step(t: Table, op: Op): (Table, seq<RouteChange>) {
    match op
    case OpLearn(tuple, target, next, now) => Learn(t, tuple, target, next, now)
    case OpSweep(w) => Swept(t, w)
    case OpZones(s, names, expected) => AddZones(t, s, names, expected)
  }
}
