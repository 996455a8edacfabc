/** Forwarding a datagram between ports and tunnels: what a hop costs, and why no
    loop, however the tables change, lives long. */
module Forwarding {
  import opened Wire
  import opened Table
  import opened TableTheorems
  import Ddp

  /** The link or tunnel a datagram came in by, or neither. */
  datatype Origin = FromPort(port: nat) | FromPeer(ip: nat) | FromHere

  predicate SendsBack(o: Origin, t: Target) {
    (o.FromPort? && t == Port(o.port)) || (o.FromPeer? && t == Peer(o.ip))
  }

  /** Crossing this router is free for what it made itself, and for what leaves a
      tunnel for a cable. */
  predicate Free(o: Origin, t: Target) { o.FromHere? || (o.FromPeer? && t.Port?) }

  /** Where a datagram goes and as what, or None when it is dropped. */
  function Forward(t: Table, o: Origin, d: Ddp.Datagram): Option<(Target, Ddp.Datagram)> {
    if d.hops >= MAX_HOPS then None
    else
      match BestForNet(t, d.dst.net)
      case None => None
      case Some(r) =>
        if SendsBack(o, r.target) then None
        else Some((r.target, if Free(o, r.target) then d else d.(hops := d.hops + 1)))
  }

  lemma HopsComeBack(d: Ddp.Datagram)
    requires d.hops <= MAX_HOPS
    ensures Ddp.Parse(Ddp.Encode(d)).Some? && Ddp.Parse(Ddp.Encode(d)).value.hops == d.hops
  {
    hide Ddp.Parse, Ddp.Encode;
    Ddp.ComesBack(d);
  }

  /** The hop count a router puts out always fits the four bits that carry it. */
  lemma HopsFitTheHeader(t: Table, o: Origin, d: Ddp.Datagram)
    ensures var r := Forward(t, o, d);
            r.Some? ==> r.value.1.hops <= MAX_HOPS
                        && Ddp.Parse(Ddp.Encode(r.value.1)).Some?
                        && Ddp.Parse(Ddp.Encode(r.value.1)).value.hops == r.value.1.hops
  {
    hide Ddp.Parse, Ddp.Encode, Pick;
    var r := Forward(t, o, d);
    if r.Some? { HopsComeBack(r.value.1); }
  }

  // ------------------------------------------------------------- what is forwarded

  /** A usable route whose range holds `net`. */
  ghost predicate Leads(r: Route, net: U16) { (r.state == Good || r.state == Suspect) && r.range.lo <= net <= r.range.hi }

  ghost predicate LeadsShortest(rs: seq<Route>, r: Route, net: U16) {
    r in rs && Leads(r, net) && forall q :: q in rs && Leads(q, net) ==> r.distance <= q.distance
  }

  lemma BestLeads(t: Table, net: U16)
    ensures BestForNet(t, net).Some? <==> exists r :: r in t.routes && Leads(r, net)
    ensures BestForNet(t, net).Some? ==> LeadsShortest(t.routes, BestForNet(t, net).value, net)
  {
    PickBounds(t.routes, t.best, ByNet(net));
    hide Pick;
    forall r | r in t.routes && Leads(r, net)
      ensures BestForNet(t, net).Some? && BestForNet(t, net).value.distance <= r.distance
    {
      var i :| 0 <= i < |t.routes| && t.routes[i] == r;
      assert Eligible(t.routes[i], ByNet(net));
    }
  }

  /** A datagram is passed on if and only if it has made fewer than 15 hops, some usable
      route covers its destination network, and the one chosen does not lead back. Then
      it goes the way of a shortest such route; it is charged a hop unless it was made
      here or leaves a tunnel for a cable; and nothing else of it changes. */
  lemma ForwardMeaning(t: Table, o: Origin, d: Ddp.Datagram)
    ensures Forward(t, o, d).Some? <==>
            && d.hops < 15 && (exists r :: r in t.routes && Leads(r, d.dst.net))
            && var b := BestForNet(t, d.dst.net);
               b.Some? &&
               match o
               case FromHere => true
               case FromPort(p) => b.value.target != Port(p)
               case FromPeer(ip) => b.value.target != Peer(ip)
    ensures match Forward(t, o, d)
            case None => true
            case Some((target, e)) =>
              && LeadsShortest(t.routes, BestForNet(t, d.dst.net).value, d.dst.net)
              && target == BestForNet(t, d.dst.net).value.target
              && e == d.(hops := if o.FromHere? || (o.FromPeer? && target.Port?) then d.hops else d.hops + 1)
  {
    BestLeads(t, d.dst.net);
    hide Pick, Leads, LeadsShortest;
  }

  // ------------------------------------------------------------- delivery along a chain

  datatype Dest = ToAll | ToNode(node: Byte)

  /** Who on the cable of the best route a datagram is handed to: on its own cable the node
      it is for, or everybody; on another the next router. */
  function Handed(t: Table, d: Ddp.Datagram): Option<Dest> {
    match BestForNet(t, d.dst.net)
    case None => None
    case Some(r) =>
      Some(if r.distance > 0 then ToNode(r.next.node) else if d.dst.node == 255 then ToAll else ToNode(d.dst.node))
  }

  /** A router a datagram comes to, by which link, and its node on that link. */
  datatype Stop = Stop(table: Table, origin: Origin, node: Byte)

  /** What goes to a peer comes out of a tunnel; what goes out of a port comes in off a
      cable, to the node it was handed to. */
  predicate Reaches(t: Table, target: Target, d: Ddp.Datagram, next: Stop) {
    if target.Peer? then next.origin.FromPeer? else next.origin.FromPort? && Handed(t, d) == Some(ToNode(next.node))
  }

  /** The best way on leads to this router. */
  predicate Meets(b: Option<Route>, next: Stop) {
    b.Some? && if b.value.target.Peer? then next.origin.FromPeer? else next.origin.FromPort? && next.node == b.value.next.node
  }

  /** A datagram passed from router to router, hop count and all. */
  function Travel(stops: seq<Stop>, d: Ddp.Datagram): Option<(Target, Ddp.Datagram)>
    requires stops != []
  {
    match Forward(stops[0].table, stops[0].origin, d)
    case None => None
    case Some((target, e)) =>
      if |stops| == 1 then Some((target, e))
      else if Reaches(stops[0].table, target, e, stops[1]) then Travel(stops[1..], e) else None
  }

  /** One router of a chain, `left` hops from the cable of `net`. */
  ghost predicate OnTheWay(stop: Stop, net: U16, left: nat) {
    var b := BestForNet(stop.table, net);
    && b.Some? && b.value.distance == left && (left == 0 ==> b.value.target.Port?)
    && !(stop.origin.FromPort? && b.value.target == Port(stop.origin.port))
    && !(stop.origin.FromPeer? && b.value.target == Peer(stop.origin.ip))
  }

  /** Routers whose distance to `net` falls by one at each, down to the one whose own
      cable it is, each reached the way the one before sends. */
  ghost predicate Chain(stops: seq<Stop>, net: U16) {
    && stops != []
    && (forall i :: 0 <= i < |stops| ==> OnTheWay(stops[i], net, |stops| - 1 - i))
    && (forall i :: 0 <= i < |stops| - 1 ==> Meets(BestForNet(stops[i].table, net), stops[i + 1]))
  }

  /** The hops a chain charges: none where a datagram is made, or leaves a tunnel for a
      cable. */
  function Charged(stops: seq<Stop>, net: U16): nat {
    if stops == [] then 0
    else
      var s, b := stops[0], BestForNet(stops[0].table, net);
      Charged(stops[1..], net)
      + if s.origin.FromHere? || (s.origin.FromPeer? && b.Some? && b.value.target.Port?) then 0 else 1
  }

  lemma ChainRest(stops: seq<Stop>, net: U16)
    requires Chain(stops, net) && |stops| > 1
    ensures Chain(stops[1..], net) && OnTheWay(stops[0], net, |stops| - 1)
    ensures Meets(BestForNet(stops[0].table, net), stops[1])
  {
    hide OnTheWay, Meets;
    var rest := stops[1..];
    forall i | 0 <= i < |rest| ensures OnTheWay(rest[i], net, |rest| - 1 - i) { assert OnTheWay(stops[i + 1], net, |stops| - 2 - i); }
    forall i | 0 <= i < |rest| - 1 ensures Meets(BestForNet(rest[i].table, net), rest[i + 1]) {
      assert Meets(BestForNet(stops[i + 1].table, net), stops[i + 2]);
    }
    assert OnTheWay(stops[0], net, |stops| - 1);
    assert Meets(BestForNet(stops[0].table, net), stops[0 + 1]);
  }

  lemma OneStop(stop: Stop, net: U16, left: nat, d: Ddp.Datagram)
    requires OnTheWay(stop, net, left) && d.dst.net == net
    ensures var free := stop.origin.FromHere? || (stop.origin.FromPeer? && BestForNet(stop.table, net).value.target.Port?);
            Forward(stop.table, stop.origin, d) ==
            if d.hops >= 15 then None
            else Some((BestForNet(stop.table, net).value.target, d.(hops := if free then d.hops else d.hops + 1)))
  {
    hide Pick;
  }

  lemma OnwardReaches(stop: Stop, next: Stop, net: U16, left: nat, d: Ddp.Datagram)
    requires OnTheWay(stop, net, left) && left > 0 && d.dst.net == net && Meets(BestForNet(stop.table, net), next)
    ensures Reaches(stop.table, BestForNet(stop.table, net).value.target, d, next)
  {
    hide Pick;
  }

  /** Delivery: along such a chain a datagram reaches the cable it is for, charged hop by
      hop and otherwise as it was, if and only if it has made fewer than 15 hops when it
      comes to the last router; and there it is handed to the node it is for. */
  lemma {:induction false} ChainDelivers(stops: seq<Stop>, d: Ddp.Datagram)
    requires Chain(stops, d.dst.net)
    ensures var net, last := d.dst.net, |stops| - 1;
            var room := d.hops + Charged(stops[..last], net) < 15;
            && BestForNet(stops[last].table, net).Some? && BestForNet(stops[last].table, net).value.target.Port?
            && Handed(stops[last].table, d) == Some(if d.dst.node == 255 then ToAll else ToNode(d.dst.node))
            && (Travel(stops, d).Some? <==> room)
            && (room ==> d.hops + Charged(stops, net) <= 15
                         && Travel(stops, d) == Some((BestForNet(stops[last].table, net).value.target,
                                                      d.(hops := d.hops + Charged(stops, net)))))
    decreases |stops|
  {
    var net, last := d.dst.net, |stops| - 1;
    assert OnTheWay(stops[last], net, 0);
    assert OnTheWay(stops[0], net, last);
    OneStop(stops[0], net, last, d);
    if last > 0 {
      ChainRest(stops, net);
      assert Forward(stops[0].table, stops[0].origin, d).Some? ==>
               Reaches(stops[0].table, BestForNet(stops[0].table, net).value.target, Forward(stops[0].table, stops[0].origin, d).value.1, stops[1])
      by {
        if Forward(stops[0].table, stops[0].origin, d).Some? {
          OnwardReaches(stops[0], stops[1], net, last, Forward(stops[0].table, stops[0].origin, d).value.1);
        }
      }
      assert stops[..last][1..] == stops[1..][..last - 1];
      assert Charged(stops[..last], net) == Charged(stops[1..][..last - 1], net) + Charged(stops, net) - Charged(stops[1..], net);
      hide Chain, Forward, OnTheWay, Reaches, Handed;
      var f := Forward(stops[0].table, stops[0].origin, d);
      if f.Some? { ChainDelivers(stops[1..], f.value.1); }
    } else {
      assert stops[1..] == [] && stops[..last] == [];
    }
  }

  // ------------------------------------------------------------- why a cable is its own best route

  /** A port of a router as it was configured; its number is its place in the list. */
  datatype PortSpec = PortSpec(range: Range, extended: bool, zones: seq<Name>)

  /** Ranges in order, none overlapping another. */
  ghost predicate ConfigOk(ports: seq<PortSpec>) {
    && (forall i :: 0 <= i < |ports| ==> ports[i].range.WellFormed())
    && (forall i, j :: 0 <= i < j < |ports| ==> !ports[i].range.Overlaps(ports[j].range))
  }

  /** The tables a router starts with. */
  function Configured(ports: seq<PortSpec>, now: Time): Table {
    if ports == [] then EMPTY
    else
      var n := |ports| - 1;
      AddPort(Configured(ports[..n], now), n, ports[n].range, ports[n].extended, ports[n].zones, now)
  }

  function PortRoute(p: PortSpec, port: nat, now: Time): Route {
    Route(p.range, p.extended, 0, Port(port), NO_NEXT, Good, now)
  }

  lemma {:induction false} ConfiguredRoutes(ports: seq<PortSpec>, now: Time)
    ensures var rs := Configured(ports, now).routes;
            |rs| == |ports| && forall i :: 0 <= i < |ports| ==> rs[i] == PortRoute(ports[i], i, now)
  {
    if ports != [] { ConfiguredRoutes(ports[..|ports| - 1], now); }
  }

  /** A directly attached network stands alone in the table: nothing else overlaps it. */
  ghost predicate Attached(rs: seq<Route>, r: Route) {
    && r in rs && r.Direct() && r.state == Good
    && (forall i :: 0 <= i < |rs| ==> rs[i] == r || !rs[i].range.Overlaps(r.range))
  }

  lemma ConfiguredAttaches(ports: seq<PortSpec>, now: Time, i: nat)
    requires ConfigOk(ports) && i < |ports|
    ensures Attached(Configured(ports, now).routes, PortRoute(ports[i], i, now))
  {
    ConfiguredRoutes(ports, now);
    hide Configured;
    var rs := Configured(ports, now).routes;
    assert rs[i] == PortRoute(ports[i], i, now);
    forall j | 0 <= j < |rs| && j != i ensures !rs[j].range.Overlaps(ports[i].range) {
      assert rs[j] == PortRoute(ports[j], j, now);
    }
  }

  /** What RTMP and the tunnels ask of a table; they never sweep a port away. */
  ghost predicate LeavesPorts(op: Op) {
    match op
    case OpSweep(DropTarget(t)) => t.Peer?
    case OpSweep(DropStart(t, _)) => t.Peer?
    case OpSweep(Distance(t, _, _, _)) => t.Peer?
    case _ => true
  }

  lemma LearningKeepsAttached(rs: seq<Route>, x: NetworkTuple, target: Target, next: Addr, now: Time, r: Route)
    requires Attached(rs, r) && !Blocked(rs, x.range)
    ensures Attached(LearnRoutes(rs, x, target, next, now), r)
  {
    var k :| 0 <= k < |rs| && rs[k] == r;
    assert !Blocks(rs[k], x.range);
    LearnSparesOthers(rs, x, target, next, now, r);
  }

  lemma SweepingKeepsAttached(rs: seq<Route>, w: Sweep, r: Route)
    requires Attached(rs, r) && LeavesPorts(OpSweep(w))
    ensures Attached(SweepAll(w, rs), r)
  {
    hide SweepAll;
    SweepKeepsMember(w, rs, r);
    SweptComeFrom(w, rs);
    var out := SweepAll(w, rs);
    forall i | 0 <= i < |out| ensures out[i] == r || !out[i].range.Overlaps(r.range) {
      assert ComesFrom(w, rs, out[i]);
      var j :| 0 <= j < |rs| && SweepOne(w, rs[j]) == Some(out[i]);
    }
  }

  /** Nothing RTMP or the tunnels do takes a port's own network away, or puts a
      second route across it. */
  lemma AttachedStays(t: Table, op: Op, r: Route)
    requires Attached(t.routes, r) && LeavesPorts(op)
    ensures Attached(Step(t, op).0.routes, r)
  {
    hide Attached, Step, LearnRoutes, SweepAll, Blocked;
    StepRoutes(t, op);
    match op
    case OpLearn(x, target, next, now) =>
      if !Blocked(t.routes, x.range) { LearningKeepsAttached(t.routes, x, target, next, now, r); }
    case OpSweep(w) => SweepingKeepsAttached(t.routes, w, r);
    case OpZones(_, _, _) =>
  }

  lemma {:induction false} AttachedForGood(t: Table, ops: seq<Op>, r: Route)
    requires Attached(t.routes, r) && forall i :: 0 <= i < |ops| ==> LeavesPorts(ops[i])
    ensures Attached(Run(t, ops).0.routes, r)
  {
    hide Attached, Step, LeavesPorts;
    if ops != [] {
      var n := |ops| - 1;
      AttachedForGood(t, ops[..n], r);
      AttachedStays(Run(t, ops[..n]).0, ops[n], r);
    }
  }

  /** A port of the router's own is the best way to `net`. */
  ghost predicate OnCable(t: Table, port: nat, net: U16) {
    BestForNet(t, net).Some? && BestForNet(t, net).value.target == Port(port)
  }

  /** So a router never forwards what a cable hands it for that same cable. */
  lemma AttachedIsBest(t: Table, r: Route, net: U16)
    requires Attached(t.routes, r) && r.range.Contains(net)
    ensures OnCable(t, r.target.port, net)
  {
    PickBounds(t.routes, t.best, ByNet(net));
    var k :| 0 <= k < |t.routes| && t.routes[k] == r;
    assert Eligible(t.routes[k], ByNet(net));
    var b := BestForNet(t, net).value;
    var i :| 0 <= i < |t.routes| && t.routes[i] == b;
  }

  ghost predicate ComesTo(ports: seq<PortSpec>, now: Time, ops: seq<Op>, t: Table) {
    (forall i :: 0 <= i < |ops| ==> LeavesPorts(ops[i])) && t == Run(Configured(ports, now), ops).0
  }

  /** A router's tables at some time: configured once, then moved by anything that RTMP,
      ZIP and the tunnels ask for, well-formed or not. */
  ghost predicate Reached(t: Table, ports: seq<PortSpec>) {
    exists now: Time, ops: seq<Op> :: ComesTo(ports, now, ops, t)
  }

  /** Whatever a router has heard since it was configured, the best way to a network of
      its own is its own port. */
  lemma OwnCableIsBest(t: Table, ports: seq<PortSpec>, port: nat, net: U16)
    requires ConfigOk(ports) && Reached(t, ports) && port < |ports| && ports[port].range.Contains(net)
    ensures OnCable(t, port, net)
  {
    var now: Time, ops: seq<Op> :| ComesTo(ports, now, ops, t);
    hide Attached, Configured, Run, OnCable;
    var r := PortRoute(ports[port], port, now);
    ConfiguredAttaches(ports, now, port);
    AttachedForGood(Configured(ports, now), ops, r);
    AttachedIsBest(t, r, net);
  }

  // ------------------------------------------------------------- journeys

  /** On LocalTalk a datagram within the cable's own network goes out under the
      short header, which has no room for a hop count. */
  datatype Header = Long | Short

  /** One router's turn: how it was configured, its table then, where the datagram came
      from, and what arrived. */
  datatype Turn = Turn(ports: seq<PortSpec>, table: Table, origin: Origin, datagram: Ddp.Datagram)

  ghost predicate Running(a: Turn) { ConfigOk(a.ports) && Reached(a.table, a.ports) }

  /** The next router takes what this one sent: off a tunnel from a tunnel, off a
      cable from a cable; with the hop count it was sent with, unless the short
      header lost it, and then the port it came in by fills in its own network. */
  ghost predicate Passes(a: Turn, b: Turn, h: Header) {
    var sent := Forward(a.table, a.origin, a.datagram);
    && sent.Some?
    && (sent.value.0.Peer? ==> b.origin.FromPeer? && h == Long)
    && (sent.value.0.Port? ==> b.origin.FromPort?)
    && match h
       case Long => b.datagram.hops == sent.value.1.hops
       case Short =>
         && b.origin.FromPort? && b.origin.port < |b.ports|
         && b.datagram.dst.net == b.ports[b.origin.port].range.lo
  }

  ghost predicate PassesAt(turns: seq<Turn>, headers: seq<Header>, i: nat)
    requires i < |headers| && i + 1 < |turns|
  {
    Passes(turns[i], turns[i + 1], headers[i])
  }

  ghost predicate Journey(turns: seq<Turn>, headers: seq<Header>) {
    && turns != [] && |headers| == |turns| - 1
    && (forall i :: 0 <= i < |turns| ==> Running(turns[i]))
    && forall i :: 0 <= i < |headers| ==> PassesAt(turns, headers, i)
  }

  /** How many more times a datagram can be forwarded from here. */
  function Left(o: Origin, hops: Byte): int {
    var n := 2 * (MAX_HOPS - hops);
    match o
    case FromHere => n + 1
    case FromPeer(_) => n
    case FromPort(_) => n - 1
  }

  /** A datagram that arrives under the short header goes no further. */
  lemma ShortHeaderEnds(a: Turn, b: Turn)
    requires Running(b) && Passes(a, b, Short)
    ensures Forward(b.table, b.origin, b.datagram) == None
  {
    assert b.ports[b.origin.port].range.WellFormed();
    hide Reached, Configured, Pick;
    OwnCableIsBest(b.table, b.ports, b.origin.port, b.datagram.dst.net);
  }

  /** Every journey ends: no two consecutive steps are free, so from `h` hops a
      datagram that arrived is forwarded at most 2 * (15 - h) more times. */
  lemma {:induction false} JourneysEnd(turns: seq<Turn>, headers: seq<Header>)
    requires Journey(turns, headers)
    requires Forward(turns[|turns| - 1].table, turns[|turns| - 1].origin, turns[|turns| - 1].datagram).Some?
    ensures |turns| <= Left(turns[0].origin, turns[0].datagram.hops)
    decreases |turns|
  {
    hide Running;
    var a := turns[0];
    if |turns| > 1 {
      var rest, hs := turns[1..], headers[1..];
      assert PassesAt(turns, headers, 0);
      forall i | 0 <= i < |hs| ensures PassesAt(rest, hs, i) { assert PassesAt(turns, headers, i + 1); }
      if headers[0].Short? { ShortHeaderEnds(a, turns[1]); }
      if |turns| > 2 { assert PassesAt(turns, headers, 1); }
      assert headers[0].Long?;
      JourneysEnd(rest, hs);
    }
  }

  lemma ArrivedDatagramsDie(turns: seq<Turn>, headers: seq<Header>)
    requires Journey(turns, headers) && !turns[0].origin.FromHere?
    requires Forward(turns[|turns| - 1].table, turns[|turns| - 1].origin, turns[|turns| - 1].datagram).Some?
    ensures |turns| <= 2 * (MAX_HOPS - turns[0].datagram.hops)
  {
    JourneysEnd(turns, headers);
  }
}
