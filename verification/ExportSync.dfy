/** What a peer can reconstruct stays in step with what the table exports: the
    event queue, the collapse of events, the paged export and the updates. */
module ExportSync {
  import opened Wire
  import opened Table
  import opened TableTheorems
  import opened Paging
  import opened Aurp
  import ZoneDistribution

  // ------------------------------------------------------------- what a peer knows

  /** Range start to the distance the sender reported. */
  type View = map<U16, Byte>

  /** The receiver's rules for one event, seen per network. */
  function HearEvent(v: View, e: Event): View {
    var s, d := e.Start(), e.tuple.distance;
    match e.code
    case NA => if d < MAX_HOPS then v[s := d] else v
    case ND => v - {s}
    case NRC => v - {s}
    case NDC => if d < MAX_HOPS then v[s := d] else v - {s}
    case Null => v
    case ZC => v
  }

  function HearEvents(v: View, es: seq<Event>): View {
    if es == [] then v else HearEvent(HearEvents(v, es[..|es| - 1]), es[|es| - 1])
  }

  function HearTuples(v: View, ts: seq<NetworkTuple>): View {
    if ts == [] then v
    else
      var n := |ts| - 1;
      var w := HearTuples(v, ts[..n]);
      if ts[n].distance < MAX_HOPS then w[ts[n].range.lo := ts[n].distance] else w
  }

  function Hear(v: View, c: Cmd): View {
    match c
    case RiRsp(_, ts) => HearTuples(v, ts)
    case RiUpd(es) => HearEvents(v, es)
    case _ => v
  }

  // ------------------------------------------------------------- pending events

  function PendingAt(pending: seq<Event>, s: U16): Option<Event> {
    match FindStart(pending, s) case None => None case Some(i) => Some(pending[i])
  }

  /** At most one event per network. */
  ghost predicate OneEach(pending: seq<Event>) {
    forall i, j :: 0 <= i < j < |pending| ==> pending[i].Start() != pending[j].Start()
  }

  lemma PendingMeaning(pending: seq<Event>, i: nat)
    requires OneEach(pending) && i < |pending|
    ensures PendingAt(pending, pending[i].Start()) == Some(pending[i])
  {
  }

  function CollapsedWith(p: Option<Event>, e: Event): Option<Event> {
    match p case None => Some(e) case Some(x) => Collapsed(x, e)
  }

  lemma Appended(pending: seq<Event>, e: Event, s: U16)
    requires OneEach(pending) && FindStart(pending, e.Start()).None?
    ensures OneEach(pending + [e])
    ensures PendingAt(pending + [e], s) == if s == e.Start() then Some(e) else PendingAt(pending, s)
  {
    hide FindStart;
    var out, f := pending + [e], FindStart(pending, s);
    if f.Some? { PendingMeaning(out, f.value); }
    if s == e.Start() { PendingMeaning(out, |pending|); }
  }

  lemma Replaced(pending: seq<Event>, i: nat, c: Event, s: U16)
    requires OneEach(pending) && i < |pending| && c.Start() == pending[i].Start()
    ensures OneEach(pending[i := c])
    ensures PendingAt(pending[i := c], s) == if s == c.Start() then Some(c) else PendingAt(pending, s)
  {
    hide FindStart;
    var out, f := pending[i := c], FindStart(pending, s);
    if f.Some? { PendingMeaning(out, f.value); }
    if s == c.Start() { PendingMeaning(out, i); }
  }

  lemma Removed(pending: seq<Event>, i: nat, s: U16)
    requires OneEach(pending) && i < |pending|
    ensures OneEach(pending[..i] + pending[i + 1..])
    ensures PendingAt(pending[..i] + pending[i + 1..], s) == if s == pending[i].Start() then None else PendingAt(pending, s)
  {
    hide FindStart;
    var out, f := pending[..i] + pending[i + 1..], FindStart(pending, s);
    assert forall a :: 0 <= a < |out| ==> out[a] == pending[if a < i then a else a + 1];
    if f.Some? && f.value != i {
      var k := if f.value < i then f.value else f.value - 1;
      assert out[k] == pending[f.value];
      PendingMeaning(out, k);
    }
  }

  /** Queueing keeps one event per network, collapses at its own network, and
      leaves every other network alone. */
  lemma QueuedMeaning(pending: seq<Event>, e: Event, s: U16)
    requires OneEach(pending)
    ensures OneEach(Queued(pending, e))
    ensures PendingAt(Queued(pending, e), s) ==
            if s == e.Start() then CollapsedWith(PendingAt(pending, s), e) else PendingAt(pending, s)
  {
    hide FindStart, OneEach;
    match FindStart(pending, e.Start())
    case None => Appended(pending, e, s);
    case Some(i) =>
      PendingMeaning(pending, i);
      match Collapsed(pending[i], e)
      case None => Removed(pending, i, s);
      case Some(c) => Replaced(pending, i, c, s);
  }

  predicate Withdraws(e: Event) { e.code == ND || e.code == NRC }

  /** What is pending for a network once a newer event is queued: nothing, when it was to
      be added and is withdrawn; still an addition, when it was to be added and moved; a
      change of distance, when it was to be withdrawn and is back; else the newer event. */
  lemma LastWordStands(pending: seq<Event>, e: Event)
    requires OneEach(pending)
    ensures var was, now := PendingAt(pending, e.Start()), PendingAt(Queued(pending, e), e.Start());
            if was.Some? && was.value.code == NA && Withdraws(e) then now == None
            else if was.Some? && was.value.code == NA && e.code == NDC then now == Some(Event(NA, e.tuple))
            else if was.Some? && Withdraws(was.value) && e.code == NA then now == Some(Event(NDC, e.tuple))
            else now == Some(e)
  {
    QueuedMeaning(pending, e, e.Start());
    hide Queued, FindStart;
  }

  // ------------------------------------------------------------- in step, per network

  /** A network the peer hears of as `v`, with `p` still pending, exported at `e`. */
  ghost predicate Agrees(v: Option<Byte>, p: Option<Event>, e: Option<Byte>) {
    match p
    case None => v == e
    case Some(x) =>
      match x.code
      case NA => v == None && e == Some(x.tuple.distance)
      case NDC => e == Some(x.tuple.distance)
      case ND => e == None
      case NRC => e == None
      case _ => false
  }

  ghost predicate InStep(v: View, pending: seq<Event>, t: Table) {
    && OneEach(pending)
    && (forall s: U16 :: Agrees(Get(v, s), PendingAt(pending, s), Exported(t, s)))
  }

  /** Hearing what is pending brings a network to its goal, whichever events for
      other networks come before or after. */
  lemma {:induction false} HearPending(v: View, pending: seq<Event>, n: nat, s: U16, goal: Option<Byte>)
    requires OneEach(pending) && n <= |pending|
    requires Agrees(Get(v, s), PendingAt(pending, s), goal) && (goal.Some? ==> goal.value < MAX_HOPS)
    ensures Get(HearEvents(v, pending[..n]), s) ==
            if FindStart(pending, s).Some? && FindStart(pending, s).value < n then goal else Get(v, s)
  {
    if n > 0 {
      HearPending(v, pending, n - 1, s, goal);
      assert pending[..n][..n - 1] == pending[..n - 1];
      PendingMeaning(pending, n - 1);
    }
  }

  lemma PendingReachesGoal(v: View, pending: seq<Event>, s: U16, goal: Option<Byte>)
    requires OneEach(pending) && Agrees(Get(v, s), PendingAt(pending, s), goal)
    requires goal.Some? ==> goal.value < MAX_HOPS
    ensures Get(HearEvents(v, pending), s) == goal
  {
    HearPending(v, pending, |pending|, s, goal);
    assert pending[..|pending|] == pending;
  }

  /** In step means: once it has heard what is pending, the peer knows exactly
      the exported networks, each at its exported distance. */
  lemma InStepMeansExport(v: View, pending: seq<Event>, t: Table, s: U16)
    requires InStep(v, pending, t)
    ensures Get(HearEvents(v, pending), s) == Exported(t, s)
  {
    assert Agrees(Get(v, s), PendingAt(pending, s), Exported(t, s));
    PendingReachesGoal(v, pending, s, Exported(t, s));
  }

  // ------------------------------------------------------------- collapsing events

  function QueuedEvents(es: seq<Event>): seq<Event> {
    if es == [] then [] else Queued(QueuedEvents(es[..|es| - 1]), es[|es| - 1])
  }

  /** Events as a sender raises them: reachable distances, real codes, and an
      addition only for a network the peer would lack. */
  ghost predicate Sensible(v: View, es: seq<Event>) {
    forall i :: 0 <= i < |es| ==>
      && es[i].tuple.distance < MAX_HOPS && es[i].code != Null && es[i].code != ZC
      && (es[i].code == NA ==> es[i].Start() !in HearEvents(v, es[..i]))
  }

  lemma SensiblePrefix(v: View, es: seq<Event>)
    requires es != [] && Sensible(v, es)
    ensures Sensible(v, es[..|es| - 1])
  {
    var n := |es| - 1;
    forall i | 0 <= i < n
      ensures es[i].code == NA ==> es[i].Start() !in HearEvents(v, es[..n][..i])
    {
      assert es[..n][..i] == es[..i];
    }
  }

  /** One event, heard at once or collapsed into what is pending. */
  lemma EventAgrees(v: Option<Byte>, p: Option<Event>, w: View, e: Event)
    requires Agrees(v, p, Get(w, e.Start())) && e.tuple.distance < MAX_HOPS && e.code != Null && e.code != ZC
    requires e.code == NA ==> e.Start() !in w
    ensures Agrees(v, CollapsedWith(p, e), Get(HearEvent(w, e), e.Start()))
  {
  }

  lemma HearEventElsewhere(w: View, e: Event, s: U16)
    requires s != e.Start()
    ensures Get(HearEvent(w, e), s) == Get(w, s)
  {
  }

  lemma {:induction false} CollapseAgrees(v: View, es: seq<Event>, s: U16)
    requires Sensible(v, es)
    ensures OneEach(QueuedEvents(es))
    ensures Agrees(Get(v, s), PendingAt(QueuedEvents(es), s), Get(HearEvents(v, es), s))
  {
    if es != [] {
      var n := |es| - 1;
      SensiblePrefix(v, es);
      CollapseAgrees(v, es[..n], s);
      hide OneEach, Queued, PendingAt, Agrees, CollapsedWith, HearEvent;
      QueuedMeaning(QueuedEvents(es[..n]), es[n], s);
      if s == es[n].Start() {
        EventAgrees(Get(v, s), PendingAt(QueuedEvents(es[..n]), s), HearEvents(v, es[..n]), es[n]);
      } else {
        HearEventElsewhere(HearEvents(v, es[..n]), es[n], s);
      }
    }
  }

  /** The collapsed queue holds one event per network and tells a peer exactly
      what the whole stream of events would have told it. */
  lemma CollapseRefinesStream(v: View, es: seq<Event>)
    requires Sensible(v, es) && forall s :: s in v ==> v[s] < MAX_HOPS
    ensures OneEach(QueuedEvents(es))
    ensures HearEvents(v, QueuedEvents(es)) == HearEvents(v, es)
  {
    CollapseAgrees(v, es, 0);
    var a, b := HearEvents(v, QueuedEvents(es)), HearEvents(v, es);
    forall s: U16 ensures Get(a, s) == Get(b, s) {
      CollapseAgrees(v, es, s);
      HearEventsBounded(v, es, s);
      PendingReachesGoal(v, QueuedEvents(es), s, Get(b, s));
    }
    SameView(a, b);
  }

  lemma {:induction false} HearEventsBounded(v: View, es: seq<Event>, s: U16)
    requires forall z :: z in v ==> v[z] < MAX_HOPS
    ensures s in HearEvents(v, es) ==> HearEvents(v, es)[s] < MAX_HOPS
  {
    if es != [] { HearEventsBounded(v, es[..|es| - 1], s); }
  }

  lemma SameView(a: View, b: View)
    requires forall s: U16 :: Get(a, s) == Get(b, s)
    ensures a == b
  {
    forall s | s in a ensures s in b && a[s] == b[s] { assert Get(a, s) == Get(b, s); }
    forall s | s in b ensures s in a { assert Get(a, s) == Get(b, s); }
  }

  /** Sending everything pending leaves the peer in step with nothing pending. */
  lemma FlushKeepsStep(v: View, pending: seq<Event>, t: Table)
    requires InStep(v, pending, t)
    ensures InStep(HearEvents(v, pending), [], t)
  {
    forall s: U16 ensures Agrees(Get(HearEvents(v, pending), s), None, Exported(t, s)) {
      InStepMeansExport(v, pending, t, s);
    }
  }

  // ------------------------------------------------------------- one change at one network

  /** What a shareable best route is worth, given whether the zones are complete. */
  function Worth(b: Option<Route>, complete: bool): Option<Byte> {
    if Shareable(b) && complete then Some(b.value.distance) else None
  }

  function After(p: Option<Event>, e: Option<Event>): Option<Event> {
    match e case None => p case Some(x) => CollapsedWith(p, x)
  }

  /** The event a change gives rise to, given whether the zones are complete at
      the end: the collapse leaves the network agreeing with its new worth. */
  lemma OneChangeAgrees(v: Option<Byte>, p: Option<Event>, u: Table, c: RouteChange, complete: bool)
    requires StartsThere(c.before, c.range.lo) && StartsThere(c.after, c.range.lo)
    requires ZonesComplete(u, c.range.lo) ==> complete
    requires Agrees(v, p, Worth(c.before, complete))
    ensures Agrees(v, After(p, EventFor(u, c)), Worth(c.after, ZonesComplete(u, c.range.lo)))
    ensures EventFor(u, c).Some? ==> EventFor(u, c).value.Start() == c.range.lo
  {
  }

  /** The event code for a network exported at `was` before and at `now` after, its
      best route afterwards through a tunnel or not: NRC is a network that split
      horizon hides, ND one that is gone. */
  function CodeFor(was: Option<Byte>, now: Option<Byte>, tunnelled: bool): Option<Code> {
    match (was, now)
    case (None, None) => None
    case (None, Some(_)) => Some(NA)
    case (Some(_), None) => Some(if tunnelled then NRC else ND)
    case (Some(a), Some(b)) => if a == b then None else Some(NDC)
  }

  /** What a change of best route is to a peer follows from what was exported before
      and what is exported now, provided the zone list was complete before; it names
      the network's range, and the distance it is exported at if it is. */
  lemma EventSaysWhatBecame(t: Table, u: Table, c: RouteChange)
    requires var s := c.range.lo; c.before == BestFor(t, s) && c.after == BestFor(u, s) && ZonesComplete(t, s)
    ensures var s := c.range.lo;
            var tunnelled := BestFor(u, s).Some? && BestFor(u, s).value.target.Peer?;
            match EventFor(u, c)
            case None => CodeFor(Exported(t, s), Exported(u, s), tunnelled) == None
            case Some(e) =>
              && CodeFor(Exported(t, s), Exported(u, s), tunnelled) == Some(e.code) && e.Start() == s
              && e.tuple.range == (if Exported(u, s).Some? then BestFor(u, s).value.range else BestFor(t, s).value.range)
              && e.tuple.extended == (if Exported(u, s).Some? then BestFor(u, s).value.extended else BestFor(t, s).value.extended)
              && e.tuple.distance == (if Exported(u, s).Some? then Exported(u, s).value else 0)
  {
    BestStartsThere(t, c.range.lo);
    BestStartsThere(u, c.range.lo);
  }

  // ------------------------------------------------------------- a batch of operations

  /** The changes of one operation are about the starts they name. */
  lemma ChangesStartThere(t: Table, u: Table, cs: seq<RouteChange>, k: nat)
    requires Follows(t, u, cs) && k < |cs|
    ensures ChangeAt(cs, cs[k].range.lo) == Some(cs[k])
    ensures StartsThere(cs[k].before, cs[k].range.lo) && StartsThere(cs[k].after, cs[k].range.lo)
  {
    ChangeAtSelf(cs, k);
    assert FollowsAt(t, u, cs, cs[k].range.lo);
    BestStartsThere(t, cs[k].range.lo);
    BestStartsThere(u, cs[k].range.lo);
  }

  lemma {:induction false} ChangeAtSelf(cs: seq<RouteChange>, k: nat)
    requires OnePerStart(cs) && k < |cs|
    ensures ChangeAt(cs, cs[k].range.lo) == Some(cs[k])
  {
    if k < |cs| - 1 {
      ChangeAtSelf(cs[..|cs| - 1], k);
    }
  }

  lemma {:induction false} ChangeAtIn(cs: seq<RouteChange>, s: U16)
    ensures ChangeAt(cs, s).Some? ==> ChangeAt(cs, s).value in cs && ChangeAt(cs, s).value.range.lo == s
    ensures ChangeAt(cs, s).None? ==> forall i :: 0 <= i < |cs| ==> cs[i].range.lo != s
  {
    if cs != [] { ChangeAtIn(cs[..|cs| - 1], s); }
  }

  ghost predicate ChangesOk(cs: seq<RouteChange>) {
    forall i :: 0 <= i < |cs| ==> StartsThere(cs[i].before, cs[i].range.lo) && StartsThere(cs[i].after, cs[i].range.lo)
  }

  lemma EventStartsThere(u: Table, c: RouteChange)
    requires StartsThere(c.before, c.range.lo) && StartsThere(c.after, c.range.lo)
    ensures EventFor(u, c).Some? ==> EventFor(u, c).value.Start() == c.range.lo
  {
  }

  /** Queueing the events of one operation touches each network at most once. */
  lemma {:induction false} QueuedAllAt(pending: seq<Event>, cs: seq<RouteChange>, u: Table, s: U16)
    requires OneEach(pending) && OnePerStart(cs) && ChangesOk(cs)
    ensures OneEach(QueuedAll(pending, cs, u))
    ensures PendingAt(QueuedAll(pending, cs, u), s) ==
            match ChangeAt(cs, s)
            case None => PendingAt(pending, s)
            case Some(c) => After(PendingAt(pending, s), EventFor(u, c))
  {
    if cs != [] {
      var n := |cs| - 1;
      QueuedAllAt(pending, cs[..n], u, s);
      EventStartsThere(u, cs[n]);
      var e := EventFor(u, cs[n]);
      if e.Some? { QueuedMeaning(QueuedAll(pending, cs[..n], u), e.value, s); }
      if cs[n].range.lo == s { ChangeAtIn(cs[..n], s); }
    }
  }

  lemma {:induction false} QueuedAllConcat(pending: seq<Event>, cs: seq<RouteChange>, ds: seq<RouteChange>, u: Table)
    ensures QueuedAll(pending, cs + ds, u) == QueuedAll(QueuedAll(pending, cs, u), ds, u)
  {
    if ds == [] {
      assert cs + ds == cs;
    } else {
      var n := |ds| - 1;
      assert (cs + ds)[..|cs + ds| - 1] == cs + ds[..n];
      QueuedAllConcat(pending, cs, ds[..n], u);
    }
  }

  ghost predicate RouteOps(ops: seq<Op>) {
    forall i :: 0 <= i < |ops| ==> OpOk(ops[i]) && !ops[i].OpZones?
  }

  /** Zone lists are only lost with the last route, and only then incomplete. */
  lemma {:induction false} BatchZones(t: Table, ops: seq<Op>, s: U16)
    requires Inv(t) && RouteOps(ops)
    ensures Inv(Run(t, ops).0)
    ensures ZonesComplete(Run(t, ops).0, s) ==> ZonesComplete(t, s)
    ensures var (u, cs) := Run(t, ops);
            ZonesComplete(t, s) && !ZonesComplete(u, s) && BestFor(u, s).Some? ==> ChangeAt(cs, s).Some?
    ensures ChangeAt(Run(t, ops).1, s).None? ==> !Changed(BestFor(t, s), BestFor(Run(t, ops).0, s))
  {
    if ops != [] {
      var n := |ops| - 1;
      BatchZones(t, ops[..n], s);
      var (u, cs) := Run(t, ops[..n]);
      var (w, ds) := Step(u, ops[n]);
      StepKeepsInv(u, ops[n]);
      assert FollowsAt(u, w, ds, s);
      BestStartsThere(w, s);
      ChangeAtConcat(cs, ds, s);
    }
  }

  lemma {:induction false} ChangeAtConcat(cs: seq<RouteChange>, ds: seq<RouteChange>, s: U16)
    ensures ChangeAt(cs + ds, s) == if ChangeAt(ds, s).Some? then ChangeAt(ds, s) else ChangeAt(cs, s)
  {
    if ds == [] {
      assert cs + ds == cs;
    } else {
      var n := |ds| - 1;
      assert (cs + ds)[..|cs + ds| - 1] == cs + ds[..n];
      ChangeAtConcat(cs, ds[..n], s);
    }
  }

  /** One network part of the way through a batch whose events are all judged
      against the tables `u` at its end. */
  lemma {:induction false} BatchAt(v: View, pending: seq<Event>, t: Table, ops: seq<Op>, u: Table, s: U16)
    requires Inv(t) && RouteOps(ops) && InStep(v, pending, t)
    requires ZonesComplete(u, s) ==> ZonesComplete(t, s)
    ensures var (w, cs) := Run(t, ops);
            && OneEach(QueuedAll(pending, cs, u))
            && (ChangeAt(cs, s).Some? ==> Agrees(Get(v, s), PendingAt(QueuedAll(pending, cs, u), s),
                                                 Worth(BestFor(w, s), ZonesComplete(u, s))))
            && (ChangeAt(cs, s).None? ==> PendingAt(QueuedAll(pending, cs, u), s) == PendingAt(pending, s)
                                          && !Changed(BestFor(t, s), BestFor(w, s)))
  {
    if ops != [] {
      var n := |ops| - 1;
      BatchAt(v, pending, t, ops[..n], u, s);
      BatchZones(t, ops[..n], s);
      var (w, cs) := Run(t, ops[..n]);
      var (x, ds) := Step(w, ops[n]);
      StepKeepsInv(w, ops[n]);
      forall k | 0 <= k < |ds| ensures StartsThere(ds[k].before, ds[k].range.lo) && StartsThere(ds[k].after, ds[k].range.lo) {
        ChangesStartThere(w, x, ds, k);
      }
      var p := QueuedAll(pending, cs, u);
      QueuedAllConcat(pending, cs, ds, u);
      QueuedAllAt(p, ds, u, s);
      ChangeAtConcat(cs, ds, s);
      assert FollowsAt(w, x, ds, s);
      assert Agrees(Get(v, s), PendingAt(pending, s), Exported(t, s));
      ChangeAtIn(ds, s);
      if ChangeAt(ds, s).Some? {
        var c := ChangeAt(ds, s).value;
        var complete := if ChangeAt(cs, s).Some? then ZonesComplete(u, s) else ZonesComplete(t, s);
        assert Agrees(Get(v, s), PendingAt(p, s), Worth(c.before, complete));
        OneChangeAgrees(Get(v, s), PendingAt(p, s), u, c, complete);
      }
    }
  }

  /** The main result for routes: any batch of table operations whose changes are
      then queued together, judged by the tables at the end of the batch, keeps
      the peer in step. */
  lemma RouteOpsKeepStep(v: View, pending: seq<Event>, t: Table, ops: seq<Op>)
    requires Inv(t) && RouteOps(ops) && InStep(v, pending, t)
    ensures var (u, cs) := Run(t, ops);
            Inv(u) && InStep(v, QueuedAll(pending, cs, u), u)
  {
    var (u, cs) := Run(t, ops);
    BatchZones(t, ops, 0);
    BatchAt(v, pending, t, ops, u, 0);
    forall s: U16 ensures Agrees(Get(v, s), PendingAt(QueuedAll(pending, cs, u), s), Exported(u, s)) {
      BatchZones(t, ops, s);
      BatchAt(v, pending, t, ops, u, s);
      assert Agrees(Get(v, s), PendingAt(pending, s), Exported(t, s));
    }
  }

  // ------------------------------------------------------------- zone lists

  lemma {:induction false} AddNamesGrows(have: seq<Name>, names: seq<Name>)
    ensures |have| <= |AddNames(have, names)|
  {
    if names != [] { AddNamesGrows(have, names[..|names| - 1]); }
  }

  /** An exported network is told that its list is longer than the names now held:
      the table stops exporting it and reports nothing. */
  predicate Unfinishes(t: Table, s: U16, names: seq<Name>, expected: Option<nat>) {
    && Exportable(t, s) && expected.Some?
    && expected.value > |AddNames(t.zones[s].1.names, names)|
  }

  lemma ZonesAt(t: Table, s: U16, names: seq<Name>, expected: Option<nat>, z: U16)
    requires Inv(t)
    ensures var (u, cs) := AddZones(t, s, names, expected);
            && Inv(u) && BestFor(u, z) == BestFor(t, z)
            && (z != s ==> Get(u.zones, z) == Get(t.zones, z))
            && OnePerStart(cs) && ChangesOk(cs) && (forall i :: 0 <= i < |cs| ==> cs[i].range.lo == s)
            && (Exported(t, s).Some? ==> cs == [] && (Exported(u, s).None? <==> Unfinishes(t, s, names, expected)))
            && (Exported(t, s).None? ==>
                  match ChangeAt(cs, s)
                  case None => Exported(u, s) == None
                  case Some(c) => Exported(u, s).Some? && EventFor(u, c) == Some(Event(NA, BestFor(t, s).value.Tuple())))
  {
    var (u, cs) := AddZones(t, s, names, expected);
    ZonesKeepInv(t, s, names, expected);
    BestStartsThere(t, s);
    AddNamesGrows(ZonesOf(t, s).names, names);
    if At(t.routes, s) != [] && Exportable(t, s) {
      assert u.zones[s].1 == MergedZones(t.zones[s].1, names, expected);
    }
  }

  lemma ZonesAgreeAt(v: View, pending: seq<Event>, t: Table, s: U16, names: seq<Name>, expected: Option<nat>, z: U16)
    requires Inv(t) && InStep(v, pending, t)
    ensures var (u, cs) := AddZones(t, s, names, expected);
            var p := QueuedAll(pending, cs, u);
            && Inv(u) && OneEach(p)
            && (Agrees(Get(v, z), PendingAt(p, z), Exported(u, z)) <==> z != s || !Unfinishes(t, s, names, expected))
  {
    hide AddZones, QueuedAll, Inv, FindStart, BestFor, OneEach;
    var (u, cs) := AddZones(t, s, names, expected);
    ZonesAt(t, s, names, expected, z);
    QueuedAllAt(pending, cs, u, z);
    ChangeAtIn(cs, z);
    assert Agrees(Get(v, z), PendingAt(pending, z), Exported(t, z));
  }

  /** Filling in a zone list keeps the peer in step exactly when it does not
      unfinish the list of an exported network. */
  lemma ZonesKeepStep(v: View, pending: seq<Event>, t: Table, s: U16, names: seq<Name>, expected: Option<nat>)
    requires Inv(t) && InStep(v, pending, t)
    ensures var (u, cs) := AddZones(t, s, names, expected);
            Inv(u) && (InStep(v, QueuedAll(pending, cs, u), u) <==> !Unfinishes(t, s, names, expected))
  {
    ZonesAgreeAt(v, pending, t, s, names, expected, s);
    hide AddZones, QueuedAll, Inv, Agrees, Exported, Unfinishes;
    var (u, cs) := AddZones(t, s, names, expected);
    var p := QueuedAll(pending, cs, u);
    forall z: U16
      ensures Agrees(Get(v, z), PendingAt(p, z), Exported(u, z)) <==> z != s || !Unfinishes(t, s, names, expected)
    {
      ZonesAgreeAt(v, pending, t, s, names, expected, z);
    }
  }

  lemma {:induction false} QueuedAllAlike(pending: seq<Event>, cs: seq<RouteChange>, u: Table, w: Table)
    requires forall i :: 0 <= i < |cs| && cs[i].after.Some? ==>
               (ZonesComplete(u, cs[i].after.value.range.lo) <==> ZonesComplete(w, cs[i].after.value.range.lo))
    ensures QueuedAll(pending, cs, u) == QueuedAll(pending, cs, w)
  {
    if cs != [] { QueuedAllAlike(pending, cs[..|cs| - 1], u, w); }
  }

  /** The lists of one reply, each network once, none unfinishing. */
  ghost predicate ZoneOps(t: Table, ops: seq<Op>) {
    && (forall i :: 0 <= i < |ops| ==> ops[i].OpZones? && !Unfinishes(t, ops[i].start, ops[i].names, ops[i].expected))
    && (forall i, j :: 0 <= i < j < |ops| ==> ops[i].start != ops[j].start)
  }

  ghost predicate Names(ops: seq<Op>, z: U16) {
    exists j :: 0 <= j < |ops| && ops[j].OpZones? && ops[j].start == z
  }

  lemma NamesSnoc(ops: seq<Op>, z: U16)
    requires ops != [] && ops[|ops| - 1].OpZones?
    ensures Names(ops, z) <==> Names(ops[..|ops| - 1], z) || ops[|ops| - 1].start == z
  {
    var n := |ops| - 1;
    if Names(ops[..n], z) {
      var j :| 0 <= j < n && ops[..n][j].OpZones? && ops[..n][j].start == z;
      assert ops[j].start == z;
    }
    if Names(ops, z) && ops[n].start != z {
      var j :| 0 <= j < |ops| && ops[j].OpZones? && ops[j].start == z;
      assert ops[..n][j].start == z;
    }
  }

  ghost predicate AboutNamed(cs: seq<RouteChange>, ops: seq<Op>) {
    forall i :: 0 <= i < |cs| ==> Names(ops, cs[i].range.lo)
  }

  lemma ZoneRunSnoc(t: Table, ops: seq<Op>)
    requires ops != [] && ops[|ops| - 1].OpZones?
    ensures var n := |ops| - 1;
            var (u, cs) := Run(t, ops[..n]);
            var (w, ds) := AddZones(u, ops[n].start, ops[n].names, ops[n].expected);
            Run(t, ops) == (w, cs + ds)
  {
    hide AddZones;
  }

  lemma ZoneOpsPrefix(t: Table, ops: seq<Op>)
    requires ops != [] && ZoneOps(t, ops)
    ensures ZoneOps(t, ops[..|ops| - 1]) && !Names(ops[..|ops| - 1], ops[|ops| - 1].start)
    ensures var o := ops[|ops| - 1]; o.OpZones? && !Unfinishes(t, o.start, o.names, o.expected)
  {
  }

  lemma ZoneChangesConcat(cs: seq<RouteChange>, ds: seq<RouteChange>, ops: seq<Op>)
    requires ops != [] && ops[|ops| - 1].OpZones?
    requires AboutNamed(cs, ops[..|ops| - 1]) && ChangesOk(cs) && ChangesOk(ds)
    requires forall i :: 0 <= i < |ds| ==> ds[i].range.lo == ops[|ops| - 1].start
    ensures AboutNamed(cs + ds, ops) && ChangesOk(cs + ds)
  {
    hide Names;
    forall y: U16 ensures Names(ops, y) <==> Names(ops[..|ops| - 1], y) || y == ops[|ops| - 1].start {
      NamesSnoc(ops, y);
    }
  }

  /** The lists of one reply leave every best route and every other list alone. */
  lemma {:induction false} ZoneOpsFrame(t: Table, ops: seq<Op>, z: U16)
    requires Inv(t) && ZoneOps(t, ops)
    ensures var (u, cs) := Run(t, ops);
            && Inv(u) && BestFor(u, z) == BestFor(t, z)
            && (!Names(ops, z) ==> Get(u.zones, z) == Get(t.zones, z))
            && AboutNamed(cs, ops) && ChangesOk(cs)
  {
    if ops != [] {
      var n := |ops| - 1;
      var first, o := ops[..n], ops[n];
      ZoneOpsPrefix(t, ops);
      ZoneOpsFrame(t, first, z);
      ZoneRunSnoc(t, ops);
      hide Run, AddZones, Inv, BestFor, Exported, Unfinishes, Names, ZoneOps, AboutNamed, ChangesOk, OnePerStart;
      var (u, cs) := Run(t, first);
      ZonesAt(u, o.start, o.names, o.expected, z);
      ZoneChangesConcat(cs, AddZones(u, o.start, o.names, o.expected).1, ops);
      NamesSnoc(ops, z);
    }
  }

  lemma UnfinishesAlike(t: Table, u: Table, s: U16, names: seq<Name>, expected: Option<nat>)
    requires BestFor(t, s) == BestFor(u, s) && Get(t.zones, s) == Get(u.zones, s)
    ensures Unfinishes(t, s, names, expected) == Unfinishes(u, s, names, expected)
  {
  }

  /** A list for a network that no earlier change is about leaves the events of
      those changes as they were. */
  lemma LaterListSameEvents(pending: seq<Event>, cs: seq<RouteChange>, first: seq<Op>, u: Table, o: Op)
    requires Inv(u) && o.OpZones? && AboutNamed(cs, first) && ChangesOk(cs) && !Names(first, o.start)
    ensures QueuedAll(pending, cs, u) == QueuedAll(pending, cs, Step(u, o).0)
  {
    hide AddZones, Inv, Names, QueuedAll, Exported, BestFor;
    var w := Step(u, o).0;
    forall i | 0 <= i < |cs| && cs[i].after.Some?
      ensures ZonesComplete(u, cs[i].after.value.range.lo) <==> ZonesComplete(w, cs[i].after.value.range.lo)
    {
      assert Names(first, cs[i].range.lo);
      ZonesAt(u, o.start, o.names, o.expected, cs[i].range.lo);
    }
    QueuedAllAlike(pending, cs, u, w);
  }

  /** The main result for zones: the lists of one reply, then their changes queued
      together, keep the peer in step. */
  lemma {:induction false} ZoneOpsKeepStep(v: View, pending: seq<Event>, t: Table, ops: seq<Op>)
    requires Inv(t) && ZoneOps(t, ops) && InStep(v, pending, t)
    ensures var (u, cs) := Run(t, ops);
            Inv(u) && InStep(v, QueuedAll(pending, cs, u), u)
  {
    if ops != [] {
      var n := |ops| - 1;
      var first, o := ops[..n], ops[n];
      ZoneOpsPrefix(t, ops);
      ZoneOpsKeepStep(v, pending, t, first);
      ZoneOpsFrame(t, first, o.start);
      ZoneRunSnoc(t, ops);
      hide Run, AddZones, Inv, InStep, BestFor, Unfinishes, Names, ZoneOps, AboutNamed, ChangesOk, QueuedAll;
      var (u, cs) := Run(t, first);
      var (w, ds) := Step(u, o);
      UnfinishesAlike(t, u, o.start, o.names, o.expected);
      ZonesKeepStep(v, QueuedAll(pending, cs, u), u, o.start, o.names, o.expected);
      LaterListSameEvents(pending, cs, first, u, o);
      QueuedAllConcat(pending, cs, ds, w);
    }
  }

  lemma OnePortTable(zone: Name)
    ensures var t := AddPort(EMPTY, 0, Range(1, 1), false, [zone], 0);
            && Inv(t) && At(t.routes, 1) != [] && Exportable(t, 1) && BestFor(t, 1).value.distance == 0
            && 1 in t.zones && t.zones[1].1 == ZoneList([zone], None)
  {
    EmptyTable();
    hide Pick, Inv;
    PortKeepsInv(EMPTY, 0, Range(1, 1), false, [zone], 0);
    AtAppend([], Route(Range(1, 1), false, 0, Port(0), NO_NEXT, Good, 0), 1);
    assert EMPTY.routes == [];
  }

  lemma EmptyTable()
    ensures Inv(EMPTY) && forall s: U16 :: Exported(EMPTY, s) == None
  {
  }

  lemma SameNameAgain(zone: Name)
    ensures AddNames([zone], [zone]) == [zone]
  {
    assert SameName([zone][0], zone);
    assert AddNames([zone], [zone][..0]) == [zone];
  }

  /** An Extended Reply that repeats the one configured zone of a port's network and
      announces two takes the network out of the export without a word to any peer. */
  lemma UnfinishedListIsSilent(zone: Name)
    ensures var t := AddPort(EMPTY, 0, Range(1, 1), false, [zone], 0);
            var (u, cs) := ZoneDistribution.LearnZones(t, ZiPage(Some(2), [(1, zone)]));
            Inv(t) && Exported(t, 1) == Some(0) && Exported(u, 1) == None && cs == []
  {
    hide AddPort, AddZones, ZoneDistribution.LearnZones, Inv, At, BestFor, AddNames;
    var t := AddPort(EMPTY, 0, Range(1, 1), false, [zone], 0);
    OnePortTable(zone);
    OneZoneReply(t, 1, zone, Some(2));
    SameNameAgain(zone);
    ZonesAt(t, 1, [zone], Some(2), 1);
  }

  lemma OneZoneReply(t: Table, net: U16, zone: Name, total: Option<nat>)
    ensures ZoneDistribution.LearnZones(t, ZiPage(total, [(net, zone)])) == AddZones(t, net, [zone], total)
  {
    var zones := [(net, zone)];
    assert NetsNamed(zones[..0]) == [] && NamesFor(zones[..0], net) == [];
    assert zones[0] == (net, zone);
    assert NetsNamed(zones) == [net] && NamesFor(zones, net) == [zone];
    assert [net][..0] == [];
    assert ZoneDistribution.TakeReply(t, [net][..0], ZiPage(total, zones)) == (t, []);
    var cs := AddZones(t, net, [zone], total).1;
    assert [] + cs == cs;
  }

  lemma PeerListChangesNoExport(t: Table, net: U16, names: seq<Name>, expected: Option<nat>)
    requires Inv(t)
    requires !(BestForNet(t, net).Some? && BestForNet(t, net).value.target.Port?)
    ensures var (u, cs) := AddZones(t, net, names, expected);
            && cs == [] && Inv(u) && u.routes == t.routes && u.best == t.best
            && forall s: U16 :: Exported(u, s) == Exported(t, s)
  {
    if At(t.routes, net) != [] {
      AtMeaning(t.routes, net);
      var r := At(t.routes, net)[0];
      assert r.range.WellFormed();
      BestForNetIsBestOfItsRange(t, net, r);
      assert Exported(t, net) == None;
      ZonesKeepInv(t, net, names, expected);
      hide AddZones, Inv, BestFor, Unfinishes, Exported;
      forall s: U16 ensures Exported(AddZones(t, net, names, expected).0, s) == Exported(t, s) {
        ZonesAt(t, net, names, expected, net);
        ZonesAt(t, net, names, expected, s);
        if s == net { NoZonesWithoutBest(t, net, names, expected); } else { ExportedAlike(t, AddZones(t, net, names, expected).0, s); }
      }
    }
  }

  lemma NoZonesWithoutBest(t: Table, net: U16, names: seq<Name>, expected: Option<nat>)
    requires Inv(t) && !Shareable(BestFor(t, net))
    ensures AddZones(t, net, names, expected).1 == [] && Exported(AddZones(t, net, names, expected).0, net) == None
  {
    ZonesAt(t, net, names, expected, net);
  }

  lemma ExportedAlike(t: Table, u: Table, s: U16)
    requires BestFor(t, s) == BestFor(u, s) && Get(t.zones, s) == Get(u.zones, s)
    ensures Exported(t, s) == Exported(u, s)
  {
  }

  /** What a peer says about zones never changes what we export. */
  lemma {:induction false} PeerZonesChangeNoExport(t: Table, nets: seq<U16>, page: ZiPage)
    requires Inv(t)
    ensures var (u, cs) := TakeZones(t, nets, page);
            && cs == [] && Inv(u) && u.routes == t.routes && u.best == t.best
            && forall s: U16 :: Exported(u, s) == Exported(t, s)
  {
    if nets != [] {
      var n := |nets| - 1;
      PeerZonesChangeNoExport(t, nets[..n], page);
      var u := TakeZones(t, nets[..n], page).0;
      hide Inv, BestForNet, Exported, AddZones, NamesFor;
      if !(BestForNet(u, nets[n]).Some? && BestForNet(u, nets[n]).value.target.Port?) {
        PeerListChangesNoExport(u, nets[n], NamesFor(page.zones, nets[n]), page.extended);
      }
    }
  }

  // ------------------------------------------------------------- the paged export

  lemma {:induction false} HearTuplesConcat(v: View, a: seq<NetworkTuple>, b: seq<NetworkTuple>)
    ensures HearTuples(v, a + b) == HearTuples(HearTuples(v, a), b)
  {
    if b == [] {
      assert a + b == a;
    } else {
      var n := |b| - 1;
      assert (a + b)[..|a + b| - 1] == a + b[..n];
      HearTuplesConcat(v, a, b[..n]);
    }
  }

  lemma {:induction false} HearTuplesAt(v: View, ts: seq<NetworkTuple>, s: U16, d: Option<Byte>)
    requires Announces(ts, s, d) && forall i :: 0 <= i < |ts| ==> ts[i].distance < MAX_HOPS
    ensures Get(HearTuples(v, ts), s) == if d.Some? then d else Get(v, s)
  {
    if ts != [] {
      var n := |ts| - 1;
      if ts[n].range.lo != s {
        if d.Some? {
          var i :| 0 <= i < |ts| && ts[i].range.lo == s;
          assert ts[..n][i].range.lo == s;
        }
        HearTuplesAt(v, ts[..n], s, d);
      }
    }
  }

  /** Hearing a whole export sets every exported network and no other. */
  lemma HearExport(v: View, t: Table, s: U16)
    ensures Get(HearTuples(v, Export(t)), s) == if Exported(t, s).Some? then Exported(t, s) else Get(v, s)
  {
    ExportMeaning(t, s);
    HearTuplesAt(v, Export(t), s, Exported(t, s));
  }

  lemma {:induction false} JoinedHead(pages: seq<seq<NetworkTuple>>)
    requires pages != []
    ensures Joined(pages) == pages[0] + Joined(pages[1..])
  {
    if |pages| > 1 {
      JoinedHead(pages[..|pages| - 1]);
      assert pages[1..][..|pages| - 2] == pages[..|pages| - 1][1..];
    }
  }

  /** What the peer will have heard once every page in hand has been sent. */
  function Told(v: View, p: PeerState): View { HearTuples(v, Joined(p.pages)) }

  /** Events the table vouches for, whatever the peer knows: pending events tell
      the truth about what is exported now. */
  ghost predicate Truthful(pending: seq<Event>, t: Table) {
    && OneEach(pending)
    && forall i :: 0 <= i < |pending| ==>
         match pending[i].code
         case NA => Exported(t, pending[i].Start()) == Some(pending[i].tuple.distance)
         case NDC => Exported(t, pending[i].Start()) == Some(pending[i].tuple.distance)
         case ND => Exported(t, pending[i].Start()) == None
         case NRC => Exported(t, pending[i].Start()) == None
         case _ => false
  }

  /** Nothing the peer knows is neither exported nor about to be withdrawn. */
  ghost predicate KnowsNothingElse(v: View, pending: seq<Event>, t: Table) {
    forall s: U16 :: Exported(t, s) == None && PendingAt(pending, s) == None ==> Get(v, s) == None
  }

  ghost predicate NoneAdded(pending: seq<Event>) {
    forall i :: 0 <= i < |pending| ==> pending[i].code != NA
  }

  /** Serving an RI-Req with truthful events pending puts the peer in step exactly
      when no addition is among them and the peer holds no stray network. */
  lemma ServingPutsInStep(v: View, pending: seq<Event>, t: Table)
    requires Truthful(pending, t)
    ensures InStep(HearTuples(v, Export(t)), pending, t) <==> NoneAdded(pending) && KnowsNothingElse(v, pending, t)
  {
    var w := HearTuples(v, Export(t));
    forall s: U16
      ensures Agrees(Get(w, s), PendingAt(pending, s), Exported(t, s)) <==>
              match PendingAt(pending, s)
              case None => Exported(t, s) == None ==> Get(v, s) == None
              case Some(x) => x.code != NA
    {
      HearExport(v, t, s);
    }
    if InStep(w, pending, t) {
      forall i | 0 <= i < |pending| ensures pending[i].code != NA {
        PendingMeaning(pending, i);
        var s := pending[i].Start();
        assert Agrees(Get(w, s), PendingAt(pending, s), Exported(t, s));
      }
      forall s: U16 | Exported(t, s) == None && PendingAt(pending, s) == None ensures Get(v, s) == None {
        assert Agrees(Get(w, s), PendingAt(pending, s), Exported(t, s));
      }
    }
  }

  /** A peer in step stays so through a refresh exactly when no addition is pending. */
  lemma RefreshKeepsStep(v: View, pending: seq<Event>, t: Table)
    requires InStep(v, pending, t)
    ensures InStep(HearTuples(v, Export(t)), pending, t) <==> NoneAdded(pending)
  {
    forall i | 0 <= i < |pending|
      ensures Agrees(Get(v, pending[i].Start()), Some(pending[i]), Exported(t, pending[i].Start()))
    {
      PendingMeaning(pending, i);
      assert Agrees(Get(v, pending[i].Start()), PendingAt(pending, pending[i].Start()), Exported(t, pending[i].Start()));
    }
    forall s: U16 | Exported(t, s) == None && PendingAt(pending, s) == None ensures Get(v, s) == None {
      assert Agrees(Get(v, s), PendingAt(pending, s), Exported(t, s));
    }
    ServingPutsInStep(v, pending, t);
  }

  /** The family the condition shuts out: an addition is pending, among whatever else,
      when the export goes out, then the network goes. The two events cancel, so the
      peer keeps a network that is no longer exported and that nothing pending will
      withdraw. */
  lemma AdditionAcrossExportIsLost(v: View, pending: seq<Event>, add: Event, gone: Event, t: Table, u: Table)
    requires Truthful(pending, t) && add in pending
    requires add.code == NA && (gone.code == ND || gone.code == NRC) && gone.Start() == add.Start()
    requires Exported(u, add.Start()) == None
    ensures PendingAt(Queued(pending, gone), add.Start()) == None
    ensures Get(HearEvents(HearTuples(v, Export(t)), Queued(pending, gone)), add.Start()) == Some(add.tuple.distance)
  {
    var s, w := add.Start(), HearTuples(v, Export(t));
    var i :| 0 <= i < |pending| && pending[i] == add;
    PendingMeaning(pending, i);
    HearExport(v, t, s);
    hide Queued, FindStart, HearTuples, Export;
    QueuedMeaning(pending, gone, s);
    PendingReachesGoal(w, Queued(pending, gone), s, Exported(t, s));
  }

  const HEARD_ROUTE := Route(Range(3, 3), false, 1, Port(0), Addr(1, 1), Good, 0)

  /** Network 3, one hop away over port 0. */
  function OneRoute(zone: Name): Table {
    Table([HEARD_ROUTE], map[3 := (3, ZoneList([zone], None))], map[3 := HEARD_ROUTE.Key()])
  }

  lemma OneRouteAt(best: map<U16, RouteKey>, s: U16)
    ensures Pick([HEARD_ROUTE], best, ByStart(s)) == if s == 3 then Some(HEARD_ROUTE) else None
    ensures At([HEARD_ROUTE], s) == if s == 3 then [HEARD_ROUTE] else []
  {
    assert [HEARD_ROUTE][..0] == [];
    assert Pick([HEARD_ROUTE][..0], best, ByStart(s)) == None;
    assert At([HEARD_ROUTE][..0], s) == [];
  }

  lemma OneNameAdded(zone: Name)
    ensures AddNames([], [zone]) == [zone]
  {
    assert [zone][..0] == [];
    assert AddNames([], [zone][..0]) == [] && !HoldsName([], zone);
  }

  lemma OneRouteIsExported(zone: Name)
    ensures var t := Table([HEARD_ROUTE], map[], map[3 := HEARD_ROUTE.Key()]);
            Inv(t) && AddZones(t, 3, [zone], None) == (OneRoute(zone), [RouteChange(Range(3, 3), None, Some(HEARD_ROUTE))])
    ensures Inv(OneRoute(zone)) && BestFor(OneRoute(zone), 3) == Some(HEARD_ROUTE) && Exported(OneRoute(zone), 3) == Some(1)
  {
    var best := map[3 := HEARD_ROUTE.Key()];
    OneNameAdded(zone);
    forall s: U16
      ensures Pick([HEARD_ROUTE], best, ByStart(s)) == if s == 3 then Some(HEARD_ROUTE) else None
      ensures At([HEARD_ROUTE], s) == if s == 3 then [HEARD_ROUTE] else []
    {
      OneRouteAt(best, s);
    }
    hide Pick, At, AddNames;
    assert Inv(Table([HEARD_ROUTE], map[], best));
    assert Inv(OneRoute(zone));
  }

  lemma OneRouteUnlearned()
    ensures var rs, range := [HEARD_ROUTE], Range(3, 3);
            && !Blocked(rs, range)
            && LearnRoutes(rs, NetworkTuple(range, false, 15), Port(0), Addr(1, 1), 0) == []
  {
    var rs := [HEARD_ROUTE];
    assert Position(rs[..0], Range(3, 3), Port(0), Addr(1, 1)) == None;
    assert Position(rs, Range(3, 3), Port(0), Addr(1, 1)) == Some(0);
    assert rs[..0] + rs[1..] == [];
  }

  lemma OneRouteSettled(zone: Name)
    ensures Settle(OneRoute(zone).(routes := []), [3], [Some(HEARD_ROUTE)])
         == (EMPTY, [RouteChange(Range(3, 3), Some(HEARD_ROUTE), None)])
  {
    var m, before := OneRoute(zone).(routes := []), [Some(HEARD_ROUTE)];
    assert BestFor(m, 3) == None && At(m.routes, 3) == [];
    assert SettleOne(m, 3) == EMPTY by {
      assert m.zones - {3} == map[] && m.best - {3} == map[] && (m.best - {3}) - {3} == map[];
    }
    hide SettleOne, Pick;
    assert [3][..0] == [] && before[..0] == [];
    assert Settle(m, [3][..0], before[..0]) == (m, []);
    assert [] + Reported(3, before[0], None) == Reported(3, before[0], None);
  }

  /** The same network withdrawn by its router: the table is empty again. */
  lemma OneRouteGoes(zone: Name)
    ensures Learn(OneRoute(zone), NetworkTuple(Range(3, 3), false, 15), Port(0), Addr(1, 1), 0)
         == (EMPTY, [RouteChange(Range(3, 3), Some(HEARD_ROUTE), None)])
  {
    hide Settle, Blocked, LearnRoutes, Inv, BestFor, AddZones, Exported;
    OneRouteIsExported(zone);
    OneRouteUnlearned();
    OneRouteSettled(zone);
    assert Snapshot(OneRoute(zone), [3]) == [Some(HEARD_ROUTE)];
  }

  /** The two events of that network. */
  const ADDED := Event(NA, NetworkTuple(Range(3, 3), false, 1))
  const WITHDRAWN := Event(ND, NetworkTuple(Range(3, 3), false, 0))

  lemma OneRouteEvents(zone: Name)
    ensures EventFor(OneRoute(zone), RouteChange(Range(3, 3), None, Some(HEARD_ROUTE))) == Some(ADDED)
    ensures EventFor(EMPTY, RouteChange(Range(3, 3), Some(HEARD_ROUTE), None)) == Some(WITHDRAWN)
    ensures Queued([], ADDED) == [ADDED] && Queued([ADDED], WITHDRAWN) == []
  {
    assert FindStart([], 3) == None;
    assert FindStart([ADDED][..0], 3) == None;
    assert FindStart([ADDED], 3) == Some(0);
  }

  lemma OneAddedIsTruthful(t: Table)
    requires Exported(t, 3) == Some(1)
    ensures Truthful([ADDED], t) && ADDED in [ADDED]
  {
    hide Exported;
  }

  /** One such input: a network's zones come in, an export is served before the addition
      goes out, and its router withdraws it. Nothing is left to say, and the peer
      keeps network 3. */
  lemma ServedThenWithdrawn(zone: Name)
    ensures var (t, cs) := AddZones(Table([HEARD_ROUTE], map[], map[3 := HEARD_ROUTE.Key()]), 3, [zone], None);
            var pending := QueuedAll([], cs, t);
            var v := HearTuples(map[], Export(t));
            var (u, ds) := Learn(t, NetworkTuple(Range(3, 3), false, 15), Port(0), Addr(1, 1), 0);
            && pending == [ADDED] && QueuedAll(pending, ds, u) == []
            && Get(v, 3) == Some(1) && Exported(u, 3) == None
  {
    hide AddZones, Learn, QueuedAll, Queued, HearTuples, Export, EventFor, Exported, Inv, BestFor, OneRoute;
    var t := OneRoute(zone);
    OneRouteIsExported(zone);
    OneRouteGoes(zone);
    OneRouteEvents(zone);
    OneQueued([], RouteChange(Range(3, 3), None, Some(HEARD_ROUTE)), t);
    OneQueued([ADDED], RouteChange(Range(3, 3), Some(HEARD_ROUTE), None), EMPTY);
    EmptyTable();
    HearExport(map[], t, 3);
    OneAddedIsTruthful(t);
    AdditionAcrossExportIsLost(map[], [ADDED], ADDED, WITHDRAWN, t, EMPTY);
  }

  lemma OneQueued(pending: seq<Event>, c: RouteChange, u: Table)
    ensures QueuedAll(pending, [c], u) == match EventFor(u, c) case None => pending case Some(e) => Queued(pending, e)
  {
    assert [c][..0] == [];
    assert QueuedAll(pending, [c][..0], u) == pending;
  }

  // ------------------------------------------------------------- the sender's steps

  /** In step once the pages in hand have gone out. */
  ghost predicate SenderInStep(v: View, p: PeerState, t: Table) {
    p.sender != SUnconnected ==> InStep(Told(v, p), p.pending, t)
  }

  lemma SendPageKeepsStep(v: View, p: PeerState, t: Table, now: Time)
    requires p.sender != SUnconnected && p.pages != [] && SenderInStep(v, p, t)
    ensures var (q, out) := SendPage(p, now);
            |out| == 1 && out[0].cmd.RiRsp? && SenderInStep(Hear(v, out[0].cmd), q, t)
            && Told(Hear(v, out[0].cmd), q) == Told(v, p) && q.pending == p.pending
  {
    JoinedHead(p.pages);
    HearTuplesConcat(v, p.pages[0], Joined(p.pages[1..]));
  }

  /** One RI-Req served: the first page goes out and the rest will follow. */
  lemma ServeKeepsStep(v: View, p: PeerState, t: Table, now: Time)
    requires p.sender != SUnconnected && Truthful(p.pending, t)
    requires NoneAdded(p.pending) && KnowsNothingElse(v, p.pending, t)
    ensures var (q, out) := ServeRiReq(p, t, now);
            |out| == 1 && SenderInStep(Hear(v, out[0].cmd), q, t)
  {
    SplitIsExact(Export(t));
    ServingPutsInStep(v, p.pending, t);
    var q := p.(seqSend := 0, outstanding := None, pages := SplitTuples(Export(t)));
    SendPageKeepsStep(v, q, t, now);
  }

  lemma SenderTimersKeepStep(v: View, p: PeerState, t: Table, now: Time)
    requires SenderInStep(v, p, t) && (p.sender == SConnected ==> p.pages == [])
    ensures var (q, out) := SenderTimers(p, now);
            SenderInStep(if p.outstanding.None? && out != [] then Hear(v, out[0].cmd) else v, q, t)
  {
    if p.outstanding.None? && p.sender == SConnected { FlushKeepsStep(v, p.pending, t); }
  }

  /** Table operations, then their changes queued for the peer. */
  lemma ChangesKeepSenderInStep(v: View, p: PeerState, t: Table, ops: seq<Op>)
    requires Inv(t) && RouteOps(ops) && SenderInStep(v, p, t)
    ensures var (u, cs) := Run(t, ops);
            Inv(u) && SenderInStep(v, RouteChanged(p, cs, u), u)
  {
    BatchZones(t, ops, 0);
    if p.sender != SUnconnected { RouteOpsKeepStep(Told(v, p), p.pending, t, ops); }
  }
}
