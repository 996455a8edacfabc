/** The AURP peer as a value: update events, the queue that collapses them, and
    the two state machines each peer runs. The class in PeerLink.dfy changes its
    fields in place and is proved against these functions. */
module Aurp {
  import opened Wire
  import opened Table
  import opened Paging

  const RETRY: nat := 10 * SECOND
  const RETRIES: nat := 5
  const LAST_HEARD: nat := 90 * SECOND
  const TICKLE_RETRIES: nat := 10
  const UPDATE_INTERVAL: nat := 10 * SECOND
  const RECONNECT_BACKOFF: nat := 600 * SECOND

  // ------------------------------------------------------------- packets

  datatype Code = Null | NA | ND | NRC | NDC | ZC

  datatype Event = Event(code: Code, tuple: NetworkTuple) {
    function Start(): U16 { tuple.range.lo }
  }

  datatype Cmd =
    | RiReq
    | RiRsp(last: bool, tuples: seq<NetworkTuple>)
    | RiAck(szi: bool)
    | RiUpd(events: seq<Event>)
    | Rd(code: int)
    | ZiReq(nets: seq<U16>)
    | ZiRsp(page: ZiPage)
    | GznReq(zone: Name)
    | GznRsp(zone: Name)
    | GdzlReq
    | GdzlRsp
    | OpenReq(version: nat, options: nat)
    | OpenRsp(rateOrError: int)
    | Tickle
    | TickleAck

  datatype Packet = Packet(conn: U16, seqno: U16, cmd: Cmd)

  const NULL_UPDATE := RiUpd([Event(Null, NetworkTuple(Range(0, 0), false, 0))])

  /** The successor in 1..0xffff, for packets and for connections: after the last comes 1. */
  function Succ(n: U16): U16 { if n == 0xffff then 1 else n + 1 }

  function Pred(n: U16): U16 { if n <= 1 then 0xffff else n - 1 }

  // ------------------------------------------------------------- events

  function FindStart(pending: seq<Event>, s: U16): (i: Option<nat>)
    ensures i.Some? ==> i.value < |pending| && pending[i.value].Start() == s
    ensures i.None? ==> forall j :: 0 <= j < |pending| ==> pending[j].Start() != s
  {
    if pending == [] then None
    else
      var n := |pending| - 1;
      var i := FindStart(pending[..n], s);
      if i.Some? then i
      else if pending[n].Start() == s then Some(n)
      else assert pending == pending[..n] + [pending[n]]; None
  }

  /** What a pending event and a newer one for the same network come to; None is
      nothing left to say. */
  function Collapsed(was: Event, e: Event): Option<Event> {
    match (was.code, e.code)
    case (NA, ND) => None
    case (NA, NRC) => None
    case (NA, NDC) => Some(Event(NA, e.tuple))
    case (ND, NA) => Some(Event(NDC, e.tuple))
    case (NRC, NA) => Some(Event(NDC, e.tuple))
    case _ => Some(e)
  }

  /** The queue after one more event: at its own network the two become one, or none. */
  function Queued(pending: seq<Event>, e: Event): seq<Event> {
    match FindStart(pending, e.Start())
    case None => pending + [e]
    case Some(i) =>
      match Collapsed(pending[i], e)
      case None => pending[..i] + pending[i + 1..]
      case Some(c) => pending[i := c]
  }

  /** The event a best-route change is to a peer, if it is one. */
  function EventFor(t: Table, c: RouteChange): Option<Event> {
    var was := Shareable(c.before);
    var shares := Shareable(c.after) && ZonesComplete(t, c.after.value.range.lo);
    if !was && !shares then None
    else if !was then Some(Event(NA, c.after.value.Tuple()))
    else if !shares then
      var code := if c.after.Some? && c.after.value.target.Peer? then NRC else ND;
      Some(Event(code, NetworkTuple(c.before.value.range, c.before.value.extended, 0)))
    else if c.before.value.distance == c.after.value.distance then None
    else Some(Event(NDC, c.after.value.Tuple()))
  }

  function QueuedAll(pending: seq<Event>, cs: seq<RouteChange>, t: Table): seq<Event> {
    if cs == [] then pending
    else
      var n := |cs| - 1;
      var p := QueuedAll(pending, cs[..n], t);
      match EventFor(t, cs[n])
      case None => p
      case Some(e) => Queued(p, e)
  }

  predicate HasVia(routes: seq<Route>, target: Target, s: U16) {
    exists i :: 0 <= i < |routes| && routes[i].target == target && routes[i].Start() == s
  }

  /** Apply one update event from the peer at `ip` to the tables. */
  function Apply(t: Table, ip: nat, e: Event, now: Time): (Table, seq<RouteChange>) {
    var target, d := Peer(ip), e.tuple.distance;
    if e.code == NA && d < MAX_HOPS then Learn(t, e.tuple, target, NO_NEXT, now)
    else if e.code == ND || e.code == NRC || (e.code == NDC && d >= MAX_HOPS) then
      Swept(t, DropStart(target, e.Start()))
    else if e.code == NDC && !HasVia(t.routes, target, e.Start()) then Learn(t, e.tuple, target, NO_NEXT, now)
    else if e.code == NDC then Swept(t, Distance(target, e.Start(), d + 1, now))
    else (t, [])
  }

  function ApplyAll(t: Table, ip: nat, es: seq<Event>, now: Time): (Table, seq<RouteChange>) {
    if es == [] then (t, [])
    else
      var n := |es| - 1;
      var (u, cs) := ApplyAll(t, ip, es[..n], now);
      var (v, ds) := Apply(u, ip, es[n], now);
      (v, cs + ds)
  }

  /** The tuples of an RI-Rsp; those out of reach are passed over. */
  function LearnAll(t: Table, ip: nat, ts: seq<NetworkTuple>, now: Time): (Table, seq<RouteChange>) {
    if ts == [] then (t, [])
    else
      var n := |ts| - 1;
      var (u, cs) := LearnAll(t, ip, ts[..n], now);
      if ts[n].distance < MAX_HOPS then
        var (v, ds) := Learn(u, ts[n], Peer(ip), NO_NEXT, now);
        (v, cs + ds)
      else (u, cs)
  }

  // ------------------------------------------------------------- zones from a peer

  function NetsNamed(zones: seq<ZonePair>): seq<U16> {
    if zones == [] then []
    else
      var n := |zones| - 1;
      var out := NetsNamed(zones[..n]);
      if zones[n].0 in out then out else out + [zones[n].0]
  }

  function NamesFor(zones: seq<ZonePair>, net: U16): seq<Name> {
    if zones == [] then []
    else
      var n := |zones| - 1;
      NamesFor(zones[..n], net) + if zones[n].0 == net then [zones[n].1] else []
  }

  /** The lists of a ZI-Rsp; those of networks behind our own ports are passed over. */
  function TakeZones(t: Table, nets: seq<U16>, page: ZiPage): (Table, seq<RouteChange>) {
    if nets == [] then (t, [])
    else
      var n := |nets| - 1;
      var (u, cs) := TakeZones(t, nets[..n], page);
      var b := BestForNet(u, nets[n]);
      if b.Some? && b.value.target.Port? then (u, cs)
      else
        var (v, ds) := AddZones(u, nets[n], NamesFor(page.zones, nets[n]), page.extended);
        (v, cs + ds)
  }

  // ------------------------------------------------------------- the peer

  datatype Receiver = RUnconnected | WaitOpenRsp | WaitRiRsp | RConnected | WaitTickleAck

  datatype Sender = SUnconnected | SConnected | WaitRiRspAck | WaitRiUpdAck | WaitRdAck

  datatype Outstanding = Outstanding(packet: Packet, nets: seq<U16>, at: Time, tries: nat)

  datatype PeerState = PeerState(
    ip: nat, configured: bool, receiver: Receiver, sender: Sender,
    connLocal: U16, seqRecv: U16, lastHeard: Time, recvAt: Time, recvTries: nat, lastReconnect: Option<Time>,
    connRemote: U16, seqSend: U16, outstanding: Option<Outstanding>, pages: seq<seq<NetworkTuple>>,
    pending: seq<Event>, lastUpdate: Time, probing: bool)
  {
    /** The dialog is past its Open-Rsp, so numbered packets count. */
    predicate ReceiverOpen() { receiver != RUnconnected && receiver != WaitOpenRsp }
  }

  function NewPeer(ip: nat, configured: bool, conn: U16, now: Time): PeerState {
    PeerState(ip, configured, RUnconnected, SUnconnected, conn, 1, now, now, 0, None,
              0, 0, None, [], [], now, false)
  }

  /** The peer afterwards and the packets sent to it. */
  type Sent = (PeerState, seq<Packet>)

  function SendSequenced(p: PeerState, cmd: Cmd, nets: seq<U16>, now: Time): Sent {
    var n := Succ(p.seqSend);
    var packet := Packet(p.connRemote, n, cmd);
    (p.(seqSend := n, outstanding := Some(Outstanding(packet, nets, now, 1))), [packet])
  }

  function Open(p: PeerState, now: Time): Sent {
    (p.(seqRecv := 1, receiver := WaitOpenRsp, recvAt := now, recvTries := 1, lastReconnect := Some(now)),
     [Packet(p.connLocal, 0, OpenReq(1, 0))])
  }

  function CloseReceiver(p: PeerState): PeerState {
    p.(receiver := RUnconnected, connLocal := Succ(p.connLocal), seqRecv := 1, recvTries := 0)
  }

  function CloseSender(p: PeerState): PeerState {
    p.(sender := SUnconnected, connRemote := 0, seqSend := 0, outstanding := None, pages := [],
       pending := [], probing := false)
  }

  /** Queue what some route changes are to a peer we are sender to. */
  function RouteChanged(p: PeerState, cs: seq<RouteChange>, t: Table): PeerState {
    if p.sender == SUnconnected then p else p.(pending := QueuedAll(p.pending, cs, t))
  }

  function StartsOf(ts: seq<NetworkTuple>): seq<U16> {
    seq(|ts|, i requires 0 <= i < |ts| => ts[i].range.lo)
  }

  /** The first page in hand goes out; the last one says so. */
  function SendPage(p: PeerState, now: Time): Sent {
    if p.pages == [] then (p, [])
    else
      var ts := p.pages[0];
      var q := p.(pages := p.pages[1..]);
      var (r, out) := SendSequenced(q, RiRsp(q.pages == [], ts), StartsOf(ts), now);
      (r.(sender := WaitRiRspAck), out)
  }

  /** A full export, restarting the sequence at 1. */
  function ServeRiReq(p: PeerState, t: Table, now: Time): Sent {
    SendPage(p.(seqSend := 0, outstanding := None, pages := SplitTuples(Export(t))), now)
  }

  function GetOpenReq(p: PeerState, conn: U16, version: nat, options: nat, now: Time): Sent {
    if version != 1 then (p, [Packet(conn, 0, OpenRsp(-5))])
    else if options != 0 then (p, [Packet(conn, 0, OpenRsp(-4))])
    else if p.sender != SUnconnected && conn != p.connRemote then
      if !p.probing && p.outstanding.None? then
        var (q, out) := SendSequenced(p.(probing := true), NULL_UPDATE, [], now);
        (q.(sender := WaitRiUpdAck), out)
      else (p, [])
    else
      var q := p.(connRemote := conn, seqSend := 0, outstanding := None, pages := [], sender := SConnected);
      var rsp := Packet(conn, 0, OpenRsp(1));
      if q.receiver == RUnconnected then
        var (r, out) := Open(q, now);
        (r, [rsp] + out)
      else (q, [rsp])
  }

  function Transactions(conn: U16, pages: seq<ZiPage>): seq<Packet> {
    seq(|pages|, i requires 0 <= i < |pages| => Packet(conn, 0, ZiRsp(pages[i])))
  }

  function GetRiAck(p: PeerState, seqno: U16, szi: bool, t: Table, now: Time): Sent {
    if p.outstanding.None? || p.outstanding.value.packet.seqno != seqno then (p, [])
    else
      var zi := if szi then Transactions(p.connRemote, ZiPages(p.outstanding.value.nets, t)) else [];
      var q := p.(outstanding := None);
      match q.sender
      case WaitRiRspAck =>
        if q.pages != [] then
          var (r, out) := SendPage(q, now);
          (r, zi + out)
        else (q.(sender := SConnected, probing := false), zi)
      case WaitRiUpdAck => (q.(sender := SConnected, probing := false), zi)
      case WaitRdAck => (CloseSender(q), zi)
      case _ => (q, zi)
  }

  /** How a received number compares with the number awaited. */
  datatype Verdict = New | Dup | Ahead | Stale

  function CheckSeq(expected: U16, seqno: U16): Verdict {
    if seqno == 0 then Stale
    else if seqno == expected then New
    else if seqno == Pred(expected) then Dup
    else if seqno == Succ(expected) then Ahead
    else Stale
  }

  datatype Routed = Routed(peer: PeerState, table: Table, sent: seq<Packet>, changes: seq<RouteChange>)

  function AcksNA(es: seq<Event>): bool { exists i :: 0 <= i < |es| && es[i].code == NA }

  function GetRiRsp(p: PeerState, conn: U16, seqno: U16, last: bool, ts: seq<NetworkTuple>, t: Table, now: Time): Routed {
    var q := p.(lastHeard := now);
    match CheckSeq(q.seqRecv, seqno)
    case New =>
      var (u, cs) := LearnAll(t, q.ip, ts, now);
      Routed(q.(seqRecv := Succ(seqno), receiver := if last then RConnected else q.receiver),
             u, [Packet(conn, seqno, RiAck(true))], cs)
    case Dup => Routed(q, t, [Packet(conn, seqno, RiAck(true))], [])
    case Ahead => Routed(CloseReceiver(q), t, [], [])
    case Stale => Routed(q, t, [], [])
  }

  function GetRiUpd(p: PeerState, conn: U16, seqno: U16, es: seq<Event>, t: Table, now: Time): Routed {
    var q := p.(lastHeard := now);
    match CheckSeq(q.seqRecv, seqno)
    case New =>
      var (u, cs) := ApplyAll(t, q.ip, es, now);
      Routed(q.(seqRecv := Succ(seqno)), u, [Packet(conn, seqno, RiAck(AcksNA(es)))], cs)
    case Dup => Routed(q, t, [Packet(conn, seqno, RiAck(true))], [])
    case Ahead => Routed(CloseReceiver(q), t, [], [])
    case Stale => Routed(q, t, [], [])
  }

  predicate ServesRiReq(s: Sender) { s == SConnected || s == WaitRiRspAck || s == WaitRiUpdAck }

  function Unmoved(r: Sent, t: Table): Routed { Routed(r.0, t, r.1, []) }

  /** What a packet comes to, command by command. A packet for any other
      connection than the one expected changes nothing. */
  function Routing(p: PeerState, packet: Packet, t: Table, now: Time): Routed {
    var Packet(conn, seqno, cmd) := packet;
    var ignored := Routed(p, t, [], []);
    var serving := conn == p.connRemote && p.sender != SUnconnected;
    var listening := conn == p.connLocal && p.ReceiverOpen();
    match cmd
    case OpenReq(version, options) => Unmoved(GetOpenReq(p, conn, version, options, now), t)
    case RiReq =>
      if conn == p.connRemote && ServesRiReq(p.sender) then Unmoved(ServeRiReq(p, t, now), t) else ignored
    case RiAck(szi) =>
      if conn == p.connRemote then Unmoved(GetRiAck(p, seqno, szi, t, now), t) else ignored
    case Tickle => if serving then Routed(p, t, [Packet(conn, 0, TickleAck)], []) else ignored
    case ZiReq(nets) => if serving then Routed(p, t, Transactions(conn, ZiPages(nets, t)), []) else ignored
    case GznReq(zone) => if serving then Routed(p, t, [Packet(conn, 0, GznRsp(zone))], []) else ignored
    case GdzlReq => if serving then Routed(p, t, [Packet(conn, 0, GdzlRsp)], []) else ignored
    case OpenRsp(rate) =>
      if conn == p.connLocal && p.receiver == WaitOpenRsp then
        if rate < 0 then Routed(CloseReceiver(p), t, [], [])
        else Routed(p.(receiver := WaitRiRsp, seqRecv := 1, recvTries := 1, recvAt := now, lastHeard := now),
                    t, [Packet(p.connLocal, 0, RiReq)], [])
      else ignored
    case RiRsp(last, ts) => if listening then GetRiRsp(p, conn, seqno, last, ts, t, now) else ignored
    case RiUpd(es) => if listening then GetRiUpd(p, conn, seqno, es, t, now) else ignored
    case Rd(_) =>
      if listening then
        var (u, cs) := Swept(t, DropTarget(Peer(p.ip)));
        Routed(CloseSender(CloseReceiver(p)), u, [Packet(conn, seqno, RiAck(false))], cs)
      else ignored
    case ZiRsp(page) =>
      if listening then
        var (u, cs) := TakeZones(t, NetsNamed(page.zones), page);
        Routed(p.(lastHeard := now), u, [], cs)
      else ignored
    case TickleAck =>
      if conn == p.connLocal && p.receiver == WaitTickleAck then
        Routed(p.(receiver := RConnected, recvTries := 0, lastHeard := now), t, [], [])
      else ignored
    case GznRsp(_) => ignored
    case GdzlRsp => ignored
  }

  // ------------------------------------------------------------- timers

  function Reconnect(p: PeerState, now: Time): Sent {
    if !p.configured || p.receiver != RUnconnected then (p, [])
    else if p.lastReconnect.Some? && Since(now, p.lastReconnect.value) <= RECONNECT_BACKOFF then (p, [])
    else Open(p, now)
  }

  /** The request whose answer a receiver that is still opening waits for. */
  function Awaited(r: Receiver): Cmd {
    if r == WaitOpenRsp then OpenReq(1, 0) else RiReq
  }

  function ReceiverTimers(p: PeerState, t: Table, now: Time): Routed {
    var idle := Routed(p, t, [], []);
    match p.receiver
    case RUnconnected => idle
    case RConnected =>
      if Since(now, p.lastHeard) <= LAST_HEARD then idle
      else Routed(p.(receiver := WaitTickleAck, recvTries := 1, recvAt := now), t,
                  [Packet(p.connLocal, 0, Tickle)], [])
    case WaitTickleAck =>
      if Since(now, p.recvAt) < RETRY then idle
      else if p.recvTries >= TICKLE_RETRIES then
        var (u, cs) := Swept(t, DropTarget(Peer(p.ip)));
        var q := CloseReceiver(p);
        // Our half has failed; a null update tests the other half.
        if q.sender == SConnected then
          var (r, out) := SendSequenced(q, NULL_UPDATE, [], now);
          Routed(r.(sender := WaitRiUpdAck), u, out, cs)
        else Routed(q, u, [], cs)
      else Routed(p.(recvTries := p.recvTries + 1, recvAt := now), t, [Packet(p.connLocal, 0, Tickle)], [])
    case _ =>
      if Since(now, p.recvAt) < RETRY then idle
      else if p.recvTries >= RETRIES then Routed(CloseReceiver(p), t, [], [])
      else
        Routed(p.(recvTries := p.recvTries + 1, recvAt := now), t,
               [Packet(p.connLocal, 0, Awaited(p.receiver))], [])
  }

  function Added(es: seq<Event>): seq<U16> {
    if es == [] then []
    else
      var n := |es| - 1;
      Added(es[..n]) + if es[n].code == NA then [es[n].Start()] else []
  }

  function SenderTimers(p: PeerState, now: Time): Sent {
    match p.outstanding
    case Some(o) =>
      if Since(now, o.at) < RETRY then (p, [])
      else if o.tries >= RETRIES then (CloseSender(p), [])
      else (p.(outstanding := Some(o.(tries := o.tries + 1, at := now))), [o.packet])
    case None =>
      if p.sender == SConnected && p.pending != [] && Since(now, p.lastUpdate) >= UPDATE_INTERVAL then
        var q := p.(pending := [], lastUpdate := now);
        var (r, out) := SendSequenced(q, RiUpd(p.pending), Added(p.pending), now);
        (r.(sender := WaitRiUpdAck), out)
      else (p, [])
  }

  /** RD on a sender connection that is up and not already going down. */
  function Shutdown(p: PeerState, now: Time): Sent {
    if p.sender == SUnconnected || p.sender == WaitRdAck then (p, [])
    else
      var (q, out) := SendSequenced(p.(outstanding := None, pages := []), Rd(-1), [], now);
      (q.(sender := WaitRdAck), out)
  }
}
