/** The bridge between an EtherTalk cable and a LocalTalk link: which side each
    node lives on, what is owed to whom, and how silence settles a contradiction.
    The class in BridgeBox.dfy changes its fields in place and is proved against
    these functions. */
module Bridge {
  import opened Wire
  import Ddp

  const ENTRY_TTL: nat := 30 * SECOND
  const QUERY_TIMEOUT: nat := 2 * SECOND

  const LLAP_SHORT_DDP: Byte := 0x01
  const LLAP_LONG_DDP: Byte := 0x02
  const LLAP_ENQ: Byte := 0x81
  const LLAP_ACK: Byte := 0x82

  const REQUEST: nat := 1
  const RESPONSE: nat := 2
  const PROBE: nat := 3

  type Mac = nat
  const BROADCAST_MAC: Mac := 0x0900_07ff_ffff
  const NO_MAC: Mac := 0

  datatype Side = Ether(mac: Mac) | Local

  /** The same link, whatever MAC. */
  predicate SameSide(a: Side, b: Side) { a.Ether? == b.Ether? }

  datatype Link = EtherLink | LocalLink | BothLinks

  function LinkOf(s: Side): Link { if s.Ether? then EtherLink else LocalLink }

  datatype Owed = LocalAck | EtherResponse(to: Addr, toMac: Mac) | Nothing

  datatype Entry = Entry(side: Side, confirmed: Time, doubted: bool)

  datatype Question = Question(asked: Time, owed: Owed, movedTo: Option<Side>)

  datatype Aarp = Aarp(op: nat, srcHw: Mac, src: Addr, dstHw: Mac, dst: Addr)

  datatype Llap = Llap(dst: Byte, src: Byte, typ: Byte, data: Bytes)

  datatype Body = AarpBody(aarp: Aarp) | DdpBody(ddp: Ddp.Datagram) | UnknownBody

  /** A frame off the cable: its source, whether it is 802.3 with SNAP, what it
      decoded to, and its payload verbatim. */
  datatype Frame = Frame(src: Mac, snap: bool, body: Body, payload: Bytes)

  datatype Action =
    | SendAarp(dst: Mac, aarp: Aarp)
    | SendDdp(dst: Mac, payload: Bytes)
    | ToLocal(llap: Llap)
    | Duplicate(node: Byte)

  datatype In = OnEther(frame: Frame) | OnLocal(llap: Llap) | Tick

  datatype Bridge = Bridge(addr: Addr, mac: Mac, nodes: map<Byte, Entry>, pending: map<Byte, Question>,
                           amt: map<Addr, Mac>)

  type Done = (Bridge, seq<Action>)

  function Control(n: Byte, typ: Byte): Action { ToLocal(Llap(n, n, typ, [])) }

  function Answer(b: Bridge, src: Addr, to: Addr, toMac: Mac): Action {
    SendAarp(toMac, Aarp(RESPONSE, b.mac, src, toMac, to))
  }

  /** The nodes an entry is kept for: not 0, not 255, not this bridge. */
  predicate NoNode(b: Bridge, n: Byte) { n == 0 || n == 255 || n == b.addr.node }

  /** A new bridge places the gleaned neighbours of its network on Ethernet. */
  function Start(addr: Addr, mac: Mac, amt: map<Addr, Mac>, now: Time): Bridge {
    Bridge(addr, mac,
           map n: Byte | Addr(addr.net, n) in amt && n != addr.node && n != 0 && n != 255
             :: Entry(Ether(amt[Addr(addr.net, n)]), now, false),
           map[],
           map a | a in amt && a.net != addr.net :: amt[a])
  }

  function Live(b: Bridge, n: Byte): Option<Side> {
    if n in b.nodes && !b.nodes[n].doubted then Some(b.nodes[n].side) else None
  }

  /** A question about a node, asked on one side or on both, unless one is open already. */
  function AskAbout(b: Bridge, n: Byte, link: Link, owed: Owed, movedTo: Option<Side>, now: Time): Done {
    if n == 0 || n == 255 || n in b.pending then (b, [])
    else
      var target := Addr(b.addr.net, n);
      var request := SendAarp(BROADCAST_MAC, Aarp(REQUEST, b.mac, b.addr, NO_MAC, target));
      var probe := SendAarp(BROADCAST_MAC, Aarp(PROBE, b.mac, target, NO_MAC, target));
      var enq := Control(n, LLAP_ENQ);
      (b.(pending := b.pending[n := Question(now, owed, movedTo)]),
       match link
       case EtherLink => [if owed == LocalAck then probe else request]
       case LocalLink => [enq]
       case BothLinks => [request, enq])
  }

  /** `n` was heard from on `side`. */
  function Confirm(b: Bridge, n: Byte, side: Side, now: Time): Done {
    if NoNode(b, n) then (b, [])
    else if n !in b.nodes then (b.(nodes := b.nodes[n := Entry(side, now, false)]), [])
    else
      var e := b.nodes[n];
      if !SameSide(e.side, side) then
        if e.doubted then (b, [])
        else
          // Believe neither; ask the side we believed, displacing any question in flight.
          var c := b.(nodes := b.nodes[n := Entry(e.side, now, true)], pending := b.pending - {n});
          AskAbout(c, n, LinkOf(e.side), Nothing, Some(side), now)
      else if n in b.pending && b.pending[n].movedTo.Some? then
        (b.(pending := b.pending - {n}), [Duplicate(n)])
      else if e.doubted then (b, [])
      else (b.(nodes := b.nodes[n := Entry(side, now, false)]), [])
  }

  /** The answer a debt on `n` comes to, once `n` has been heard. */
  function Settle(b: Bridge, n: Byte, answered: Side): Done {
    if n !in b.pending || b.pending[n].movedTo.Some? then (b, [])
    else
      var paid := b.(pending := b.pending - {n});
      match b.pending[n].owed
      case LocalAck => if answered.Ether? then (paid, [Control(n, LLAP_ACK)]) else (b, [])
      case EtherResponse(to, toMac) =>
        if !answered.Local? then (b, [])
        else if n in b.nodes && Live(b, n) != Some(Local) then (paid, [])
        else (paid, [Answer(b, Addr(b.addr.net, n), to, toMac)])
      case Nothing => (b, [])
  }

  predicate Overdue(q: Question, now: Time) { Since(now, q.asked) >= QUERY_TIMEOUT }

  /** The nodes whose move-check has gone unanswered, with the side they moved to. */
  function Moved(b: Bridge, now: Time): map<Byte, Side> {
    map n | n in b.pending && Overdue(b.pending[n], now) && b.pending[n].movedTo.Some?
      :: b.pending[n].movedTo.value
  }

  /** Forget what nobody confirmed; silence answers a move-check. */
  function Expire(b: Bridge, now: Time): Bridge {
    var kept := map n | n in b.nodes && Since(now, b.nodes[n].confirmed) < ENTRY_TTL :: b.nodes[n];
    var moved := Moved(b, now);
    b.(nodes := kept + (map n | n in moved :: Entry(moved[n], now, false)),
       pending := map n | n in b.pending && !Overdue(b.pending[n], now) :: b.pending[n])
  }

  function Then(d: Done, e: Done): Done { (e.0, d.1 + e.1) }

  function EtherAarp(b: Bridge, a: Aarp, now: Time): Done {
    // Someone probes with our address, or asks for it: it is taken.
    if (a.op == PROBE && a.src == b.addr && a.srcHw != b.mac) || (a.op == REQUEST && a.dst == b.addr) then
      (b, [Answer(b, b.addr, a.src, a.srcHw)])
    else if a.op == RESPONSE then
      if a.src.net != b.addr.net then (b.(amt := b.amt[a.src := a.srcHw]), [])
      else
        var side := Ether(a.srcHw);
        var c := Confirm(b, a.src.node, side, now);
        Then(c, Settle(c.0, a.src.node, side))
    else if (a.op == REQUEST || a.op == PROBE) && a.dst.net == b.addr.net && a.dst.node != b.addr.node then
      var n := a.dst.node;
      var owed := EtherResponse(a.src, a.srcHw);
      match Live(b, n)
      case Some(Local) =>
        if a.op == REQUEST then (b, [Answer(b, Addr(b.addr.net, n), a.src, a.srcHw)])
        else AskAbout(b, n, LocalLink, owed, None, now)
      case Some(Ether(_)) => (b, [])
      case None => AskAbout(b, n, LocalLink, owed, None, now)
    else (b, [])
  }

  /** A datagram crosses to LocalTalk verbatim, if its length is honest and legal. */
  function Cross(f: Frame, d: Ddp.Datagram): seq<Action> {
    var len := |f.payload|;
    if !(13 <= len <= 600) || d.length != len then []
    else [ToLocal(Llap(d.dst.node, d.src.node, LLAP_LONG_DDP, f.payload))]
  }

  function EtherDdp(b: Bridge, f: Frame, d: Ddp.Datagram, now: Time): Done {
    var c := if d.src.net == b.addr.net then Confirm(b, d.src.node, Ether(f.src), now)
             else (b.(amt := b.amt[d.src := f.src]), []);
    var u := c.0;
    if d.src.net == b.addr.net && Live(u, d.src.node).None? && d.src.node in u.nodes then c
    else if d.dst == b.addr then c
    else if d.dst.net != b.addr.net && d.dst.node != 255 then c
    else if d.dst.node == 255 then Then(c, (u, Cross(f, d)))
    else
      match Live(u, d.dst.node)
      case Some(Local) => Then(c, (u, Cross(f, d)))
      case Some(Ether(_)) => c
      case None =>
        if d.dst.node in u.nodes then c
        else
          var q := AskAbout(u, d.dst.node, BothLinks, Nothing, None, now);
          Then(c, (q.0, Cross(f, d) + q.1))
  }

  function MacFor(b: Bridge, dst: Addr): Mac {
    if dst.node == 255 || dst !in b.amt then BROADCAST_MAC else b.amt[dst]
  }

  /** The datagram an LLAP frame carries, in the extended form. */
  function Lifted(b: Bridge, l: Llap): Option<(Addr, Bytes)> {
    if l.typ == LLAP_SHORT_DDP then
      match Ddp.FromShort(l.data, b.addr.net, l.dst, l.src)
      case Some(d) => Some((d.dst, Ddp.Encode(d)))
      case None => None
    else
      match Ddp.Parse(l.data)
      case Some(d) => Some((d.dst, l.data))
      case None => None
  }

  function LocalDdp(b: Bridge, l: Llap, now: Time): Done {
    var c := Confirm(b, l.src, Local, now);
    var u := c.0;
    if Live(u, l.src).None? && l.src in u.nodes then c
    else
      match Lifted(u, l)
      case None => c
      case Some((dst, bytes)) =>
        if l.dst == 255 || dst.node == 255 then Then(c, (u, [SendDdp(BROADCAST_MAC, bytes)]))
        else if dst.net == u.addr.net then
          match Live(u, dst.node)
          case Some(Ether(m)) => Then(c, (u, [SendDdp(m, bytes)]))
          case Some(Local) => c
          case None => Then(c, (u, [SendDdp(BROADCAST_MAC, bytes)]))
        else Then(c, (u, [SendDdp(MacFor(u, dst), bytes)]))
  }

  function Arrived(b: Bridge, i: In, now: Time): Done {
    match i
    case Tick => (b, [])
    case OnEther(f) =>
      if f.src == b.mac || !f.snap then (b, [])
      else
        (match f.body
         case AarpBody(a) => EtherAarp(b, a, now)
         case DdpBody(d) => EtherDdp(b, f, d, now)
         case UnknownBody => (b, []))
    case OnLocal(l) =>
      if l.typ == LLAP_SHORT_DDP || l.typ == LLAP_LONG_DDP then LocalDdp(b, l, now)
      else if l.typ == LLAP_ENQ then
        if l.dst == b.addr.node then (b, [Control(l.dst, LLAP_ACK)])
        else AskAbout(b, l.dst, EtherLink, LocalAck, None, now)
      else if l.typ == LLAP_ACK then
        var c := Confirm(b, l.src, Local, now);
        Then(c, Settle(c.0, l.src, Local))
      else (b, [])
  }

  /** One step: the reports of moves (in no order), then the other actions. */
  datatype Outcome = Outcome(bridge: Bridge, moved: map<Byte, Side>, actions: seq<Action>)

  function Step(b: Bridge, i: In, now: Time): Outcome {
    var d := Arrived(Expire(b, now), i, now);
    Outcome(d.0, Moved(b, now), d.1)
  }
}
