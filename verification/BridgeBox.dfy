/** The bridge as it runs: an object whose maps every frame changes in place, each
    method proved against its value in Bridge.dfy. */
module BridgeBox {
  import opened Wire
  import opened Spec = Bridge
  import Ddp

  class Box {
    const addr: Addr
    const mac: Mac
    var nodes: map<Byte, Entry>
    var pending: map<Byte, Question>
    var amt: map<Addr, Mac>

    ghost function View(): Spec.Bridge
      reads this
    {
      Spec.Bridge(addr, mac, nodes, pending, amt)
    }

    constructor (addr: Addr, mac: Mac, known: map<Addr, Mac>, now: Time)
      ensures View() == Start(addr, mac, known, now)
    {
      this.addr, this.mac := addr, mac;
      pending := map[];
      nodes := map n: Byte | Addr(addr.net, n) in known && n != addr.node && n != 0 && n != 255
                 :: Entry(Ether(known[Addr(addr.net, n)]), now, false);
      amt := map a | a in known && a.net != addr.net :: known[a];
    }

    /** Where an undoubted node lives; None for any other. */
    function LiveSide(n: Byte): (s: Option<Side>)
      reads this
      ensures s == Live(View(), n)
    {
      if n in nodes && !nodes[n].doubted then Some(nodes[n].side) else None
    }

    // ----------------------------------------------------------- questions

    method Ask(n: Byte, link: Link, owed: Owed, movedTo: Option<Side>, now: Time) returns (out: seq<Action>)
      modifies `pending
      ensures (View(), out) == AskAbout(old(View()), n, link, owed, movedTo, now)
    {
      if n == 0 || n == 255 || n in pending { return []; }
      pending := pending[n := Question(now, owed, movedTo)];
      var target := Addr(addr.net, n);
      match link
      case EtherLink =>
        var a := if owed == LocalAck then Aarp(PROBE, mac, target, NO_MAC, target)
                 else Aarp(REQUEST, mac, addr, NO_MAC, target);
        out := [SendAarp(BROADCAST_MAC, a)];
      case LocalLink => out := [Control(n, LLAP_ENQ)];
      case BothLinks =>
        out := [SendAarp(BROADCAST_MAC, Aarp(REQUEST, mac, addr, NO_MAC, target)), Control(n, LLAP_ENQ)];
    }

    /** Records that `n` was heard from on `side`. */
    method Confirm(n: Byte, side: Side, now: Time) returns (out: seq<Action>)
      modifies `nodes, `pending
      ensures (View(), out) == Spec.Confirm(old(View()), n, side, now)
    {
      out := [];
      if n == 0 || n == 255 || n == addr.node { return; }
      if n !in nodes {
        nodes := nodes[n := Entry(side, now, false)];
        return;
      }
      var believed, doubted := nodes[n].side, nodes[n].doubted;
      if !SameSide(believed, side) {
        if doubted { return; }
        nodes := nodes[n := Entry(believed, now, true)];
        pending := pending - {n};
        out := Ask(n, LinkOf(believed), Nothing, Some(side), now);
        return;
      }
      if n in pending && pending[n].movedTo.Some? {
        pending := pending - {n};
        return [Duplicate(n)];
      }
      if doubted { return; }
      nodes := nodes[n := Entry(side, now, false)];
    }

    /** The answer a debt on `n` comes to, once `n` has been heard. */
    method SettleDebt(n: Byte, answered: Side) returns (out: seq<Action>)
      modifies `pending
      ensures (View(), out) == Settle(old(View()), n, answered)
    {
      out := [];
      if n !in pending { return; }
      var q := pending[n];
      if q.movedTo.Some? { return; }
      if q.owed.LocalAck? && answered.Ether? {
        pending := pending - {n};
        out := [Control(n, LLAP_ACK)];
      } else if q.owed.EtherResponse? && answered.Local? {
        pending := pending - {n};
        if n in nodes && LiveSide(n) != Some(Local) { return; }
        var response := Aarp(RESPONSE, mac, Addr(addr.net, n), q.owed.toMac, q.owed.to);
        out := [SendAarp(q.owed.toMac, response)];
      }
    }

    // ----------------------------------------------------------- expiry

    /** Drops entries that aged out and closes overdue questions: silence decides a
        move-check. */
    method Expire(now: Time) returns (moved: map<Byte, Side>)
      modifies `nodes, `pending
      ensures View() == Spec.Expire(old(View()), now) && moved == Moved(old(View()), now)
    {
      nodes := Unexpired(nodes, now);
      ghost var kept, asked := nodes, pending;
      var due := OverdueNodes(pending, now);
      ghost var done: set<Byte> := {};
      moved := map[];
      while due != {}
        invariant done !! due && done + due == OverdueNodes(asked, now)
        invariant Resolved(asked, kept, now, done, pending, nodes, moved)
        decreases due
      {
        var n :| n in due;
        due := due - {n};
        var q := pending[n];
        pending := pending - {n};
        if q.movedTo.Some? {
          nodes := nodes[n := Entry(q.movedTo.value, now, false)];
          moved := moved[n := q.movedTo.value];
        }
        done := done + {n};
      }
      AllResolved(old(View()), now, View(), moved);
    }

    // ----------------------------------------------------------- frames off the cable

    method EtherAarp(a: Aarp, now: Time) returns (out: seq<Action>)
      modifies this
      ensures (View(), out) == Spec.EtherAarp(old(View()), a, now)
    {
      if (a.op == PROBE && a.src == addr && a.srcHw != mac) || (a.op == REQUEST && a.dst == addr) {
        return [SendAarp(a.srcHw, Aarp(RESPONSE, mac, addr, a.srcHw, a.src))];
      }
      out := [];
      if a.op == RESPONSE {
        if a.src.net != addr.net {
          amt := amt[a.src := a.srcHw];
          return;
        }
        out := Confirm(a.src.node, Ether(a.srcHw), now);
        var paid := SettleDebt(a.src.node, Ether(a.srcHw));
        out := out + paid;
        return;
      }
      if (a.op == REQUEST || a.op == PROBE) && a.dst.net == addr.net && a.dst.node != addr.node {
        var n := a.dst.node;
        var known := LiveSide(n);
        if known == Some(Local) && a.op == REQUEST {
          out := [SendAarp(a.srcHw, Aarp(RESPONSE, mac, Addr(addr.net, n), a.srcHw, a.src))];
        } else if known.None? || known.value.Local? {
          out := Ask(n, LocalLink, EtherResponse(a.src, a.srcHw), None, now);
        }
      }
    }

    method EtherDdp(f: Frame, d: Ddp.Datagram, now: Time) returns (out: seq<Action>)
      modifies this
      ensures (View(), out) == Spec.EtherDdp(old(View()), f, d, now)
    {
      out := [];
      if d.src.net == addr.net {
        out := Confirm(d.src.node, Ether(f.src), now);
        if LiveSide(d.src.node).None? && d.src.node in nodes { return; }
      } else {
        amt := amt[d.src := f.src];
      }
      if d.dst == addr || (d.dst.net != addr.net && d.dst.node != 255) { return; }
      if d.dst.node == 255 {
        out := out + Cross(f, d);
        return;
      }
      var known := LiveSide(d.dst.node);
      if known == Some(Local) {
        out := out + Cross(f, d);
      } else if known.None? && d.dst.node !in nodes {
        var question := Ask(d.dst.node, BothLinks, Nothing, None, now);
        out := out + (Cross(f, d) + question);
      }
    }

    method EtherFrame(f: Frame, now: Time) returns (out: seq<Action>)
      modifies this
      ensures (View(), out) == Arrived(old(View()), OnEther(f), now)
    {
      if f.src == mac || !f.snap { return []; }
      match f.body
      case AarpBody(a) => out := EtherAarp(a, now);
      case DdpBody(d) => out := EtherDdp(f, d, now);
      case UnknownBody => out := [];
    }

    // ----------------------------------------------------------- frames off LocalTalk

    method LocalDdp(l: Llap, now: Time) returns (out: seq<Action>)
      modifies this
      ensures (View(), out) == Spec.LocalDdp(old(View()), l, now)
    {
      out := Confirm(l.src, Local, now);
      if LiveSide(l.src).None? && l.src in nodes { return; }
      var dst, bytes;
      if l.typ == LLAP_SHORT_DDP {
        var d := Ddp.FromShort(l.data, addr.net, l.dst, l.src);
        if d.None? { return; }
        dst, bytes := d.value.dst, Ddp.Encode(d.value);
      } else {
        var d := Ddp.Parse(l.data);
        if d.None? { return; }
        dst, bytes := d.value.dst, l.data;
      }
      var to := BROADCAST_MAC;
      if l.dst != 255 && dst.node != 255 {
        if dst.net == addr.net {
          match LiveSide(dst.node)
          case Some(Ether(m)) => to := m;
          case Some(Local) => return;
          case None =>
        } else if dst in amt {
          to := amt[dst];
        }
      }
      out := out + [SendDdp(to, bytes)];
    }

    method LocalFrame(l: Llap, now: Time) returns (out: seq<Action>)
      modifies this
      ensures (View(), out) == Arrived(old(View()), OnLocal(l), now)
    {
      out := [];
      if l.typ == LLAP_SHORT_DDP || l.typ == LLAP_LONG_DDP {
        out := LocalDdp(l, now);
      } else if l.typ == LLAP_ENQ && l.dst == addr.node {
        out := [Control(l.dst, LLAP_ACK)];
      } else if l.typ == LLAP_ENQ {
        out := Ask(l.dst, EtherLink, LocalAck, None, now);
      } else if l.typ == LLAP_ACK {
        out := Confirm(l.src, Local, now);
        var paid := SettleDebt(l.src, Local);
        out := out + paid;
      }
    }

    /** One input: expiry runs before the frame, if there is one, is looked at. */
    method Step(i: In, now: Time) returns (moved: map<Byte, Side>, out: seq<Action>)
      modifies this
      ensures Outcome(View(), moved, out) == Spec.Step(old(View()), i, now)
    {
      moved := Expire(now);
      match i
      case Tick => out := [];
      case OnEther(f) => out := EtherFrame(f, now);
      case OnLocal(l) => out := LocalFrame(l, now);
    }
  }

  function Unexpired(nodes: map<Byte, Entry>, now: Time): map<Byte, Entry> {
    map n | n in nodes && Since(now, nodes[n].confirmed) < ENTRY_TTL :: nodes[n]
  }

  function OverdueNodes(pending: map<Byte, Question>, now: Time): set<Byte> {
    set n | n in pending && Overdue(pending[n], now)
  }

  /** What resolving the questions about the nodes `done` has come to. */
  ghost predicate Resolved(asked: map<Byte, Question>, kept: map<Byte, Entry>, now: Time, done: set<Byte>,
                           pending: map<Byte, Question>, nodes: map<Byte, Entry>, moved: map<Byte, Side>)
  {
    && (forall n :: n in done ==> n in asked)
    && (forall n :: n in pending <==> n in asked && n !in done)
    && (forall n :: n in pending ==> pending[n] == asked[n])
    && (forall n :: n in moved <==> n in done && asked[n].movedTo.Some?)
    && (forall n :: n in moved ==> moved[n] == asked[n].movedTo.value)
    && (forall n :: n in nodes <==> n in kept || n in moved)
    && (forall n :: n in nodes ==> nodes[n] == if n in moved then Entry(moved[n], now, false) else kept[n])
  }

  lemma SameMap<V>(a: map<Byte, V>, b: map<Byte, V>)
    requires forall n: Byte :: Get(a, n) == Get(b, n)
    ensures a == b
  {
    forall n | n in a ensures n in b && a[n] == b[n] { assert Get(a, n) == Get(b, n); }
    forall n | n in b ensures n in a { assert Get(a, n) == Get(b, n); }
  }

  lemma ResolvedAt(b: Spec.Bridge, now: Time, c: Spec.Bridge, moved: map<Byte, Side>, n: Byte)
    requires Resolved(b.pending, Unexpired(b.nodes, now), now, OverdueNodes(b.pending, now), c.pending, c.nodes, moved)
    ensures Get(moved, n) == Get(Moved(b, now), n)
    ensures Get(c.pending, n) == Get(Expire(b, now).pending, n) && Get(c.nodes, n) == Get(Expire(b, now).nodes, n)
  {
    assert n in OverdueNodes(b.pending, now) <==> n in b.pending && Overdue(b.pending[n], now);
    assert n in Moved(b, now) <==> n in moved;
  }

  lemma AllResolved(b: Spec.Bridge, now: Time, c: Spec.Bridge, moved: map<Byte, Side>)
    requires c.addr == b.addr && c.mac == b.mac && c.amt == b.amt
    requires Resolved(b.pending, Unexpired(b.nodes, now), now, OverdueNodes(b.pending, now), c.pending, c.nodes, moved)
    ensures c == Expire(b, now) && moved == Moved(b, now)
  {
    forall n: Byte
      ensures Get(moved, n) == Get(Moved(b, now), n)
      ensures Get(c.pending, n) == Get(Expire(b, now).pending, n) && Get(c.nodes, n) == Get(Expire(b, now).nodes, n)
    {
      ResolvedAt(b, now, c, moved, n);
    }
    hide Moved, Resolved;
    SameMap(moved, Moved(b, now));
    SameMap(c.pending, Expire(b, now).pending);
    SameMap(c.nodes, Expire(b, now).nodes);
  }
}
