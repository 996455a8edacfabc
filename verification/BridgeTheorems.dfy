/** What the bridge keeps over every run: contests are settled by silence, answers
    are paid for once, and nobody is answered for against the evidence. */
module BridgeTheorems {
  import opened Wire
  import opened Bridge
  import Ddp

  // ------------------------------------------------------------- the invariant

  /** Every move-check has a doubted entry, believed on the other side and stamped
      with the same time; and nothing is kept about a node that cannot be. */
  ghost predicate Contested(b: Bridge, n: Byte)
    requires n in b.pending
  {
    && n in b.nodes && b.nodes[n].doubted
    && b.nodes[n].confirmed == b.pending[n].asked
    && b.pending[n].movedTo.Some? && !SameSide(b.nodes[n].side, b.pending[n].movedTo.value)
  }

  ghost predicate BridgeInv(b: Bridge) {
    && (forall n :: n in b.nodes ==> n != 0 && n != 255 && n != b.addr.node)
    && (forall n :: n in b.pending ==> n != 0 && n != 255 && n != b.addr.node)
    && (forall n :: n in b.pending && b.pending[n].movedTo.Some? ==> Contested(b, n) && b.pending[n].owed == Nothing)
  }

  /** Nothing is stamped later than now. */
  ghost predicate Stamped(b: Bridge, now: Time) {
    && (forall n :: n in b.nodes ==> b.nodes[n].confirmed <= now)
    && (forall n :: n in b.pending ==> b.pending[n].asked <= now)
  }

  /** Entries are younger than 30 s and questions younger than 2 s. */
  ghost predicate Recent(b: Bridge, now: Time) {
    && (forall n :: n in b.nodes ==> now - b.nodes[n].confirmed < ENTRY_TTL)
    && (forall n :: n in b.pending ==> now - b.pending[n].asked < QUERY_TIMEOUT)
  }

  ghost predicate Good(b: Bridge, now: Time) { BridgeInv(b) && Stamped(b, now) && Recent(b, now) }

  /** The side an input proves a node to be on. */
  function HeardFrom(b: Bridge, i: In): Option<(Byte, Side)> {
    match i
    case Tick => None
    case OnEther(f) =>
      if f.src == b.mac || !f.snap then None
      else
        (match f.body
         case AarpBody(a) => if a.op == RESPONSE && a.src.net == b.addr.net then Some((a.src.node, Ether(a.srcHw))) else None
         case DdpBody(d) => if d.src.net == b.addr.net then Some((d.src.node, Ether(f.src))) else None
         case UnknownBody => None)
    case OnLocal(l) =>
      if l.typ == LLAP_SHORT_DDP || l.typ == LLAP_LONG_DDP || l.typ == LLAP_ACK then Some((l.src, Local)) else None
  }

  ghost predicate SameBox(b: Bridge, c: Bridge) { c.addr == b.addr && c.mac == b.mac }

  /** What an operation that heard `heard` may do to one node, short of expiry: a
      known node keeps its side; a doubted entry is never refreshed; and a
      move-check left standing is either new or the same one, the believed side
      not having spoken. */
  ghost predicate Kept(b: Bridge, c: Bridge, z: Byte, heard: Option<(Byte, Side)>, now: Time) {
    && (z in b.nodes ==> z in c.nodes && SameSide(c.nodes[z].side, b.nodes[z].side))
    && (z in b.nodes && b.nodes[z].doubted ==> c.nodes[z] == b.nodes[z])
    && (z in c.pending && c.pending[z].movedTo.Some? && c.pending[z].asked != now ==>
          && z in b.pending && b.pending[z] == c.pending[z]
          && (heard.Some? && heard.value.0 == z ==> z in b.nodes && !SameSide(heard.value.1, b.nodes[z].side)))
  }

  /** No entry changes and no move-check appears. */
  ghost predicate Quiet(b: Bridge, c: Bridge) {
    && SameBox(b, c) && c.nodes == b.nodes
    && (forall z :: z in c.pending && c.pending[z].movedTo.Some? ==> z in b.pending && b.pending[z] == c.pending[z])
  }

  lemma QuietKeeps(b: Bridge, u: Bridge, c: Bridge, z: Byte, heard: Option<(Byte, Side)>, now: Time)
    requires Kept(b, u, z, heard, now) && Quiet(u, c)
    ensures Kept(b, c, z, heard, now)
  {
  }

  // ------------------------------------------------------------- operation by operation

  lemma AskIsGood(b: Bridge, n: Byte, link: Link, owed: Owed, now: Time)
    requires Good(b, now) && n != b.addr.node
    ensures var c := AskAbout(b, n, link, owed, None, now).0; Good(c, now) && Quiet(b, c)
  {
  }

  lemma SettleIsGood(b: Bridge, n: Byte, side: Side, now: Time)
    requires Good(b, now)
    ensures var c := Settle(b, n, side).0; Good(c, now) && Quiet(b, c)
  {
  }

  lemma ConfirmKeeps(b: Bridge, n: Byte, side: Side, now: Time, z: Byte)
    requires BridgeInv(b)
    ensures Kept(b, Confirm(b, n, side, now).0, z, Some((n, side)), now)
  {
  }

  lemma ConfirmKeepsInv(b: Bridge, n: Byte, side: Side, now: Time)
    requires BridgeInv(b)
    ensures var c := Confirm(b, n, side, now).0; BridgeInv(c) && SameBox(b, c) && (!NoNode(b, n) ==> n in c.nodes)
  {
  }

  lemma ConfirmKeepsTimes(b: Bridge, n: Byte, side: Side, now: Time)
    requires Stamped(b, now) && Recent(b, now)
    ensures Stamped(Confirm(b, n, side, now).0, now) && Recent(Confirm(b, n, side, now).0, now)
  {
  }

  lemma ConfirmIsGood(b: Bridge, n: Byte, side: Side, now: Time)
    requires Good(b, now)
    ensures var c := Confirm(b, n, side, now).0;
            && Good(c, now) && SameBox(b, c)
            && (forall z: Byte :: Kept(b, c, z, Some((n, side)), now))
            && (!NoNode(b, n) ==> n in c.nodes)
  {
    ConfirmKeepsInv(b, n, side, now);
    ConfirmKeepsTimes(b, n, side, now);
    hide Kept, Confirm, BridgeInv, Stamped, Recent;
    forall z: Byte ensures Kept(b, Confirm(b, n, side, now).0, z, Some((n, side)), now) {
      ConfirmKeeps(b, n, side, now, z);
    }
  }

  lemma ExpireIsGood(b: Bridge, now: Time)
    requires BridgeInv(b) && Stamped(b, now)
    ensures Good(Expire(b, now), now) && SameBox(b, Expire(b, now))
  {
    var c := Expire(b, now);
    forall n | n in c.pending && c.pending[n].movedTo.Some? ensures Contested(c, n) {
      assert Contested(b, n);
      assert n !in Moved(b, now);
    }
  }

  lemma ArrivedIsGood(b: Bridge, i: In, now: Time)
    requires Good(b, now)
    ensures var c := Arrived(b, i, now).0;
            && Good(c, now) && SameBox(b, c)
            && (forall z: Byte :: Kept(b, c, z, HeardFrom(b, i), now))
  {
    match i
    case Tick =>
    case OnEther(f) =>
      if f.src != b.mac && f.snap {
        match f.body
        case AarpBody(a) => EtherAarpIsGood(b, a, now);
        case DdpBody(d) => EtherDdpIsGood(b, f, d, now);
        case UnknownBody =>
      }
    case OnLocal(l) =>
      if l.typ == LLAP_SHORT_DDP || l.typ == LLAP_LONG_DDP {
        ConfirmIsGood(b, l.src, Local, now);
        assert LocalDdp(b, l, now).0 == Confirm(b, l.src, Local, now).0;
      } else if l.typ == LLAP_ENQ {
        if l.dst != b.addr.node { AskIsGood(b, l.dst, EtherLink, LocalAck, now); }
      } else if l.typ == LLAP_ACK {
        HearThenSettle(b, l.src, Local, now);
      }
  }

  lemma HearThenSettle(b: Bridge, n: Byte, side: Side, now: Time)
    requires Good(b, now)
    ensures var c := Settle(Confirm(b, n, side, now).0, n, side).0;
            Good(c, now) && SameBox(b, c) && (forall z: Byte :: Kept(b, c, z, Some((n, side)), now))
  {
    ConfirmIsGood(b, n, side, now);
    var u := Confirm(b, n, side, now).0;
    SettleIsGood(u, n, side, now);
    forall z: Byte ensures Kept(b, Settle(u, n, side).0, z, Some((n, side)), now) {
      QuietKeeps(b, u, Settle(u, n, side).0, z, Some((n, side)), now);
    }
  }

  lemma EtherAarpIsGood(b: Bridge, a: Aarp, now: Time)
    requires Good(b, now)
    ensures var c := EtherAarp(b, a, now).0;
            var heard := if a.op == RESPONSE && a.src.net == b.addr.net then Some((a.src.node, Ether(a.srcHw))) else None;
            Good(c, now) && SameBox(b, c) && (forall z: Byte :: Kept(b, c, z, heard, now))
  {
    if a.op == RESPONSE && a.src.net == b.addr.net {
      HearThenSettle(b, a.src.node, Ether(a.srcHw), now);
    } else if a.dst.node != b.addr.node {
      AskIsGood(b, a.dst.node, LocalLink, EtherResponse(a.src, a.srcHw), now);
    }
  }

  lemma EtherDdpIsGood(b: Bridge, f: Frame, d: Ddp.Datagram, now: Time)
    requires Good(b, now)
    ensures var c := EtherDdp(b, f, d, now).0;
            var heard := if d.src.net == b.addr.net then Some((d.src.node, Ether(f.src))) else None;
            Good(c, now) && SameBox(b, c) && (forall z: Byte :: Kept(b, c, z, heard, now))
  {
    var heard := if d.src.net == b.addr.net then Some((d.src.node, Ether(f.src))) else None;
    var u := if d.src.net == b.addr.net then Confirm(b, d.src.node, Ether(f.src), now).0 else b.(amt := b.amt[d.src := f.src]);
    if d.src.net == b.addr.net { ConfirmIsGood(b, d.src.node, Ether(f.src), now); }
    assert Good(u, now) && SameBox(b, u) && forall z: Byte :: Kept(b, u, z, heard, now);
    var c := EtherDdp(b, f, d, now).0;
    if c != u {
      AskIsGood(u, d.dst.node, BothLinks, Nothing, now);
      forall z: Byte ensures Kept(b, c, z, heard, now) { QuietKeeps(b, u, c, z, heard, now); }
    }
  }

  /** Every step, whatever arrives, leaves a good bridge. */
  lemma StepIsGood(b: Bridge, i: In, now: Time)
    requires BridgeInv(b) && Stamped(b, now)
    ensures Good(Step(b, i, now).bridge, now) && SameBox(b, Step(b, i, now).bridge)
  {
    ExpireIsGood(b, now);
    ArrivedIsGood(Expire(b, now), i, now);
  }

  // ------------------------------------------------------------- moves

  /** A known node changes side only through a reported move, its move-check having
      stood for two seconds, or after its entry aged out. */
  lemma SideChangesBySilence(b: Bridge, i: In, now: Time, n: Byte)
    requires BridgeInv(b) && Stamped(b, now)
    requires var c := Step(b, i, now).bridge;
             n in b.nodes && n in c.nodes && !SameSide(b.nodes[n].side, c.nodes[n].side)
    ensures var o := Step(b, i, now);
            || (n in o.moved && n in b.pending && b.pending[n].movedTo == Some(o.moved[n])
                && now - b.pending[n].asked >= QUERY_TIMEOUT && SameSide(o.moved[n], o.bridge.nodes[n].side))
            || now - b.nodes[n].confirmed >= ENTRY_TTL
  {
    var e := Expire(b, now);
    ExpireIsGood(b, now);
    ArrivedIsGood(e, i, now);
    assert Kept(e, Arrived(e, i, now).0, n, HeardFrom(e, i), now);
    if n in b.pending && b.pending[n].movedTo.Some? { assert Contested(b, n); }
  }

  /** While a node is in doubt its entry stands still until a move is reported or
      it ages out, so no contest outlives the lifetime of an entry. */
  lemma DoubtStandsStill(b: Bridge, i: In, now: Time, n: Byte)
    requires BridgeInv(b) && Stamped(b, now) && n in b.nodes && b.nodes[n].doubted
    ensures var o := Step(b, i, now);
            || (n in o.bridge.nodes && o.bridge.nodes[n] == b.nodes[n] && now - b.nodes[n].confirmed < ENTRY_TTL)
            || n in o.moved
            || now - b.nodes[n].confirmed >= ENTRY_TTL
  {
    var e := Expire(b, now);
    ExpireIsGood(b, now);
    ArrivedIsGood(e, i, now);
    assert Kept(e, Arrived(e, i, now).0, n, HeardFrom(e, i), now);
  }

  // ------------------------------------------------------------- answers

  /** Questions and datagrams only: no ID is denied and nobody is answered for. */
  ghost predicate NoAnswers(acts: seq<Action>) {
    forall k :: 0 <= k < |acts| ==>
      && (acts[k].ToLocal? ==> acts[k].llap.typ != LLAP_ACK)
      && (acts[k].SendAarp? ==> acts[k].aarp.op != RESPONSE)
  }

  /** No debt to a LocalTalk claimant appears. */
  ghost predicate NoNewDebt(b: Bridge, c: Bridge) {
    forall z :: z in c.pending && c.pending[z].owed == LocalAck ==> z in b.pending && b.pending[z] == c.pending[z]
  }

  ghost predicate Discreet(b: Bridge, d: Done) { NoAnswers(d.1) && NoNewDebt(b, d.0) }

  lemma AskIsDiscreet(b: Bridge, n: Byte, link: Link, owed: Owed, movedTo: Option<Side>, now: Time)
    ensures NoAnswers(AskAbout(b, n, link, owed, movedTo, now).1)
    ensures owed != LocalAck ==> NoNewDebt(b, AskAbout(b, n, link, owed, movedTo, now).0)
  {
  }

  lemma ConfirmIsDiscreet(b: Bridge, n: Byte, side: Side, now: Time)
    ensures Discreet(b, Confirm(b, n, side, now))
  {
    if n in b.nodes {
      var e := b.nodes[n];
      var c := b.(nodes := b.nodes[n := Entry(e.side, now, true)], pending := b.pending - {n});
      AskIsDiscreet(c, n, LinkOf(e.side), Nothing, Some(side), now);
    }
  }

  lemma ThenDiscreet(b: Bridge, c: Done, d: Done)
    requires Discreet(b, c) && Discreet(c.0, d)
    ensures Discreet(b, Then(c, d))
  {
  }

  lemma EtherDdpIsDiscreet(b: Bridge, f: Frame, d: Ddp.Datagram, now: Time)
    ensures Discreet(b, EtherDdp(b, f, d, now))
  {
    var c := if d.src.net == b.addr.net then Confirm(b, d.src.node, Ether(f.src), now)
             else (b.(amt := b.amt[d.src := f.src]), []);
    ConfirmIsDiscreet(b, d.src.node, Ether(f.src), now);
    assert Discreet(b, c);
    var u := c.0;
    ThenDiscreet(b, c, (u, Cross(f, d)));
    AskIsDiscreet(u, d.dst.node, BothLinks, Nothing, None, now);
    var q := AskAbout(u, d.dst.node, BothLinks, Nothing, None, now);
    ThenDiscreet(b, c, (q.0, Cross(f, d) + q.1));
  }

  lemma LocalDdpIsDiscreet(b: Bridge, l: Llap, now: Time)
    ensures Discreet(b, LocalDdp(b, l, now))
  {
    ConfirmIsDiscreet(b, l.src, Local, now);
    var c := Confirm(b, l.src, Local, now);
    forall m, bytes ensures Discreet(b, Then(c, (c.0, [SendDdp(m, bytes)]))) {
      ThenDiscreet(b, c, (c.0, [SendDdp(m, bytes)]));
    }
  }

  lemma SettleDebts(b: Bridge, n: Byte, side: Side)
    ensures var (c, acts) := Settle(b, n, side);
            && NoNewDebt(b, c) && |acts| <= 1
            && (acts != [] ==> n !in c.pending && n in b.pending && c.nodes == b.nodes)
            && (acts != [] && side.Ether? ==> b.pending[n].owed == LocalAck && acts == [Control(n, LLAP_ACK)])
            && (acts != [] && side.Local? ==>
                  && acts[0].SendAarp? && acts[0].aarp.src == Addr(b.addr.net, n)
                  && (n in b.nodes ==> Live(b, n) == Some(Local)))
  {
  }

  /** A debt to a LocalTalk claimant that is left standing is the same one, or was
      created by an enquiry in this very step. */
  lemma DebtsComeFromEnquiries(b: Bridge, i: In, now: Time)
    ensures (i.OnLocal? && i.llap.typ == LLAP_ENQ) || NoNewDebt(b, Arrived(b, i, now).0)
  {
    match i
    case Tick =>
    case OnEther(f) =>
      if f.body.AarpBody? {
        var a := f.body.aarp;
        ConfirmIsDiscreet(b, a.src.node, Ether(a.srcHw), now);
        SettleDebts(Confirm(b, a.src.node, Ether(a.srcHw), now).0, a.src.node, Ether(a.srcHw));
        AskIsDiscreet(b, a.dst.node, LocalLink, EtherResponse(a.src, a.srcHw), None, now);
      } else if f.body.DdpBody? {
        EtherDdpIsDiscreet(b, f, f.body.ddp, now);
      }
    case OnLocal(l) =>
      LocalDdpIsDiscreet(b, l, now);
      ConfirmIsDiscreet(b, l.src, Local, now);
      SettleDebts(Confirm(b, l.src, Local, now).0, l.src, Local);
  }

  lemma CountsOnce(acts: seq<Action>, a: Action)
    requires a !in acts
    ensures multiset(acts + [a])[a] == 1
  {
  }

  lemma ResponseAnswers(b: Bridge, a: Aarp, now: Time, n: Byte)
    requires n != b.addr.node && Control(n, LLAP_ACK) in EtherAarp(b, a, now).1
    ensures a.op == RESPONSE && a.src == Addr(b.addr.net, n)
    ensures n !in EtherAarp(b, a, now).0.pending
    ensures multiset(EtherAarp(b, a, now).1)[Control(n, LLAP_ACK)] == 1
    ensures n in b.pending && b.pending[n].owed == LocalAck
  {
    AskIsDiscreet(b, a.dst.node, LocalLink, EtherResponse(a.src, a.srcHw), None, now);
    var side := Ether(a.srcHw);
    ConfirmIsDiscreet(b, a.src.node, side, now);
    var c := Confirm(b, a.src.node, side, now);
    SettleDebts(c.0, a.src.node, side);
    CountsOnce(c.1, Control(a.src.node, LLAP_ACK));
  }

  lemma AnswersUnderExpiry(e: Bridge, i: In, now: Time, n: Byte)
    requires n != e.addr.node && Control(n, LLAP_ACK) in Arrived(e, i, now).1
    ensures i.OnEther? && i.frame.body.AarpBody? && i.frame.body.aarp.op == RESPONSE
    ensures i.frame.body.aarp.src == Addr(e.addr.net, n)
    ensures n in e.pending && e.pending[n].owed == LocalAck && n !in Arrived(e, i, now).0.pending
    ensures multiset(Arrived(e, i, now).1)[Control(n, LLAP_ACK)] == 1
  {
    match i
    case Tick =>
    case OnEther(f) =>
      if f.body.AarpBody? {
        ResponseAnswers(e, f.body.aarp, now, n);
      } else if f.body.DdpBody? {
        EtherDdpIsDiscreet(e, f, f.body.ddp, now);
      }
    case OnLocal(l) =>
      LocalDdpIsDiscreet(e, l, now);
      AskIsDiscreet(e, l.dst, EtherLink, LocalAck, None, now);
      ConfirmIsDiscreet(e, l.src, Local, now);
      SettleDebts(Confirm(e, l.src, Local, now).0, l.src, Local);
  }

  /** A node is told its ID is taken only in the step that hears Ethernet answer
      for it, within two seconds of the enquiry, and once for each enquiry. */
  lemma AckOnlyOnAnswer(b: Bridge, i: In, now: Time, n: Byte)
    requires BridgeInv(b) && Stamped(b, now)
    requires n != b.addr.node && Control(n, LLAP_ACK) in Step(b, i, now).actions
    ensures i.OnEther? && i.frame.body.AarpBody? && i.frame.body.aarp.op == RESPONSE
    ensures i.frame.body.aarp.src == Addr(b.addr.net, n)
    ensures n in b.pending && b.pending[n].owed == LocalAck && now - b.pending[n].asked < QUERY_TIMEOUT
    ensures n !in Step(b, i, now).bridge.pending
    ensures multiset(Step(b, i, now).actions)[Control(n, LLAP_ACK)] == 1
  {
    ExpireIsGood(b, now);
    AnswersUnderExpiry(Expire(b, now), i, now, n);
  }

  /** An AARP answer given in the name of some other node. */
  ghost predicate SpeaksFor(b: Bridge, a: Action, n: Byte) {
    a.SendAarp? && a.aarp.op == RESPONSE && a.aarp.src == Addr(b.addr.net, n) && n != b.addr.node
  }

  lemma AckSpeaksOnEvidence(b: Bridge, l: Llap, now: Time, n: Byte, a: Action)
    requires Good(b, now)
    requires var c := Confirm(b, l.src, Local, now); a in Then(c, Settle(c.0, l.src, Local)).1 && SpeaksFor(b, a, n)
    ensures Live(Settle(Confirm(b, l.src, Local, now).0, l.src, Local).0, n) == Some(Local)
  {
    var c := Confirm(b, l.src, Local, now);
    ConfirmIsGood(b, l.src, Local, now);
    ConfirmIsDiscreet(b, l.src, Local, now);
    SettleDebts(c.0, l.src, Local);
    assert a in c.1 || a in Settle(c.0, l.src, Local).1;
    assert n == l.src;
    assert !NoNode(c.0, n);
  }

  lemma AarpSpeaksOnEvidence(b: Bridge, a: Aarp, now: Time, n: Byte, act: Action)
    requires act in EtherAarp(b, a, now).1 && SpeaksFor(b, act, n)
    ensures Live(EtherAarp(b, a, now).0, n) == Some(Local)
  {
    AskIsDiscreet(b, a.dst.node, LocalLink, EtherResponse(a.src, a.srcHw), None, now);
    var side := Ether(a.srcHw);
    ConfirmIsDiscreet(b, a.src.node, side, now);
    SettleDebts(Confirm(b, a.src.node, side, now).0, a.src.node, side);
  }

  /** The bridge answers for a node only while its table, as the step leaves it,
      has that node on LocalTalk and not in doubt. */
  lemma ProxyOnlyOnEvidence(b: Bridge, i: In, now: Time, n: Byte, a: Action)
    requires BridgeInv(b) && Stamped(b, now)
    requires a in Step(b, i, now).actions && SpeaksFor(b, a, n)
    ensures Live(Step(b, i, now).bridge, n) == Some(Local)
  {
    var e := Expire(b, now);
    ExpireIsGood(b, now);
    match i
    case Tick =>
    case OnEther(f) =>
      if f.body.AarpBody? {
        AarpSpeaksOnEvidence(e, f.body.aarp, now, n, a);
      } else if f.body.DdpBody? {
        EtherDdpIsDiscreet(e, f, f.body.ddp, now);
      }
    case OnLocal(l) =>
      if l.typ == LLAP_ACK {
        AckSpeaksOnEvidence(e, l, now, n, a);
      } else {
        LocalDdpIsDiscreet(e, l, now);
        AskIsDiscreet(e, l.dst, EtherLink, LocalAck, None, now);
      }
  }

  // ------------------------------------------------------------- datagrams across

  predicate IsData(a: Action) {
    a.SendDdp? || (a.ToLocal? && (a.llap.typ == LLAP_SHORT_DDP || a.llap.typ == LLAP_LONG_DDP))
  }

  /** No datagram among them. */
  ghost predicate NoData(acts: seq<Action>) { forall k :: 0 <= k < |acts| ==> !IsData(acts[k]) }

  lemma ConfirmSendsNoData(b: Bridge, n: Byte, side: Side, now: Time)
    ensures NoData(Confirm(b, n, side, now).1)
  {
  }

  /** What lets a datagram off the cable onto LocalTalk: it is for that side or for
      everybody, its length is honest and legal, and neither end is known to belong
      elsewhere or is in doubt. */
  ghost predicate MayCross(b: Bridge, c: Bridge, f: Frame, d: Ddp.Datagram) {
    && 13 <= |f.payload| <= 600 && d.length == |f.payload|
    && d.dst != b.addr && (d.dst.net == b.addr.net || d.dst.node == 255)
    && (d.src.net == b.addr.net && d.src.node in c.nodes ==> !c.nodes[d.src.node].doubted)
    && (d.dst.node == 255 || d.dst.node !in c.nodes || Live(c, d.dst.node) == Some(Local))
  }

  lemma EtherDdpCrosses(b: Bridge, f: Frame, d: Ddp.Datagram, now: Time, a: Action)
    requires a in EtherDdp(b, f, d, now).1 && IsData(a)
    ensures a == ToLocal(Llap(d.dst.node, d.src.node, LLAP_LONG_DDP, f.payload))
    ensures MayCross(b, EtherDdp(b, f, d, now).0, f, d)
  {
    ConfirmSendsNoData(b, d.src.node, Ether(f.src), now);
    hide Confirm;
  }

  /** What lets a datagram off LocalTalk onto the cable, and where to: never for a
      doubted sender, never for a destination known to be on LocalTalk. */
  ghost predicate MayLift(b: Bridge, c: Bridge, l: Llap, to: Mac) {
    && Lifted(b, l).Some?
    && (l.src in c.nodes ==> !c.nodes[l.src].doubted)
    && var dst := Lifted(b, l).value.0;
       if l.dst == 255 || dst.node == 255 then to == BROADCAST_MAC
       else if dst.net == b.addr.net then
         match Live(c, dst.node)
         case Some(Ether(m)) => to == m
         case Some(Local) => false
         case None => to == BROADCAST_MAC
       else to == if dst in b.amt then b.amt[dst] else BROADCAST_MAC
  }

  lemma ConfirmKeepsRest(b: Bridge, n: Byte, side: Side, now: Time)
    ensures Confirm(b, n, side, now).0.amt == b.amt && SameBox(b, Confirm(b, n, side, now).0)
  {
  }

  lemma LocalDdpLifts(b: Bridge, l: Llap, now: Time, a: Action)
    requires a in LocalDdp(b, l, now).1 && IsData(a)
    ensures a.SendDdp? && MayLift(b, LocalDdp(b, l, now).0, l, a.dst) && a.payload == Lifted(b, l).value.1
  {
    ConfirmSendsNoData(b, l.src, Local, now);
    ConfirmKeepsRest(b, l.src, Local, now);
    hide Confirm, Ddp.Parse, Ddp.FromShort, Ddp.Encode;
  }

  lemma InSecond(c: Done, acts: seq<Action>, u: Bridge, a: Action)
    requires a in acts
    ensures a in Then(c, (u, acts)).1
  {
    var k :| 0 <= k < |acts| && acts[k] == a;
    assert Then(c, (u, acts)).1[|c.1| + k] == a;
  }

  /** And every datagram that may cross does. */
  lemma EtherDdpCrossesWhenItMay(b: Bridge, f: Frame, d: Ddp.Datagram, now: Time)
    requires MayCross(b, EtherDdp(b, f, d, now).0, f, d)
    ensures ToLocal(Llap(d.dst.node, d.src.node, LLAP_LONG_DDP, f.payload)) in EtherDdp(b, f, d, now).1
  {
    hide Confirm;
    var a := ToLocal(Llap(d.dst.node, d.src.node, LLAP_LONG_DDP, f.payload));
    var c := if d.src.net == b.addr.net then Confirm(b, d.src.node, Ether(f.src), now)
             else (b.(amt := b.amt[d.src := f.src]), []);
    ConfirmKeepsRest(b, d.src.node, Ether(f.src), now);
    var q := AskAbout(c.0, d.dst.node, BothLinks, Nothing, None, now);
    assert q.0.nodes == c.0.nodes;
    assert Cross(f, d) == [a];
    InSecond(c, Cross(f, d), c.0, a);
    assert (Cross(f, d) + q.1)[0] == a;
    InSecond(c, Cross(f, d) + q.1, q.0, a);
  }

  lemma LocalDdpLiftsWhenItMay(b: Bridge, l: Llap, now: Time, to: Mac)
    requires MayLift(b, LocalDdp(b, l, now).0, l, to)
    ensures SendDdp(to, Lifted(b, l).value.1) in LocalDdp(b, l, now).1
  {
    ConfirmKeepsRest(b, l.src, Local, now);
    hide Confirm, Ddp.Parse, Ddp.FromShort, Ddp.Encode;
    var c := Confirm(b, l.src, Local, now);
    InSecond(c, [SendDdp(to, Lifted(b, l).value.1)], c.0, SendDdp(to, Lifted(b, l).value.1));
  }

  lemma OthersSendNoDatagram(b: Bridge, i: In, now: Time)
    requires (i.OnEther? ==> !i.frame.body.DdpBody?)
    requires (i.OnLocal? ==> i.llap.typ != LLAP_SHORT_DDP && i.llap.typ != LLAP_LONG_DDP)
    ensures NoData(Arrived(b, i, now).1)
  {
    match i
    case Tick =>
    case OnEther(f) =>
      if f.body.AarpBody? { ConfirmSendsNoData(b, f.body.aarp.src.node, Ether(f.body.aarp.srcHw), now); }
    case OnLocal(l) => ConfirmSendsNoData(b, l.src, Local, now);
  }

  /** A datagram is only ever put on the other side than it came from: onto LocalTalk
      verbatim, onto the cable in the extended form; and never when a side is known
      or doubted that says otherwise. */
  lemma DatagramsCrossOnce(b: Bridge, i: In, now: Time, a: Action)
    requires a in Step(b, i, now).actions && IsData(a)
    ensures match i
            case Tick => false
            case OnEther(f) =>
              && f.src != b.mac && f.snap && f.body.DdpBody?
              && a == ToLocal(Llap(f.body.ddp.dst.node, f.body.ddp.src.node, LLAP_LONG_DDP, f.payload))
              && MayCross(b, Step(b, i, now).bridge, f, f.body.ddp)
            case OnLocal(l) =>
              && a.SendDdp? && MayLift(b, Step(b, i, now).bridge, l, a.dst) && a.payload == Lifted(b, l).value.1
  {
    var e := Expire(b, now);
    ExpireKeepsAddress(b, now);
    hide Expire, EtherDdp, LocalDdp, MayCross, Confirm;
    match i
    case Tick =>
    case OnEther(f) =>
      if f.body.DdpBody? && f.src != e.mac && f.snap {
        EtherDdpCrosses(e, f, f.body.ddp, now, a);
        CrossesFromExpired(b, now, f, i);
      } else if !f.body.DdpBody? {
        OthersSendNoDatagram(e, i, now);
      }
    case OnLocal(l) =>
      if l.typ == LLAP_SHORT_DDP || l.typ == LLAP_LONG_DDP {
        LocalDdpLifts(e, l, now, a);
      } else {
        OthersSendNoDatagram(e, i, now);
      }
  }

  lemma ExpireKeepsAddress(b: Bridge, now: Time)
    ensures SameBox(b, Expire(b, now)) && Expire(b, now).amt == b.amt
  {
  }

  lemma CrossesFromExpired(b: Bridge, now: Time, f: Frame, i: In)
    requires i == OnEther(f) && f.body.DdpBody?
    requires MayCross(Expire(b, now), EtherDdp(Expire(b, now), f, f.body.ddp, now).0, f, f.body.ddp)
    requires f.src != b.mac && f.snap
    ensures MayCross(b, Step(b, i, now).bridge, f, f.body.ddp)
  {
    hide EtherDdp;
  }

  // ------------------------------------------------------------- runs

  ghost predicate StepsTo(bs: seq<Bridge>, ins: seq<(In, Time)>, i: nat)
    requires i < |ins| && i + 1 < |bs|
  {
    bs[i + 1] == Step(bs[i], ins[i].0, ins[i].1).bridge
  }

  /** A run of the bridge from its start, on a clock that does not go back. */
  ghost predicate BridgeRun(bs: seq<Bridge>, ins: seq<(In, Time)>) {
    && |bs| == |ins| + 1
    && (exists addr, mac, amt, t :: bs[0] == Start(addr, mac, amt, t) && (ins != [] ==> t <= ins[0].1))
    && (forall i :: 0 <= i < |ins| ==> StepsTo(bs, ins, i))
    && (forall i, j :: 0 <= i < j < |ins| ==> ins[i].1 <= ins[j].1)
  }

  lemma StartIsGood(addr: Addr, mac: Mac, amt: map<Addr, Mac>, t: Time)
    ensures BridgeInv(Start(addr, mac, amt, t)) && Stamped(Start(addr, mac, amt, t), t)
  {
  }

  lemma StampedLater(b: Bridge, t: Time, now: Time)
    requires Stamped(b, t) && t <= now
    ensures Stamped(b, now)
  {
  }

  lemma {:induction false} RunIsGood(bs: seq<Bridge>, ins: seq<(In, Time)>, k: nat)
    requires BridgeRun(bs, ins) && k < |bs|
    ensures BridgeInv(bs[k]) && (k < |ins| ==> Stamped(bs[k], ins[k].1))
    ensures k > 0 ==> Good(bs[k], ins[k - 1].1)
  {
    hide Step, Start, BridgeInv, Stamped, Recent;
    if k == 0 {
      var addr, mac, amt, t :| bs[0] == Start(addr, mac, amt, t) && (ins != [] ==> t <= ins[0].1);
      StartIsGood(addr, mac, amt, t);
      if ins != [] { StampedLater(bs[0], t, ins[0].1); }
    } else {
      RunIsGood(bs, ins, k - 1);
      assert StepsTo(bs, ins, k - 1);
      StepIsGood(bs[k - 1], ins[k - 1].0, ins[k - 1].1);
      if k < |ins| { StampedLater(bs[k], ins[k - 1].1, ins[k].1); }
    }
  }

  /** The believed side did not speak of `n` at step `i`. */
  ghost predicate Silent(b: Bridge, i: In, n: Byte) {
    var h := HeardFrom(b, i);
    h.Some? && h.value.0 == n ==> n in b.nodes && !SameSide(h.value.1, b.nodes[n].side)
  }

  /** A move-check that stands after a step is new, or stood before it while the
      believed side stayed silent. */
  lemma ContestStep(b: Bridge, i: In, now: Time, n: Byte)
    requires BridgeInv(b) && Stamped(b, now)
    requires var c := Step(b, i, now).bridge; n in c.pending && c.pending[n].movedTo.Some?
    ensures var c := Step(b, i, now).bridge;
            c.pending[n].asked == now || (n in b.pending && b.pending[n] == c.pending[n] && Silent(b, i, n))
  {
    hide Arrived, Recent;
    var e := Expire(b, now);
    ExpireIsGood(b, now);
    ArrivedIsGood(e, i, now);
    assert Kept(e, Arrived(e, i, now).0, n, HeardFrom(e, i), now);
    if n in e.pending && e.pending[n].movedTo.Some? {
      assert Contested(e, n);
      assert n !in Moved(b, now);
    }
  }

  lemma StartHoldsNoQuestion(bs: seq<Bridge>, ins: seq<(In, Time)>)
    requires BridgeRun(bs, ins)
    ensures bs[0].pending == map[]
  {
    hide Step;
  }

  /** A move-check that stands after step `k - 1` began there, or stood before it. */
  lemma ContestBack(bs: seq<Bridge>, ins: seq<(In, Time)>, k: nat, n: Byte)
    requires BridgeRun(bs, ins) && k < |bs| && n in bs[k].pending && bs[k].pending[n].movedTo.Some?
    ensures k > 0
    ensures bs[k].pending[n].asked == ins[k - 1].1
            || (n in bs[k - 1].pending && bs[k - 1].pending[n] == bs[k].pending[n] && Silent(bs[k - 1], ins[k - 1].0, n))
  {
    StartHoldsNoQuestion(bs, ins);
    hide Step, Start, BridgeInv, Stamped, Recent, Silent;
    RunIsGood(bs, ins, k - 1);
    assert StepsTo(bs, ins, k - 1);
    ContestStep(bs[k - 1], ins[k - 1].0, ins[k - 1].1, n);
  }

  /** A standing move-check began at one step, and from then on it stood unchanged
      while the believed side stayed silent. */
  lemma {:induction false} ContestBegan(bs: seq<Bridge>, ins: seq<(In, Time)>, k: nat, n: Byte) returns (j: nat)
    requires BridgeRun(bs, ins) && |bs| == |ins| + 1
    requires k < |bs| && n in bs[k].pending && bs[k].pending[n].movedTo.Some?
    ensures j < k && ins[j].1 == bs[k].pending[n].asked
    ensures forall i :: j < i < k ==> n in bs[i].pending && bs[i].pending[n] == bs[k].pending[n] && Silent(bs[i], ins[i].0, n)
  {
    hide BridgeRun, Silent;
    ContestBack(bs, ins, k, n);
    j := k - 1;
    if bs[k].pending[n].asked != ins[k - 1].1 {
      j := ContestBegan(bs, ins, k - 1, n);
    }
  }

  /** A move is reported only after the contest has stood for two seconds in which
      the side first believed never spoke. */
  lemma MoveOnlyAfterSilence(bs: seq<Bridge>, ins: seq<(In, Time)>, k: nat, n: Byte) returns (j: nat)
    requires BridgeRun(bs, ins) && k < |ins| && n in Step(bs[k], ins[k].0, ins[k].1).moved
    ensures j < k && ins[k].1 - ins[j].1 >= QUERY_TIMEOUT
    ensures forall i :: j < i < k ==> Silent(bs[i], ins[i].0, n)
  {
    j := ContestBegan(bs, ins, k, n);
  }

  /** Within a step, what is known of the nodes changes only by what was heard. */
  lemma NodesChangeByHearing(b: Bridge, i: In, now: Time)
    ensures var h := HeardFrom(b, i);
            Arrived(b, i, now).0.nodes ==
            if h.Some? then Confirm(b, h.value.0, h.value.1, now).0.nodes else b.nodes
  {
    hide Confirm;
  }

  /** A doubt is either new or untouched. */
  lemma DoubtStep(b: Bridge, i: In, now: Time, n: Byte)
    requires var c := Step(b, i, now).bridge; n in c.nodes && c.nodes[n].doubted
    ensures var c := Step(b, i, now).bridge;
            c.nodes[n].confirmed == now || (n in b.nodes && b.nodes[n] == c.nodes[n])
  {
    var e := Expire(b, now);
    NodesChangeByHearing(e, i, now);
    hide Arrived, HeardFrom;
    var h := HeardFrom(e, i);
    if h.Some? { ConfirmDoubts(e, h.value.0, h.value.1, now, n); }
  }

  lemma ConfirmDoubts(b: Bridge, n: Byte, side: Side, now: Time, z: Byte)
    requires var c := Confirm(b, n, side, now).0; z in c.nodes && c.nodes[z].doubted
    ensures var c := Confirm(b, n, side, now).0;
            c.nodes[z].confirmed == now || (z in b.nodes && b.nodes[z] == c.nodes[z])
  {
  }

  lemma DoubtBack(bs: seq<Bridge>, ins: seq<(In, Time)>, k: nat, n: Byte)
    requires BridgeRun(bs, ins) && k < |bs| && n in bs[k].nodes && bs[k].nodes[n].doubted
    ensures k > 0
    ensures bs[k].nodes[n].confirmed == ins[k - 1].1 || (n in bs[k - 1].nodes && bs[k - 1].nodes[n] == bs[k].nodes[n])
  {
    if k == 0 {
      StartDoubtsNobody(bs, ins);
    } else {
      hide Step, Start;
      assert StepsTo(bs, ins, k - 1);
      DoubtStep(bs[k - 1], ins[k - 1].0, ins[k - 1].1, n);
    }
  }

  lemma StartDoubtsNobody(bs: seq<Bridge>, ins: seq<(In, Time)>)
    requires BridgeRun(bs, ins)
    ensures forall n :: n in bs[0].nodes ==> !bs[0].nodes[n].doubted
  {
    hide Step;
  }

  lemma {:induction false} DoubtBegan(bs: seq<Bridge>, ins: seq<(In, Time)>, k: nat, n: Byte) returns (j: nat)
    requires BridgeRun(bs, ins) && |bs| == |ins| + 1
    requires k < |bs| && n in bs[k].nodes && bs[k].nodes[n].doubted
    ensures j < k && ins[j].1 == bs[k].nodes[n].confirmed
    ensures forall i :: j < i <= k ==> n in bs[i].nodes && bs[i].nodes[n] == bs[k].nodes[n]
  {
    hide BridgeRun;
    DoubtBack(bs, ins, k, n);
    j := k - 1;
    if bs[k].nodes[n].confirmed != ins[k - 1].1 {
      j := DoubtBegan(bs, ins, k - 1, n);
    }
  }

  /** No contest outlives thirty seconds: a node in doubt came into doubt less than
      that before, and nothing heard since has touched its entry. */
  lemma ContestsEnd(bs: seq<Bridge>, ins: seq<(In, Time)>, k: nat, n: Byte) returns (j: nat)
    requires BridgeRun(bs, ins) && k < |bs| && n in bs[k].nodes && bs[k].nodes[n].doubted
    ensures j < k && ins[k - 1].1 - ins[j].1 < ENTRY_TTL
    ensures forall i :: j < i <= k ==> n in bs[i].nodes && bs[i].nodes[n] == bs[k].nodes[n]
  {
    j := DoubtBegan(bs, ins, k, n);
    RunIsGood(bs, ins, k);
  }

  lemma DebtStep(b: Bridge, i: In, now: Time, n: Byte)
    requires var c := Step(b, i, now).bridge; n in c.pending && c.pending[n].owed == LocalAck
    ensures var c := Step(b, i, now).bridge;
            || (n in b.pending && b.pending[n] == c.pending[n])
            || (c.pending[n].asked == now && i.OnLocal? && i.llap.typ == LLAP_ENQ && i.llap.dst == n)
  {
    DebtsComeFromEnquiries(Expire(b, now), i, now);
  }

  lemma DebtBack(bs: seq<Bridge>, ins: seq<(In, Time)>, k: nat, n: Byte)
    requires BridgeRun(bs, ins) && k < |bs| && n in bs[k].pending && bs[k].pending[n].owed == LocalAck
    ensures k > 0
    ensures (n in bs[k - 1].pending && bs[k - 1].pending[n] == bs[k].pending[n])
            || (bs[k].pending[n].asked == ins[k - 1].1
                && ins[k - 1].0.OnLocal? && ins[k - 1].0.llap.typ == LLAP_ENQ && ins[k - 1].0.llap.dst == n)
  {
    StartHoldsNoQuestion(bs, ins);
    hide Step, Start;
    assert StepsTo(bs, ins, k - 1);
    DebtStep(bs[k - 1], ins[k - 1].0, ins[k - 1].1, n);
  }

  lemma {:induction false} DebtBegan(bs: seq<Bridge>, ins: seq<(In, Time)>, k: nat, n: Byte) returns (j: nat)
    requires BridgeRun(bs, ins) && |bs| == |ins| + 1
    requires k < |bs| && n in bs[k].pending && bs[k].pending[n].owed == LocalAck
    ensures j < k && ins[j].1 == bs[k].pending[n].asked
    ensures ins[j].0.OnLocal? && ins[j].0.llap.typ == LLAP_ENQ && ins[j].0.llap.dst == n
    ensures forall i :: j < i <= k ==> n in bs[i].pending && bs[i].pending[n] == bs[k].pending[n]
  {
    hide BridgeRun;
    DebtBack(bs, ins, k, n);
    j := k - 1;
    if n in bs[k - 1].pending && bs[k - 1].pending[n] == bs[k].pending[n] {
      j := DebtBegan(bs, ins, k - 1, n);
    }
  }

  /** Every denial of an ID answers one enquiry made on LocalTalk less than two
      seconds before, and none was given for that enquiry in between. */
  lemma AckAnswersOneEnquiry(bs: seq<Bridge>, ins: seq<(In, Time)>, k: nat, n: Byte) returns (j: nat)
    requires BridgeRun(bs, ins) && k < |ins| && n != bs[k].addr.node
    requires Control(n, LLAP_ACK) in Step(bs[k], ins[k].0, ins[k].1).actions
    ensures j < k && ins[k].1 - ins[j].1 < QUERY_TIMEOUT
    ensures ins[j].0.OnLocal? && ins[j].0.llap.typ == LLAP_ENQ && ins[j].0.llap.dst == n
    ensures forall i :: j < i < k && n != bs[i].addr.node ==>
              Control(n, LLAP_ACK) !in Step(bs[i], ins[i].0, ins[i].1).actions
  {
    RunIsGood(bs, ins, k);
    AckOnlyOnAnswer(bs[k], ins[k].0, ins[k].1, n);
    j := DebtBegan(bs, ins, k, n);
    forall i | j < i < k && n != bs[i].addr.node
      ensures Control(n, LLAP_ACK) !in Step(bs[i], ins[i].0, ins[i].1).actions
    {
      RunIsGood(bs, ins, i);
      assert StepsTo(bs, ins, i);
      assert n in bs[i + 1].pending;
      if Control(n, LLAP_ACK) in Step(bs[i], ins[i].0, ins[i].1).actions {
        AckOnlyOnAnswer(bs[i], ins[i].0, ins[i].1, n);
        assert false;
      }
    }
  }
}
