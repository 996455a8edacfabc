/** What the bridge asks and what it pays: an enquiry about an ID is answered when the
    other side has it, a request is answered for a node that turns out to be on
    LocalTalk, and a datagram off LocalTalk goes to the MAC last heard for its address. */
module BridgeAnswers {
  import opened Wire
  import opened Bridge
  import opened BridgeTheorems
  import opened BridgeContests
  import Ddp

  ghost predicate RealNode(b: Bridge, n: Byte) { n != 0 && n != 255 && n != b.addr.node }

  /** A question about `n` stands, asked less than 2 s ago. */
  ghost predicate Asking(b: Bridge, n: Byte, now: Time) { n in b.pending && now - b.pending[n].asked < 2_000 }

  /** This input is not word of `n`. */
  ghost predicate Unheard(b: Bridge, i: In, n: Byte) { HeardFrom(b, i).None? || HeardFrom(b, i).value.0 != n }

  // ------------------------------------------------------------- asking

  predicate IsEnquiry(i: In, n: Byte) { i.OnLocal? && i.llap.typ == 0x81 && i.llap.dst == n }

  /** An enquiry on LocalTalk about another ID is put to Ethernet as a probe, one question
      at a time, and the claimant is owed an answer; about our own ID it is denied. */
  lemma EnquiryIsAsked(b: Bridge, i: In, now: Time, n: Byte)
    requires BridgeInv(b) && Stamped(b, now) && IsEnquiry(i, n) && n != 0 && n != 255
    ensures var o := Step(b, i, now);
            if n == b.addr.node then o.actions == [ToLocal(Llap(n, n, 0x82, []))]
            else if Asking(b, n, now) then o.actions == [] && n in o.bridge.pending && o.bridge.pending[n] == b.pending[n]
            else
              var target := Addr(b.addr.net, n);
              && o.actions == [SendAarp(BROADCAST_MAC, Aarp(PROBE, b.mac, target, NO_MAC, target))]
              && n in o.bridge.pending && o.bridge.pending[n] == Question(now, LocalAck, None)
  {
    ExpiryMeaning(b, now, n);
    hide Expire, BridgeInv, Stamped;
  }

  /** A request or a probe off the cable about a node of our network. */
  ghost predicate Seeks(b: Bridge, i: In, n: Byte) {
    && i.OnEther? && i.frame.snap && i.frame.src != b.mac && i.frame.body.AarpBody?
    && var a := i.frame.body.aarp;
       && (a.op == REQUEST || a.op == PROBE) && a.dst == Addr(b.addr.net, n) && n != b.addr.node
       && !(a.op == PROBE && a.src == b.addr && a.srcHw != b.mac)
  }

  /** What a request off the cable brings: at once an answer, for a node believed to be on
      LocalTalk; nothing, for one believed to be on the cable; and for any other, and for
      every probe, an enquiry on LocalTalk, the answer being owed to who asked. */
  lemma RequestIsAsked(b: Bridge, i: In, now: Time, n: Byte)
    requires BridgeInv(b) && Stamped(b, now) && Seeks(b, i, n) && n != 0 && n != 255
    ensures var o, a, live := Step(b, i, now), i.frame.body.aarp, Live(Expire(b, now), n);
            if live == Some(Local) && a.op == REQUEST then
              o.actions == [SendAarp(a.srcHw, Aarp(RESPONSE, b.mac, Addr(b.addr.net, n), a.srcHw, a.src))]
            else if live.Some? && live.value.Ether? then o.actions == []
            else if Asking(b, n, now) then o.actions == []
            else
              && o.actions == [ToLocal(Llap(n, n, 0x81, []))]
              && n in o.bridge.pending && o.bridge.pending[n] == Question(now, EtherResponse(a.src, a.srcHw), None)
  {
    ExpiryMeaning(b, now, n);
    hide Expire, BridgeInv, Stamped;
  }

  /** A datagram for a node nobody has heard of crosses, and the node is asked for on both
      sides at once. */
  lemma UnknownIsAskedOnBoth(b: Bridge, f: Frame, d: Ddp.Datagram, now: Time, n: Byte)
    requires MayCross(b, EtherDdp(b, f, d, now).0, f, d)
    requires d.dst == Addr(b.addr.net, n) && RealNode(b, n) && n !in EtherDdp(b, f, d, now).0.nodes && n !in b.pending
    ensures var out := EtherDdp(b, f, d, now);
            && SendAarp(BROADCAST_MAC, Aarp(REQUEST, b.mac, b.addr, NO_MAC, Addr(b.addr.net, n))) in out.1
            && ToLocal(Llap(n, n, 0x81, [])) in out.1
            && n in out.0.pending && out.0.pending[n] == Question(now, Nothing, None)
  {
    var c := if d.src.net == b.addr.net then Confirm(b, d.src.node, Ether(f.src), now)
             else (b.(amt := b.amt[d.src := f.src]), []);
    var u := c.0;
    ConfirmKeepsRest(b, d.src.node, Ether(f.src), now);
    if d.src.net == b.addr.net {
      if d.src.node != n { ConfirmTouchesOne(b, d.src.node, Ether(f.src), now, n); } else { ConfirmIsKnown(b, n, Ether(f.src), now); }
    }
    hide Confirm, Cross;
    var q := AskAbout(u, n, BothLinks, Nothing, None, now);
    assert q.0.nodes == u.nodes && n !in u.pending;
    var enq := ToLocal(Llap(n, n, 0x81, []));
    assert q.1 == [SendAarp(BROADCAST_MAC, Aarp(REQUEST, b.mac, b.addr, NO_MAC, Addr(b.addr.net, n))), enq];
    assert EtherDdp(b, f, d, now) == Then(c, (q.0, Cross(f, d) + q.1));
    InSecond(c, Cross(f, d) + q.1, q.0, q.1[0]);
    InSecond(c, Cross(f, d) + q.1, q.0, q.1[1]);
  }

  lemma ConfirmIsKnown(b: Bridge, n: Byte, side: Side, now: Time)
    requires !NoNode(b, n)
    ensures n in Confirm(b, n, side, now).0.nodes
  {
  }

  // ------------------------------------------------------------- paying

  /** A debt stands, whatever happens, until the node is heard or 2 s are over. */
  lemma DebtStands(b: Bridge, i: In, now: Time, n: Byte)
    requires BridgeInv(b) && Stamped(b, now) && Asking(b, n, now) && b.pending[n].movedTo.None?
    requires Unheard(b, i, n)
    ensures var o := Step(b, i, now); n in o.bridge.pending && o.bridge.pending[n] == b.pending[n]
  {
    ExpiryMeaning(b, now, n);
    HeardAlike(b, i, now);
    hide Expire, BridgeInv, Stamped, HeardFrom;
    DebtKept(Expire(b, now), i, now, n);
  }

  lemma SettleTouchesOne(c: Bridge, z: Byte, side: Side, n: Byte)
    requires z != n
    ensures Get(Settle(c, z, side).0.pending, n) == Get(c.pending, n)
  {
  }

  lemma DebtKept(e: Bridge, i: In, now: Time, n: Byte)
    requires n in e.pending && (HeardFrom(e, i).None? || HeardFrom(e, i).value.0 != n)
    ensures Get(Arrived(e, i, now).0.pending, n) == Get(e.pending, n)
  {
    match i
    case Tick =>
    case OnEther(f) =>
      if f.src != e.mac && f.snap {
        match f.body
        case AarpBody(a) => AarpKeepsDebt(e, a, now, n);
        case DdpBody(d) => DdpKeepsDebt(e, f, d, now, n);
        case UnknownBody =>
      }
    case OnLocal(l) =>
      if l.typ == LLAP_SHORT_DDP || l.typ == LLAP_LONG_DDP || l.typ == LLAP_ACK {
        ConfirmTouchesOne(e, l.src, Local, now, n);
        SettleTouchesOne(Confirm(e, l.src, Local, now).0, l.src, Local, n);
        hide Confirm, Settle, Lifted;
      } else {
        AskSparesQuestions(e, l.dst, EtherLink, LocalAck, now, n);
        hide AskAbout;
      }
  }

  lemma AarpKeepsDebt(e: Bridge, a: Aarp, now: Time, n: Byte)
    requires n in e.pending && !(a.op == RESPONSE && a.src == Addr(e.addr.net, n))
    ensures Get(EtherAarp(e, a, now).0.pending, n) == Get(e.pending, n)
  {
    if a.op == RESPONSE && a.src.net == e.addr.net {
      var side := Ether(a.srcHw);
      ConfirmTouchesOne(e, a.src.node, side, now, n);
      SettleTouchesOne(Confirm(e, a.src.node, side, now).0, a.src.node, side, n);
    } else {
      AskSparesQuestions(e, a.dst.node, LocalLink, EtherResponse(a.src, a.srcHw), now, n);
    }
    hide Confirm, Settle, AskAbout;
  }

  lemma DdpKeepsDebt(e: Bridge, f: Frame, d: Ddp.Datagram, now: Time, n: Byte)
    requires n in e.pending && d.src != Addr(e.addr.net, n)
    ensures Get(EtherDdp(e, f, d, now).0.pending, n) == Get(e.pending, n)
  {
    var u := if d.src.net == e.addr.net then Confirm(e, d.src.node, Ether(f.src), now).0 else e.(amt := e.amt[d.src := f.src]);
    if d.src.net == e.addr.net { ConfirmTouchesOne(e, d.src.node, Ether(f.src), now, n); }
    AskSparesQuestions(u, d.dst.node, BothLinks, Nothing, now, n);
    hide Confirm, AskAbout, Cross;
  }

  /** An AARP response, off the cable, from a node of our network. */
  ghost predicate Responds(b: Bridge, i: In, n: Byte) {
    && i.OnEther? && i.frame.snap && i.frame.src != b.mac && i.frame.body.AarpBody?
    && i.frame.body.aarp.op == RESPONSE && i.frame.body.aarp.src == Addr(b.addr.net, n)
  }

  lemma ConfirmKeepsDebt(e: Bridge, n: Byte, side: Side, now: Time)
    requires n in e.pending && e.pending[n].movedTo.None? && !NoNode(e, n)
    requires !(n in e.nodes && !e.nodes[n].doubted && !SameSide(e.nodes[n].side, side))
    ensures var c := Confirm(e, n, side, now);
            && n in c.0.pending && c.0.pending[n] == e.pending[n] && c.1 == [] && SameBox(e, c.0)
            && Get(c.0.nodes, n) == (if n in e.nodes && e.nodes[n].doubted then Some(e.nodes[n]) else Some(Entry(side, now, false)))
  {
  }

  /** A claimant is told that its ID is taken when, within 2 s of its enquiry, Ethernet
      answers for the ID; except when the ID was believed to be on LocalTalk, for then the
      answer opens a contest instead. */
  lemma ResponseDenies(b: Bridge, i: In, now: Time, n: Byte)
    requires BridgeInv(b) && Stamped(b, now) && Responds(b, i, n)
    requires Asking(b, n, now) && b.pending[n].owed == LocalAck && b.pending[n].movedTo.None?
    ensures ToLocal(Llap(n, n, 0x82, [])) in Step(b, i, now).actions <==> Live(Expire(b, now), n) != Some(Local)
  {
    var e := Expire(b, now);
    ExpiryMeaning(b, now, n);
    ExpireIsGood(b, now);
    assert !NoNode(e, n);
    hide Expire, BridgeInv, Stamped, Recent;
    var side := Ether(i.frame.body.aarp.srcHw);
    if Live(e, n) == Some(Local) {
      ContestConfirmed(e, n, side, now);
    } else {
      ConfirmKeepsDebt(e, n, side, now);
    }
    hide Confirm;
  }

  /** A request is answered, with our own MAC, when the node is heard on LocalTalk within
      2 s, if that is the first word of it or it is believed to be there. */
  lemma AckAnswers(b: Bridge, i: In, now: Time, n: Byte, to: Addr, toMac: Mac)
    requires BridgeInv(b) && Stamped(b, now) && i.OnLocal? && i.llap.typ == 0x82 && i.llap.src == n
    requires Asking(b, n, now) && b.pending[n].owed == EtherResponse(to, toMac) && b.pending[n].movedTo.None?
    ensures SendAarp(toMac, Aarp(RESPONSE, b.mac, Addr(b.addr.net, n), toMac, to)) in Step(b, i, now).actions
            <==> n !in Expire(b, now).nodes || Live(Expire(b, now), n) == Some(Local)
  {
    var e := Expire(b, now);
    ExpiryMeaning(b, now, n);
    ExpireIsGood(b, now);
    assert !NoNode(e, n);
    hide Expire, BridgeInv, Stamped, Recent;
    if n in e.nodes && !e.nodes[n].doubted && e.nodes[n].side.Ether? {
      ContestConfirmed(e, n, Local, now);
    } else {
      ConfirmKeepsDebt(e, n, Local, now);
    }
    hide Confirm;
  }

  // ------------------------------------------------------------- over runs

  lemma {:induction false} DebtLasts(bs: seq<Bridge>, ins: seq<(In, Time)>, j: nat, k: nat, n: Byte)
    requires BridgeRun(bs, ins) && |bs| == |ins| + 1 && j <= k < |bs| && n in bs[j].pending && bs[j].pending[n].movedTo.None?
    requires forall i :: j <= i < k ==>
               && ins[i].1 - bs[j].pending[n].asked < 2_000
               && Unheard(bs[i], ins[i].0, n)
    ensures n in bs[k].pending && bs[k].pending[n] == bs[j].pending[n]
    decreases k
  {
    if j < k {
      hide Step, Unheard, BridgeInv, Stamped, BridgeRun;
      DebtLasts(bs, ins, j, k - 1, n);
      RunSteps(bs, ins, k - 1);
      DebtStands(bs[k - 1], ins[k - 1].0, ins[k - 1].1, n);
    }
  }

  /** An enquiry that Ethernet answers within 2 s, the node not heard in between, is denied,
      unless the node is by then believed to be on LocalTalk. */
  lemma EnquiryIsAnswered(bs: seq<Bridge>, ins: seq<(In, Time)>, j: nat, k: nat, n: Byte)
    requires BridgeRun(bs, ins) && |bs| == |ins| + 1 && j < k < |ins|
    requires IsEnquiry(ins[j].0, n) && RealNode(bs[j], n) && !Asking(bs[j], n, ins[j].1)
    requires Responds(bs[k], ins[k].0, n)
    requires forall i :: j < i <= k ==> ins[i].1 - ins[j].1 < 2_000
    requires forall i :: j < i < k ==> Unheard(bs[i], ins[i].0, n)
    ensures ToLocal(Llap(n, n, 0x82, [])) in Step(bs[k], ins[k].0, ins[k].1).actions
            <==> Live(Expire(bs[k], ins[k].1), n) != Some(Local)
  {
    RunSteps(bs, ins, j);
    RunSteps(bs, ins, k);
    hide Step, Unheard, BridgeInv, Stamped, BridgeRun, Expire, Live, Responds;
    EnquiryIsAsked(bs[j], ins[j].0, ins[j].1, n);
    DebtLasts(bs, ins, j + 1, k, n);
    ResponseDenies(bs[k], ins[k].0, ins[k].1, n);
  }

  /** A request put to LocalTalk whose node answers within 2 s is answered to the asker,
      unless the node is by then known and not believed to be on LocalTalk. */
  lemma RequestIsAnswered(bs: seq<Bridge>, ins: seq<(In, Time)>, j: nat, k: nat, n: Byte)
    requires BridgeRun(bs, ins) && |bs| == |ins| + 1 && j < k < |ins|
    requires Seeks(bs[j], ins[j].0, n) && RealNode(bs[j], n) && !Asking(bs[j], n, ins[j].1)
    requires Live(Expire(bs[j], ins[j].1), n).None?
    requires ins[k].0.OnLocal? && ins[k].0.llap.typ == 0x82 && ins[k].0.llap.src == n
    requires forall i :: j < i <= k ==> ins[i].1 - ins[j].1 < 2_000
    requires forall i :: j < i < k ==> Unheard(bs[i], ins[i].0, n)
    ensures var a, b := ins[j].0.frame.body.aarp, bs[k];
            SendAarp(a.srcHw, Aarp(RESPONSE, b.mac, Addr(b.addr.net, n), a.srcHw, a.src)) in Step(b, ins[k].0, ins[k].1).actions
            <==> n !in Expire(b, ins[k].1).nodes || Live(Expire(b, ins[k].1), n) == Some(Local)
  {
    RunSteps(bs, ins, j);
    RunSteps(bs, ins, k);
    hide Step, Unheard, BridgeInv, Stamped, BridgeRun, Expire, Live;
    RequestIsAsked(bs[j], ins[j].0, ins[j].1, n);
    DebtLasts(bs, ins, j + 1, k, n);
    var a := ins[j].0.frame.body.aarp;
    AckAnswers(bs[k], ins[k].0, ins[k].1, n, a.src, a.srcHw);
  }

  // ------------------------------------------------------------- our own address, and the start

  /** Whoever asks for our own address, or probes for it from another MAC, is told that it
      is ours, and nothing else comes of it. */
  lemma OurAddressIsKept(b: Bridge, i: In, now: Time)
    requires i.OnEther? && i.frame.snap && i.frame.src != b.mac && i.frame.body.AarpBody?
    requires var a := i.frame.body.aarp; (a.op == 1 && a.dst == b.addr) || (a.op == 3 && a.src == b.addr && a.srcHw != b.mac)
    ensures var a, o := i.frame.body.aarp, Step(b, i, now);
            o.actions == [SendAarp(a.srcHw, Aarp(2, b.mac, b.addr, a.srcHw, a.src))] && o.bridge == Expire(b, now)
  {
    ExpireKeepsAddress(b, now);
    hide Expire;
  }

  /** A bridge starts with the gleaned neighbours of its own network live on the cable, and
      no other node, and with the MACs gleaned for other networks. */
  lemma NeighboursBeginOnEther(addr: Addr, mac: Mac, amt: map<Addr, Mac>, now: Time, n: Byte, a: Addr)
    ensures var b, x := Start(addr, mac, amt, now), Addr(addr.net, n);
            && Get(b.nodes, n) == (if x in amt && n != 0 && n != 255 && n != addr.node
                                   then Some(Entry(Ether(amt[x]), now, false)) else None)
            && Get(b.amt, a) == (if a.net != addr.net then Get(amt, a) else None)
            && b.pending == map[]
  {
  }

  // ------------------------------------------------------------- addresses off our network

  /** The MAC an input gives for an address of another network. */
  function OffNet(b: Bridge, i: In): Option<(Addr, Mac)> {
    if !i.OnEther? || i.frame.src == b.mac || !i.frame.snap then None
    else
      match i.frame.body
      case AarpBody(a) => if a.op == RESPONSE && a.src.net != b.addr.net then Some((a.src, a.srcHw)) else None
      case DdpBody(d) => if d.src.net != b.addr.net then Some((d.src, i.frame.src)) else None
      case UnknownBody => None
  }

  lemma OffNetOnEther(e: Bridge, f: Frame, now: Time)
    requires f.src != e.mac && f.snap
    ensures Arrived(e, OnEther(f), now).0.amt ==
            match OffNet(e, OnEther(f)) case None => e.amt case Some((a, m)) => e.amt[a := m]
  {
    if f.body.AarpBody? {
      ConfirmKeepsRest(e, f.body.aarp.src.node, Ether(f.body.aarp.srcHw), now);
    } else if f.body.DdpBody? {
      ConfirmKeepsRest(e, f.body.ddp.src.node, Ether(f.src), now);
    }
    hide Confirm, Cross;
  }

  lemma OffNetOnLocal(e: Bridge, l: Llap, now: Time)
    ensures Arrived(e, OnLocal(l), now).0.amt == e.amt
  {
    ConfirmKeepsRest(e, l.src, Local, now);
    hide Confirm, Lifted;
  }

  /** Addresses of other networks are remembered as they were last heard, and no others. */
  lemma OffNetIsRemembered(b: Bridge, i: In, now: Time)
    ensures Step(b, i, now).bridge.amt ==
            match OffNet(b, i) case None => b.amt case Some((a, m)) => b.amt[a := m]
  {
    var e := Expire(b, now);
    ExpireKeepsAddress(b, now);
    hide Expire, EtherAarp, EtherDdp, LocalDdp;
    match i
    case Tick =>
    case OnEther(f) => if f.src != b.mac && f.snap { OffNetOnEther(e, f, now); }
    case OnLocal(l) => OffNetOnLocal(e, l, now);
  }

  /** What a run has last heard of an address, from what it began with. */
  ghost function LastHeard(bs: seq<Bridge>, ins: seq<(In, Time)>, k: nat, a: Addr): Option<Mac>
    requires k < |bs| && |bs| == |ins| + 1
  {
    if k == 0 then Get(bs[0].amt, a)
    else
      match OffNet(bs[k - 1], ins[k - 1].0)
      case Some((x, m)) => if x == a then Some(m) else LastHeard(bs, ins, k - 1, a)
      case None => LastHeard(bs, ins, k - 1, a)
  }

  lemma HeardFirst(bs: seq<Bridge>, ins: seq<(In, Time)>, a: Addr)
    requires |bs| == |ins| + 1
    ensures LastHeard(bs, ins, 0, a) == Get(bs[0].amt, a)
  {
  }

  lemma HeardNext(bs: seq<Bridge>, ins: seq<(In, Time)>, k: nat, a: Addr)
    requires 0 < k < |bs| && |bs| == |ins| + 1
    ensures LastHeard(bs, ins, k, a) ==
            match OffNet(bs[k - 1], ins[k - 1].0)
            case Some((x, m)) => if x == a then Some(m) else LastHeard(bs, ins, k - 1, a)
            case None => LastHeard(bs, ins, k - 1, a)
  {
    hide OffNet;
  }

  /** So over any run a datagram off LocalTalk for another network goes to the MAC last
      heard for its destination, and to everybody when there is none. */
  lemma {:induction false} MacIsLastHeard(bs: seq<Bridge>, ins: seq<(In, Time)>, k: nat, a: Addr)
    requires BridgeRun(bs, ins) && |bs| == |ins| + 1 && k < |bs|
    ensures Get(bs[k].amt, a) == LastHeard(bs, ins, k, a)
    ensures MacFor(bs[k], a) == if a.node == 255 || LastHeard(bs, ins, k, a).None? then BROADCAST_MAC
                                else LastHeard(bs, ins, k, a).value
  {
    hide Step, BridgeRun, OffNet, LastHeard;
    if k == 0 {
      HeardFirst(bs, ins, a);
    } else {
      MacIsLastHeard(bs, ins, k - 1, a);
      RunSteps(bs, ins, k - 1);
      OffNetIsRemembered(bs[k - 1], ins[k - 1].0, ins[k - 1].1);
      HeardNext(bs, ins, k, a);
    }
  }
}
