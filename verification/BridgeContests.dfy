/** How contests begin and end: a node heard on the side it is not believed to be on is
    doubted and asked for; silence moves it, and an answer shows a duplicate. */
module BridgeContests {
  import opened Wire
  import opened Bridge
  import opened BridgeTheorems
  import Ddp

  // ------------------------------------------------------------- what expiry leaves

  /** A known node, not in doubt, heard within the last 30 s. */
  ghost predicate Believed(b: Bridge, n: Byte, now: Time) {
    n in b.nodes && !b.nodes[n].doubted && now - b.nodes[n].confirmed < 30_000
  }

  /** A move-check that has not yet stood for 2 s. */
  ghost predicate InContest(b: Bridge, n: Byte, now: Time) {
    n in b.pending && b.pending[n].movedTo.Some? && now - b.pending[n].asked < 2_000
  }

  /** One that has. */
  ghost predicate Undisputed(b: Bridge, n: Byte, now: Time) {
    n in b.pending && b.pending[n].movedTo.Some? && now - b.pending[n].asked >= 2_000
  }

  /** Expiry, exactly: entries under 30 s and questions under 2 s stay as they are; the
      others go; but a node whose move-check nobody disputed is taken to have moved. */
  lemma ExpiryMeaning(b: Bridge, now: Time, n: Byte)
    requires BridgeInv(b) && Stamped(b, now)
    ensures var e := Expire(b, now);
            && Get(e.nodes, n) == (if Undisputed(b, n, now) then Some(Entry(b.pending[n].movedTo.value, now, false))
                                   else if n in b.nodes && now - b.nodes[n].confirmed < 30_000 then Some(b.nodes[n]) else None)
            && Get(e.pending, n) == (if n in b.pending && now - b.pending[n].asked < 2_000 then Some(b.pending[n]) else None)
            && (n in Moved(b, now) <==> Undisputed(b, n, now))
            && (n in Moved(b, now) ==> Moved(b, now)[n] == b.pending[n].movedTo.value)
            && e.amt == b.amt && e.addr == b.addr && e.mac == b.mac
  {
  }

  lemma HeardAlike(b: Bridge, i: In, now: Time)
    ensures HeardFrom(Expire(b, now), i) == HeardFrom(b, i)
  {
    ExpireKeepsAddress(b, now);
    hide Expire;
  }

  // ------------------------------------------------------------- a contested source

  /** A frame from a node in doubt goes no further than being heard. */
  lemma DoubtedSource(e: Bridge, i: In, now: Time, n: Byte, side: Side)
    requires HeardFrom(e, i) == Some((n, side))
    requires var c := Confirm(e, n, side, now).0;
             n in c.nodes && c.nodes[n].doubted && (n in c.pending ==> c.pending[n].movedTo.Some?)
    ensures Arrived(e, i, now) == Confirm(e, n, side, now)
  {
    ConfirmKeepsRest(e, n, side, now);
    hide Confirm, Lifted, Cross;
    var c := Confirm(e, n, side, now);
    assert c.1 + [] == c.1;
    assert Settle(c.0, n, side) == (c.0, []);
  }

  /** The question that asks a side whether it still has a node. */
  function AskedOf(b: Bridge, n: Byte, side: Side): Action {
    match side
    case Local => ToLocal(Llap(n, n, 0x81, []))
    case Ether(_) => SendAarp(BROADCAST_MAC, Aarp(REQUEST, b.mac, b.addr, NO_MAC, Addr(b.addr.net, n)))
  }

  /** A node heard on the side it is not believed to be on is in doubt from then on, with
      a move-check to the new side; the believed side is asked, and that is all. */
  lemma ContestBegins(b: Bridge, i: In, now: Time, n: Byte, side: Side)
    requires BridgeInv(b) && Stamped(b, now)
    requires HeardFrom(b, i) == Some((n, side)) && Believed(b, n, now) && !SameSide(b.nodes[n].side, side)
    ensures var o := Step(b, i, now);
            && n in o.bridge.nodes && o.bridge.nodes[n] == Entry(b.nodes[n].side, now, true)
            && n in o.bridge.pending && o.bridge.pending[n] == Question(now, Nothing, Some(side))
            && o.actions == [AskedOf(b, n, b.nodes[n].side)]
  {
    var e := Expire(b, now);
    ExpiryMeaning(b, now, n);
    ExpireIsGood(b, now);
    HeardAlike(b, i, now);
    assert !Undisputed(b, n, now);
    assert !NoNode(e, n);
    hide Expire, Arrived, HeardFrom, BridgeInv, Stamped, Recent;
    ContestConfirmed(e, n, side, now);
    DoubtedSource(e, i, now, n, side);
  }

  lemma ContestConfirmed(e: Bridge, n: Byte, side: Side, now: Time)
    requires n in e.nodes && !e.nodes[n].doubted && !SameSide(e.nodes[n].side, side) && !NoNode(e, n)
    ensures var c := Confirm(e, n, side, now);
            && n in c.0.nodes && c.0.nodes[n] == Entry(e.nodes[n].side, now, true)
            && n in c.0.pending && c.0.pending[n] == Question(now, Nothing, Some(side))
            && c.1 == [AskedOf(e, n, e.nodes[n].side)]
  {
  }

  /** A believed node heard on its own side is confirmed, with the MAC it now has. */
  lemma HearingConfirms(b: Bridge, i: In, now: Time, n: Byte, side: Side)
    requires BridgeInv(b) && Stamped(b, now)
    requires HeardFrom(b, i) == Some((n, side)) && Believed(b, n, now) && SameSide(b.nodes[n].side, side)
    ensures var o := Step(b, i, now); n in o.bridge.nodes && o.bridge.nodes[n] == Entry(side, now, false)
  {
    var e := Expire(b, now);
    ExpiryMeaning(b, now, n);
    ExpireIsGood(b, now);
    HeardAlike(b, i, now);
    assert !Undisputed(b, n, now) && !NoNode(e, n);
    assert !(n in e.pending && e.pending[n].movedTo.Some?);
    NodesChangeByHearing(e, i, now);
    hide Expire, Arrived, HeardFrom, BridgeInv, Stamped, Recent;
  }

  /** A node not known, or not heard of for 30 s, is believed where it is heard. */
  lemma HearingLearns(b: Bridge, i: In, now: Time, n: Byte, side: Side)
    requires BridgeInv(b) && Stamped(b, now)
    requires HeardFrom(b, i) == Some((n, side)) && n != 0 && n != 255 && n != b.addr.node
    requires !Undisputed(b, n, now) && (n in b.nodes ==> now - b.nodes[n].confirmed >= 30_000)
    ensures var o := Step(b, i, now); n in o.bridge.nodes && o.bridge.nodes[n] == Entry(side, now, false)
  {
    ExpiryMeaning(b, now, n);
    HeardAlike(b, i, now);
    NodesChangeByHearing(Expire(b, now), i, now);
    hide Expire, Arrived, HeardFrom, BridgeInv, Stamped;
  }

  /** What is known of a node that is not heard changes by expiry alone. */
  lemma UnheardStays(b: Bridge, i: In, now: Time, n: Byte)
    requires BridgeInv(b) && Stamped(b, now)
    requires HeardFrom(b, i).None? || HeardFrom(b, i).value.0 != n
    ensures Get(Step(b, i, now).bridge.nodes, n) ==
            if Undisputed(b, n, now) then Some(Entry(b.pending[n].movedTo.value, now, false))
            else if n in b.nodes && now - b.nodes[n].confirmed < 30_000 then Some(b.nodes[n]) else None
  {
    ExpiryMeaning(b, now, n);
    HeardAlike(b, i, now);
    var e := Expire(b, now);
    NodesChangeByHearing(e, i, now);
    hide Expire, Arrived, HeardFrom, BridgeInv, Stamped;
    var h := HeardFrom(e, i);
    if h.Some? { ConfirmTouchesOne(e, h.value.0, h.value.1, now, n); }
  }

  lemma ConfirmTouchesOne(e: Bridge, n: Byte, side: Side, now: Time, z: Byte)
    requires z != n
    ensures Get(Confirm(e, n, side, now).0.nodes, z) == Get(e.nodes, z)
    ensures Get(Confirm(e, n, side, now).0.pending, z) == Get(e.pending, z)
  {
  }

  // ------------------------------------------------------------- how a contest ends

  /** The believed side answers: both sides have the node, which is reported once; the
      move-check is over and the node stays in doubt. */
  lemma DuplicateIsReported(b: Bridge, i: In, now: Time, n: Byte, side: Side)
    requires BridgeInv(b) && Stamped(b, now)
    requires InContest(b, n, now) && HeardFrom(b, i) == Some((n, side)) && SameSide(b.nodes[n].side, side)
    ensures var o := Step(b, i, now);
            && o.actions == [Duplicate(n)] && n !in o.bridge.pending && n !in o.moved
            && n in o.bridge.nodes && o.bridge.nodes[n] == b.nodes[n]
  {
    var e := Expire(b, now);
    assert Contested(b, n);
    ExpiryMeaning(b, now, n);
    HeardAlike(b, i, now);
    ExpireIsGood(b, now);
    assert !NoNode(e, n);
    hide Expire, Arrived, HeardFrom, BridgeInv, Stamped, Recent;
    assert Confirm(e, n, side, now) == (e.(pending := e.pending - {n}), [Duplicate(n)]);
    DoubtedSource(e, i, now, n, side);
  }

  /** Nothing but the believed side disturbs a contest. */
  lemma ContestStands(b: Bridge, i: In, now: Time, n: Byte)
    requires BridgeInv(b) && Stamped(b, now) && InContest(b, n, now) && Silent(b, i, n)
    ensures var o := Step(b, i, now);
            && n in o.bridge.pending && o.bridge.pending[n] == b.pending[n] && n !in o.moved
            && n in o.bridge.nodes && o.bridge.nodes[n] == b.nodes[n]
  {
    var e := Expire(b, now);
    assert Contested(b, n);
    ExpiryMeaning(b, now, n);
    HeardAlike(b, i, now);
    ExpireIsGood(b, now);
    hide Expire, Arrived, HeardFrom, BridgeInv, Stamped, Recent;
    CheckStands(e, i, now, n);
  }

  lemma ConfirmSparesCheck(e: Bridge, z: Byte, side: Side, now: Time, n: Byte)
    requires n in e.pending && e.pending[n].movedTo.Some? && n in e.nodes && e.nodes[n].doubted
    requires z == n ==> !SameSide(side, e.nodes[n].side)
    ensures var c := Confirm(e, z, side, now).0;
            Get(c.pending, n) == Get(e.pending, n) && Get(c.nodes, n) == Get(e.nodes, n)
  {
  }

  lemma SettleSparesCheck(c: Bridge, z: Byte, side: Side, n: Byte)
    requires n in c.pending && c.pending[n].movedTo.Some?
    ensures var d := Settle(c, z, side).0; Get(d.pending, n) == Get(c.pending, n) && d.nodes == c.nodes
  {
  }

  lemma AskSparesQuestions(c: Bridge, z: Byte, link: Link, owed: Owed, now: Time, n: Byte)
    requires n in c.pending
    ensures var d := AskAbout(c, z, link, owed, None, now).0; Get(d.pending, n) == Get(c.pending, n) && d.nodes == c.nodes
  {
  }

  lemma CheckStands(e: Bridge, i: In, now: Time, n: Byte)
    requires n in e.pending && e.pending[n].movedTo.Some? && n in e.nodes && e.nodes[n].doubted && Silent(e, i, n)
    ensures var c := Arrived(e, i, now).0; Get(c.pending, n) == Get(e.pending, n) && Get(c.nodes, n) == Get(e.nodes, n)
  {
    match i
    case Tick =>
    case OnEther(f) =>
      if f.src != e.mac && f.snap {
        match f.body
        case AarpBody(a) => AarpSparesCheck(e, a, now, n);
        case DdpBody(d) => DdpSparesCheck(e, f, d, now, n);
        case UnknownBody =>
      }
    case OnLocal(l) =>
      if l.typ == LLAP_SHORT_DDP || l.typ == LLAP_LONG_DDP || l.typ == LLAP_ACK {
        ConfirmSparesCheck(e, l.src, Local, now, n);
        SettleSparesCheck(Confirm(e, l.src, Local, now).0, l.src, Local, n);
        hide Confirm, Settle, Lifted;
      } else {
        AskSparesQuestions(e, l.dst, EtherLink, LocalAck, now, n);
        hide AskAbout;
      }
  }

  lemma AarpSparesCheck(e: Bridge, a: Aarp, now: Time, n: Byte)
    requires n in e.pending && e.pending[n].movedTo.Some? && n in e.nodes && e.nodes[n].doubted
    requires a.op == RESPONSE && a.src == Addr(e.addr.net, n) ==> !SameSide(Ether(a.srcHw), e.nodes[n].side)
    ensures var c := EtherAarp(e, a, now).0; Get(c.pending, n) == Get(e.pending, n) && Get(c.nodes, n) == Get(e.nodes, n)
  {
    if a.op == RESPONSE && a.src.net == e.addr.net {
      var side := Ether(a.srcHw);
      ConfirmSparesCheck(e, a.src.node, side, now, n);
      SettleSparesCheck(Confirm(e, a.src.node, side, now).0, a.src.node, side, n);
    } else {
      AskSparesQuestions(e, a.dst.node, LocalLink, EtherResponse(a.src, a.srcHw), now, n);
    }
    hide Confirm, Settle, AskAbout;
  }

  lemma DdpSparesCheck(e: Bridge, f: Frame, d: Ddp.Datagram, now: Time, n: Byte)
    requires n in e.pending && e.pending[n].movedTo.Some? && n in e.nodes && e.nodes[n].doubted
    requires d.src == Addr(e.addr.net, n) ==> !SameSide(Ether(f.src), e.nodes[n].side)
    ensures var c := EtherDdp(e, f, d, now).0; Get(c.pending, n) == Get(e.pending, n) && Get(c.nodes, n) == Get(e.nodes, n)
  {
    var u := if d.src.net == e.addr.net then Confirm(e, d.src.node, Ether(f.src), now).0 else e.(amt := e.amt[d.src := f.src]);
    ConfirmSparesCheck2(e, d.src, Ether(f.src), now, n);
    AskSparesQuestions(u, d.dst.node, BothLinks, Nothing, now, n);
    hide Confirm, AskAbout, Cross;
  }

  lemma ConfirmSparesCheck2(e: Bridge, src: Addr, side: Side, now: Time, n: Byte)
    requires n in e.pending && e.pending[n].movedTo.Some? && n in e.nodes && e.nodes[n].doubted
    requires src == Addr(e.addr.net, n) ==> !SameSide(side, e.nodes[n].side)
    ensures src.net == e.addr.net ==>
              var c := Confirm(e, src.node, side, now).0;
              Get(c.pending, n) == Get(e.pending, n) && Get(c.nodes, n) == Get(e.nodes, n)
  {
    if src.net == e.addr.net { ConfirmSparesCheck(e, src.node, side, now, n); }
  }

  /** Two seconds of silence: the step reports the move, and leaves the node live on its
      new side, unless it hears the other side in that very step. */
  lemma SilenceMoves(b: Bridge, i: In, now: Time, n: Byte)
    requires BridgeInv(b) && Stamped(b, now) && Undisputed(b, n, now)
    ensures var o, to := Step(b, i, now), b.pending[n].movedTo.value;
            && n in o.moved && o.moved[n] == to
            && ((HeardFrom(b, i).Some? && HeardFrom(b, i).value.0 == n ==> SameSide(HeardFrom(b, i).value.1, to)) ==>
                Live(o.bridge, n).Some? && SameSide(Live(o.bridge, n).value, to))
  {
    var e := Expire(b, now);
    assert Contested(b, n);
    ExpiryMeaning(b, now, n);
    HeardAlike(b, i, now);
    ExpireIsGood(b, now);
    assert !NoNode(e, n);
    NodesChangeByHearing(e, i, now);
    hide Expire, Arrived, HeardFrom, BridgeInv, Stamped, Recent;
    var h := HeardFrom(e, i);
    if h.Some? && h.value.0 != n { ConfirmTouchesOne(e, h.value.0, h.value.1, now, n); }
  }

  // ------------------------------------------------------------- over runs

  lemma {:induction false} ContestLasts(bs: seq<Bridge>, ins: seq<(In, Time)>, j: nat, k: nat, n: Byte)
    requires BridgeRun(bs, ins) && |bs| == |ins| + 1 && j <= k < |bs| && n in bs[j].pending && bs[j].pending[n].movedTo.Some?
    requires forall i :: j <= i < k ==> Silent(bs[i], ins[i].0, n) && ins[i].1 - bs[j].pending[n].asked < 2_000
    ensures n in bs[k].pending && bs[k].pending[n] == bs[j].pending[n]
    ensures n in bs[j].nodes && n in bs[k].nodes && bs[k].nodes[n] == bs[j].nodes[n]
    decreases k
  {
    if j == k {
      RunIsGood(bs, ins, j);
      assert Contested(bs[j], n);
    } else {
      hide Step, Silent, BridgeInv, Stamped, Recent, BridgeRun;
      ContestLasts(bs, ins, j, k - 1, n);
      RunSteps(bs, ins, k - 1);
      ContestStands(bs[k - 1], ins[k - 1].0, ins[k - 1].1, n);
    }
  }

  lemma RunSteps(bs: seq<Bridge>, ins: seq<(In, Time)>, i: nat)
    requires BridgeRun(bs, ins) && i < |ins|
    ensures |bs| == |ins| + 1 && BridgeInv(bs[i]) && Stamped(bs[i], ins[i].1)
    ensures bs[i + 1] == Step(bs[i], ins[i].0, ins[i].1).bridge
  {
    RunIsGood(bs, ins, i);
    assert StepsTo(bs, ins, i);
    hide Step, BridgeInv, Stamped, Recent;
  }

  /** Every contest is decided. It begins when a believed node is heard on the other side
      (ContestBegins). If the believed side is silent until a step 2 s later or more, that
      step reports the move and believes it; if the believed side speaks within the 2 s,
      that step reports a duplicate. */
  lemma ContestIsDecided(bs: seq<Bridge>, ins: seq<(In, Time)>, j: nat, k: nat, n: Byte)
    requires BridgeRun(bs, ins) && j < k < |ins|
    requires n in bs[j + 1].pending && bs[j + 1].pending[n] == Question(ins[j].1, Nothing, bs[j + 1].pending[n].movedTo)
    requires bs[j + 1].pending[n].movedTo.Some?
    requires forall i :: j < i < k ==> Silent(bs[i], ins[i].0, n) && ins[i].1 - ins[j].1 < 2_000
    ensures var to, o, h := bs[j + 1].pending[n].movedTo.value, Step(bs[k], ins[k].0, ins[k].1), HeardFrom(bs[k], ins[k].0);
            && (ins[k].1 - ins[j].1 >= 2_000 ==>
                  && n in o.moved && o.moved[n] == to
                  && ((h.Some? && h.value.0 == n ==> SameSide(h.value.1, to)) ==>
                      Live(o.bridge, n).Some? && SameSide(Live(o.bridge, n).value, to)))
            && (ins[k].1 - ins[j].1 < 2_000 && !Silent(bs[k], ins[k].0, n) ==>
                  o.actions == [Duplicate(n)] && n !in o.bridge.pending && n !in o.moved)
  {
    ContestLasts(bs, ins, j + 1, k, n);
    RunIsGood(bs, ins, k);
    hide Step, BridgeInv, Stamped, Recent, HeardFrom, BridgeRun;
    if ins[k].1 - ins[j].1 >= 2_000 {
      SilenceMoves(bs[k], ins[k].0, ins[k].1, n);
    } else if !Silent(bs[k], ins[k].0, n) {
      DuplicateIsReported(bs[k], ins[k].0, ins[k].1, n, HeardFrom(bs[k], ins[k].0).value.1);
    }
  }
}
