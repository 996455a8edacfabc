/** From any moment of a run of two routers a quiet one can be reached, unless the
    sender has given up; how soon; and what the receiving table holds then. */
module Convergence {
  import opened Wire
  import opened Table
  import opened TableTheorems
  import opened Paging
  import opened Aurp
  import opened ExportSync
  import opened TunnelView
  import opened PeerTheorems
  import opened TwoRouters
  import opened Delivery
  import opened SenderSteps
  import opened RangeView
  import opened Synchrony

  // ------------------------------------------------------------- what is still to do

  ghost predicate Carries(ks: seq<Packet>, number: U16) { exists i :: 0 <= i < |ks| && ks[i].seqno == number }

  /** The last packet numbered, or an ack of it, is on its way. */
  ghost predicate Coming(n: Net) { Carries(n.data, NumberOf(|n.log|)) || Carries(n.acks, NumberOf(|n.log|)) }

  /** Nothing outstanding, and nothing left to say. */
  predicate Quiet(n: Net) { n.s.sender == SConnected && n.s.outstanding.None? && n.s.pending == [] }

  /** The sender has closed, or has tried for the last time with nothing on its way. */
  ghost predicate Lost(n: Net) {
    n.s.sender == SUnconnected
    || (n.s.outstanding.Some? && n.s.outstanding.value.tries >= RETRIES && !Coming(n))
  }

  /** Steps still to take, at most: two for a packet in flight or a page in hand, one for
      an ack, three for a packet to be sent again and for an update. */
  ghost function Work(n: Net): nat {
    2 * |n.data| + |n.acks| + 2 * |n.s.pages|
    + (if n.s.outstanding.Some? && !Coming(n) then 3 else 0)
    + (if n.s.pending != [] then 3 else 0)
  }

  /** Late enough for whatever timer has to run out. */
  ghost predicate Late(n: Net, now: Time) {
    && (n.s.outstanding.Some? && !Coming(n) ==> Since(now, n.s.outstanding.value.at) >= RETRY)
    && (n.s.pending != [] ==> Since(now, n.s.lastUpdate) >= UPDATE_INTERVAL)
  }

  /** Channels deliver before timers run. */
  function NextAct(n: Net, now: Time): Act {
    if n.data != [] then DeliverData(now) else if n.acks != [] then DeliverAck(now) else SendTick(now)
  }

  // ------------------------------------------------------------- one step nearer

  /** A packet that arrives is acked, with its own number, whether taken or not. */
  lemma DataIsAnswered(n: Net, now: Time) returns (ack: Packet)
    requires NetInv(n) && n.data != []
    ensures var m := NetStep(n, DeliverData(now));
            && m.s == n.s && m.t == n.t && m.log == n.log && m.data == n.data[1..] && m.acks == n.acks + [ack]
    ensures ack.seqno == n.data[0].seqno
  {
    hide Inv, InStep, Told, HearLog, Sound, Mirrors, SenderInv, Routing, Room;
    var d, j := n.data[0], |n.heard|;
    Numbering(j);
    Numbering(j + 1);
    if d.seqno == NumberOf(j + 1) {
      NewAnswered(n.r, d, n.rt, now);
    } else {
      DuplicateAnswered(n.r, d, n.rt, now);
    }
    var out := Routing(n.r, d, n.rt, now);
    ack := out.sent[0];
    assert out.sent == [ack];
  }

  lemma CarriedOn(data: seq<Packet>, acks: seq<Packet>, ack: Packet, number: U16)
    requires data != [] && ack.seqno == data[0].seqno
    ensures Carries(data[1..], number) || Carries(acks + [ack], number) <==> Carries(data, number) || Carries(acks, number)
  {
    var more := acks + [ack];
    if Carries(data, number) {
      var i :| 0 <= i < |data| && data[i].seqno == number;
      if i == 0 { assert more[|acks|].seqno == number; } else { assert data[1..][i - 1].seqno == number; }
    }
    if Carries(acks, number) {
      var i :| 0 <= i < |acks| && acks[i].seqno == number;
      assert more[i].seqno == number;
    }
    if Carries(data[1..], number) {
      var i :| 0 <= i < |data| - 1 && data[1..][i].seqno == number;
      assert data[i + 1].seqno == number;
    }
    if Carries(more, number) {
      var i :| 0 <= i < |more| && more[i].seqno == number;
      if i < |acks| { assert acks[i].seqno == number; } else { assert data[0].seqno == number; }
    }
  }

  lemma DataComesNearer(n: Net, now: Time)
    requires NetInv(n) && n.data != [] && !Lost(n) && Late(n, now)
    ensures var m := NetStep(n, DeliverData(now)); Work(m) < Work(n) && !Lost(m) && Late(m, now) && m.t == n.t
  {
    var ack := DataIsAnswered(n, now);
    hide NetInv, NetStep, Carries;
    CarriedOn(n.data, n.acks, ack, NumberOf(|n.log|));
  }

  lemma CarriedBehind(acks: seq<Packet>, number: U16)
    requires acks != [] && acks[0].seqno != number
    ensures Carries(acks[1..], number) <==> Carries(acks, number)
  {
    if Carries(acks, number) {
      var i :| 0 <= i < |acks| && acks[i].seqno == number;
      assert acks[1..][i - 1].seqno == number;
    }
    if Carries(acks[1..], number) {
      var i :| 0 <= i < |acks| - 1 && acks[1..][i].seqno == number;
      assert acks[i + 1].seqno == number;
    }
  }

  lemma CarriedLast(data: seq<Packet>, k: Packet)
    ensures Carries(data + [k], k.seqno)
  {
    assert (data + [k])[|data|] == k;
  }

  lemma IgnoredComesNearer(n: Net, now: Time)
    requires NetInv(n) && n.acks != [] && !Lost(n) && Late(n, now)
    requires !Live(n.s) || n.s.outstanding.None? || n.acks[0].seqno != NumberOf(|n.log|)
    ensures var m := NetStep(n, DeliverAck(now)); Work(m) < Work(n) && !Lost(m) && Late(m, now) && m.t == n.t
  {
    AckIgnored(n, now);
    assert Live(n.s);
    hide NetInv, NetStep, Carries;
    if n.s.outstanding.Some? { CarriedBehind(n.acks, NumberOf(|n.log|)); }
  }

  lemma PageOut(s: PeerState, now: Time)
    requires s.pages != []
    ensures var p := SendPage(s.(outstanding := None), now).0;
            && p.pages == s.pages[1..] && p.pending == s.pending && p.lastUpdate == s.lastUpdate
            && p.outstanding.Some? && p.outstanding.value.tries == 1 && p.sender == WaitRiRspAck
  {
  }

  lemma PageComesNearer(n: Net, now: Time)
    requires NetInv(n) && n.acks != [] && Live(n.s) && n.s.outstanding.Some?
    requires n.acks[0].seqno == NumberOf(|n.log|)
    requires n.s.sender == WaitRiRspAck && n.s.pages != [] && Late(n, now)
    ensures var m := NetStep(n, DeliverAck(now)); Work(m) < Work(n) && !Lost(m) && Late(m, now) && m.t == n.t
  {
    hide NetInv, NetStep, Live, SendPage, Carries;
    var p, k := PageFollows(n, now);
    PageOut(n.s, now);
    CarriedLast(n.data, k);
  }

  /** The ack of the last packet there is. */
  lemma LastComesNearer(n: Net, now: Time)
    requires NetInv(n) && n.acks != [] && Live(n.s) && n.s.outstanding.Some?
    requires n.acks[0].seqno == NumberOf(|n.log|)
    requires n.s.pages == [] || n.s.sender != WaitRiRspAck
    requires Late(n, now)
    ensures var m := NetStep(n, DeliverAck(now)); Work(m) < Work(n) && !Lost(m) && Late(m, now) && m.t == n.t
  {
    LastAckOut(n, now);
    hide NetInv, GetRiAck, SequencedOf, Carries;
    AckStep(n, now, n.s.(outstanding := None, sender := SConnected, probing := false), []);
    hide NetStep;
    assert n.data + [] == n.data && n.log + CmdsOf([]) == n.log;
  }

  lemma AckComesNearer(n: Net, now: Time)
    requires NetInv(n) && n.acks != [] && !Lost(n) && Late(n, now)
    ensures var m := NetStep(n, DeliverAck(now)); Work(m) < Work(n) && !Lost(m) && Late(m, now) && m.t == n.t
  {
    AckTaken(n);
    hide NetInv, NetStep, All, Late, Work, Lost;
    if !Live(n.s) || n.s.outstanding.None? || n.acks[0].seqno != NumberOf(|n.log|) {
      IgnoredComesNearer(n, now);
    } else if n.s.sender == WaitRiRspAck && n.s.pages != [] {
      PageComesNearer(n, now);
    } else {
      LastComesNearer(n, now);
    }
  }

  lemma NoneCarried(number: U16)
    ensures !Carries([], number)
  {
  }

  /** With nothing in flight, a packet that may be tried again is sent again. */
  lemma RetryFollows(n: Net, now: Time) returns (q: PeerState, k: Packet)
    requires NetInv(n) && Live(n.s) && n.s.outstanding.Some?
    requires n.s.outstanding.value.tries < RETRIES && Since(now, n.s.outstanding.value.at) >= RETRY
    ensures NetStep(n, SendTick(now)) == n.(s := q, data := n.data + [k]) && k.seqno == NumberOf(|n.log|)
    ensures q == n.s.(outstanding := q.outstanding) && q.outstanding.Some?
  {
    assert SenderInv(n.s) && SendingOk(n);
    k := n.s.outstanding.value.packet;
    assert Sequenced(k) && k.seqno == NumberOf(|n.log|);
    hide NetInv, SenderInv, SendingOk, Sending, Live;
    q := SenderTimers(n.s, now).0;
    assert SenderTimers(n.s, now) == (q, [k]);
    SendingOne(n, q, k, false);
  }

  lemma RetryComesNearer(n: Net, now: Time)
    requires NetInv(n) && Live(n.s) && n.data == [] && n.acks == [] && n.s.outstanding.Some? && !Lost(n) && Late(n, now)
    ensures var m := NetStep(n, SendTick(now)); Work(m) < Work(n) && !Lost(m) && Late(m, now) && m.t == n.t
  {
    NoneCarried(NumberOf(|n.log|));
    hide NetInv, NetStep, Carries, Live;
    var q, k := RetryFollows(n, now);
    CarriedLast(n.data, k);
  }

  lemma UpdateOut(s: PeerState, now: Time) returns (q: PeerState, k: Packet)
    requires SenderInv(s) && s.outstanding.None? && Live(s) && s.pending != [] && Since(now, s.lastUpdate) >= UPDATE_INTERVAL
    ensures SenderTimers(s, now) == (q, [k]) && Sequenced(k) && k.seqno == Succ(s.seqSend)
    ensures q.pages == s.pages && q.pending == [] && q.sender == WaitRiUpdAck
    ensures q.outstanding.Some? && q.outstanding.value.tries == 1
  {
    q, k := SenderTimers(s, now).0, SenderTimers(s, now).1[0];
  }

  /** With nothing in flight and nothing outstanding, the update goes out. */
  lemma UpdateFollows(n: Net, now: Time) returns (q: PeerState, k: Packet)
    requires NetInv(n) && Live(n.s) && n.s.outstanding.None? && n.s.pending != []
    requires Since(now, n.s.lastUpdate) >= UPDATE_INTERVAL
    ensures NetStep(n, SendTick(now)) == n.(s := q, data := n.data + [k], log := n.log + [k.cmd])
    ensures k.seqno == NumberOf(|n.log| + 1) && q.pages == n.s.pages && q.pending == [] && q.sender == WaitRiUpdAck
    ensures q.outstanding.Some? && q.outstanding.value.tries == 1
  {
    assert SenderInv(n.s) && SendingOk(n);
    assert n.s.seqSend == NumberOf(|n.log|);
    hide NetInv, SenderTimers, SenderInv, SendingOk, Sending, Live;
    Numbering(|n.log|);
    q, k := UpdateOut(n.s, now);
    SendingOne(n, q, k, true);
  }

  lemma FlushComesNearer(n: Net, now: Time)
    requires NetInv(n) && Live(n.s) && n.data == [] && n.acks == [] && n.s.outstanding.None? && !Lost(n) && Late(n, now)
    requires n.s.pending != []
    ensures var m := NetStep(n, SendTick(now)); Work(m) < Work(n) && !Lost(m) && Late(m, now) && m.t == n.t
  {
    hide NetInv, NetStep, Carries, Live;
    var q, k := UpdateFollows(n, now);
    CarriedLast(n.data, k);
  }

  lemma NextComesNearer(n: Net, now: Time)
    requires NetInv(n) && !Lost(n) && Late(n, now) && !Quiet(n)
    ensures Enabled(n, NextAct(n, now)) && NetInv(NetStep(n, NextAct(n, now)))
    ensures var m := NetStep(n, NextAct(n, now)); Work(m) < Work(n) && !Lost(m) && Late(m, now) && m.t == n.t
  {
    StepKeepsNet(n, NextAct(n, now));
    assert Live(n.s) && SenderInv(n.s);
    hide NetInv, NetStep, Late, Work, Lost, SenderInv;
    if n.data != [] {
      DataComesNearer(n, now);
    } else if n.acks != [] {
      AckComesNearer(n, now);
    } else if n.s.outstanding.Some? {
      RetryComesNearer(n, now);
    } else {
      StillSaying(n);
      FlushComesNearer(n, now);
    }
  }

  lemma StillSaying(n: Net)
    requires Live(n.s) && SenderInv(n.s) && n.s.outstanding.None? && !Quiet(n)
    ensures n.s.pending != []
  {
  }

  // ------------------------------------------------------------- the way to a quiet moment

  /** A run from `n`, from any moment on. */
  ghost predicate Leads(n: Net, ns: seq<Net>, acts: seq<Act>) {
    && |ns| == |acts| + 1 && ns[0] == n
    && forall i :: 0 <= i < |acts| ==> StepsTo(ns, acts, i)
  }

  /** Deliveries and the sender's own timer, and nothing else. */
  ghost predicate Undisturbed(acts: seq<Act>, now: Time) {
    forall i :: 0 <= i < |acts| ==> acts[i] in {DeliverData(now), DeliverAck(now), SendTick(now)}
  }

  lemma OneStepMore(n: Net, a: Act, ns: seq<Net>, acts: seq<Act>)
    requires Enabled(n, a) && Leads(NetStep(n, a), ns, acts)
    ensures Leads(n, [n] + ns, [a] + acts)
  {
    hide NetStep, Enabled;
    var ms, bs := [n] + ns, [a] + acts;
    forall i | 0 <= i < |bs| ensures StepsTo(ms, bs, i) {
      if i > 0 {
        assert StepsTo(ns, acts, i - 1);
        assert ms[i] == ns[i - 1] && ms[i + 1] == ns[i] && bs[i] == acts[i - 1];
      }
    }
  }

  /** While the channels deliver and the tables stand still, the two routers fall quiet
      within the work that is left. */
  lemma {:induction false} QuietIsReached(n: Net, now: Time) returns (ns: seq<Net>, acts: seq<Act>)
    requires NetInv(n) && !Lost(n) && Late(n, now)
    ensures Leads(n, ns, acts) && Undisturbed(acts, now) && |acts| <= Work(n)
    ensures Quiet(ns[|acts|]) && ns[|acts|].t == n.t
    decreases Work(n)
  {
    hide NetInv, NetStep, Late, Work, Lost, Enabled;
    if Quiet(n) {
      ns, acts := [n], [];
    } else {
      var a := NextAct(n, now);
      NextComesNearer(n, now);
      ns, acts := QuietIsReached(NetStep(n, a), now);
      OneStepMore(n, a, ns, acts);
      var last := ns[|acts|];
      ns, acts := [n] + ns, [a] + acts;
      assert ns[|acts|] == last;
    }
  }

  /** A moment by which every timer that matters has run out. */
  function LateEnough(s: PeerState): Time {
    var a := if s.outstanding.Some? then s.outstanding.value.at + RETRY else 0;
    var b := s.lastUpdate + UPDATE_INTERVAL;
    if a < b then b else a
  }

  // ------------------------------------------------------------- no way back

  lemma SubsetCarries(xs: seq<Packet>, ys: seq<Packet>, number: U16)
    requires forall i :: 0 <= i < |ys| ==> ys[i] in xs
    ensures Carries(ys, number) ==> Carries(xs, number)
  {
    if Carries(ys, number) {
      var i :| 0 <= i < |ys| && ys[i].seqno == number;
      var j :| 0 <= j < |xs| && xs[j] == ys[i];
    }
  }

  lemma LostInChannels(n: Net, a: Act)
    requires Lost(n) && Enabled(n, a) && (a.LoseData? || a.RepeatData? || a.LoseAck? || a.RepeatAck?)
    ensures Lost(NetStep(n, a))
  {
    hide Carries;
    var m := NetStep(n, a);
    SubsetCarries(n.data, m.data, NumberOf(|n.log|));
    SubsetCarries(n.acks, m.acks, NumberOf(|n.log|));
  }

  lemma NotCarried(ks: seq<Packet>, number: U16)
    requires ks != [] && !Carries(ks, number)
    ensures ks[0].seqno != number
  {
  }

  lemma LostOnArrival(n: Net, a: Act)
    requires NetInv(n) && Lost(n) && Enabled(n, a) && (a.DeliverData? || a.DeliverAck?)
    ensures Lost(NetStep(n, a))
  {
    if a.DeliverData? {
      var ack := DataIsAnswered(n, a.now);
      hide NetInv, NetStep, Carries;
      CarriedOn(n.data, n.acks, ack, NumberOf(|n.log|));
    } else {
      if n.s.outstanding.Some? { NotCarried(n.acks, NumberOf(|n.log|)); }
      AckIgnored(n, a.now);
      hide NetInv, NetStep, Carries;
      SubsetCarries(n.acks, n.acks[1..], NumberOf(|n.log|));
    }
  }

  lemma LostOnTick(n: Net, now: Time)
    requires NetInv(n) && Lost(n)
    ensures Lost(NetStep(n, SendTick(now)))
  {
    var (q, out) := SenderTimers(n.s, now);
    assert out == [] && (q == n.s || q == CloseSender(n.s));
    hide NetInv, SenderTimers, Sending, Carries;
    SendingNone(n, q, n.s.outstanding.None?);
  }

  lemma LostToOthers(n: Net, a: Act)
    requires NetInv(n) && Lost(n) && Enabled(n, a)
    requires a.LocalRoutes? || a.LocalZones? || a.StrangerOpens? || a.Asked? || a.RemoteTable? || a.ReceiverTick? || a.TickleAnswered?
    ensures Lost(NetStep(n, a))
  {
    match a
    case Asked(k, now) => AskedKeepsNet(n, k, now);
    case StrangerOpens(conn, now) => StrangerIsIgnored(n, conn, now);
    case _ =>
      hide NetInv, Run, QueuedAll, Routing, ReceiverTimers, Step, Carries;
  }

  lemma StrangerIsIgnored(n: Net, conn: U16, now: Time)
    requires n.s.outstanding.Some? && n.s.sender != SUnconnected && conn != n.s.connRemote
    ensures NetStep(n, StrangerOpens(conn, now)) == n
  {
    var r := Routing(n.s, Packet(conn, 0, OpenReq(1, 0)), n.t, now);
    assert r.peer == n.s && r.sent == [];
    hide Routing, Sending;
    SendingNone(n, n.s, true);
  }

  /** Nothing brings a lost transfer back. */
  lemma LostStays(n: Net, a: Act)
    requires NetInv(n) && Lost(n) && Enabled(n, a)
    ensures Lost(NetStep(n, a))
  {
    hide NetInv, NetStep, Lost, Enabled;
    match a
    case SendTick(now) => LostOnTick(n, now);
    case DeliverData(_) => LostOnArrival(n, a);
    case DeliverAck(_) => LostOnArrival(n, a);
    case LoseData(_) => LostInChannels(n, a);
    case RepeatData(_) => LostInChannels(n, a);
    case LoseAck(_) => LostInChannels(n, a);
    case RepeatAck(_) => LostInChannels(n, a);
    case _ => LostToOthers(n, a);
  }

  lemma {:induction false} LostForGood(n: Net, ns: seq<Net>, acts: seq<Act>, i: nat)
    requires NetInv(n) && Lost(n) && Leads(n, ns, acts) && i < |ns|
    ensures NetInv(ns[i]) && Lost(ns[i])
  {
    hide NetInv, NetStep, Lost, Enabled;
    if i > 0 {
      LostForGood(n, ns, acts, i - 1);
      assert StepsTo(ns, acts, i - 1);
      StepKeepsNet(ns[i - 1], acts[i - 1]);
      LostStays(ns[i - 1], acts[i - 1]);
    }
  }

  lemma LostIsNotQuiet(n: Net)
    requires Lost(n)
    ensures !Quiet(n)
  {
  }

  ghost predicate FallsQuiet(n: Net, ns: seq<Net>, acts: seq<Act>) {
    Leads(n, ns, acts) && Quiet(ns[|acts|])
  }

  /** From any moment a quiet one can be reached, by any steps at all, exactly when the
      transfer is not lost: when the sender has not closed, and has a try left or a
      packet or its ack still on the way. */
  lemma QuietIsPossible(n: Net)
    requires NetInv(n)
    ensures (exists ns, acts :: FallsQuiet(n, ns, acts)) <==> !Lost(n)
  {
    hide NetInv, Lost, Leads, Quiet, Work;
    if Lost(n) {
      forall ns, acts ensures !FallsQuiet(n, ns, acts) {
        if Leads(n, ns, acts) {
          assert |ns| == |acts| + 1 by { LeadsLength(n, ns, acts); }
          LostForGood(n, ns, acts, |acts|);
          LostIsNotQuiet(ns[|acts|]);
        }
      }
    } else {
      var ns, acts := QuietIsReached(n, LateEnough(n.s));
      assert FallsQuiet(n, ns, acts);
    }
  }

  lemma LeadsLength(n: Net, ns: seq<Net>, acts: seq<Act>)
    requires Leads(n, ns, acts)
    ensures |ns| == |acts| + 1
  {
  }

  // ------------------------------------------------------------- every run can be finished

  lemma Onward(ns: seq<Net>, acts: seq<Act>, i: nat, more: seq<Net>, rest: seq<Act>)
    requires RunOf(ns, acts) && i < |ns| && Leads(ns[i], more, rest)
    ensures RunOf(ns[..i] + more, acts[..i] + rest)
    ensures (ns[..i] + more)[i + |rest|] == more[|rest|]
  {
    hide NetStep, Enabled, Served;
    var ms, bs := ns[..i] + more, acts[..i] + rest;
    assert ms[0] == ns[0];
    forall k | 0 <= k < |bs| ensures StepsTo(ms, bs, k) {
      if k < i {
        assert StepsTo(ns, acts, k);
        assert ms[k] == ns[k] && ms[k + 1] == ns[k + 1] && bs[k] == acts[k];
      } else {
        assert StepsTo(more, rest, k - i);
        assert ms[k] == more[k - i] && ms[k + 1] == more[k + 1 - i] && bs[k] == rest[k - i];
      }
    }
  }

  lemma {:induction false} CalmNeverParts(ms: seq<Net>, bs: seq<Act>, i: nat, k: nat, now: Time, s: U16)
    requires RunOf(ms, bs) && i <= k <= |bs| < |ms| && Undisturbed(bs[i..], now) && NeverParting(ms, i + 1, s)
    ensures NeverParting(ms, k + 1, s)
  {
    hide RunOf, NetInv, NetStep, Enabled, RangeInv, Parting;
    if k > i {
      CalmNeverParts(ms, bs, i, k - 1, now, s);
      OfferedAsExported(ms, bs, k - 1, s);
      RunKeepsNet(ms, bs, k - 1);
      RunStepsOn(ms, bs, k - 1);
      assert bs[i..][k - 1 - i] == bs[k - 1];
      CalmDoesNotPart(ms[k - 1], bs[k - 1], s);
    }
  }

  /** The receiver is connected, and its table holds through the peer the export, one hop
      further, whole wherever the two never were about to part. */
  ghost predicate HoldsTheExport(n: Net, ns: seq<Net>, i: nat)
    requires i <= |ns|
  {
    && (n.r.receiver == RConnected || n.r.receiver == WaitTickleAck)
    && (forall s: U16 :: ViaIs(n.rt.routes, Peer(n.r.ip), s, OneMore(Exported(n.t, s))))
    && (forall x :: x in Export(n.t) && NeverParting(ns, i, x.range.lo) ==> HeldOneHopFurther(n.rt.routes, n.r.ip, x))
  }

  lemma QuietHoldsTheExport(ms: seq<Net>, bs: seq<Act>, i: nat, now: Time)
    requires RunOf(ms, bs) && i <= |bs| < |ms| && Undisturbed(bs[i..], now) && Quiet(ms[|bs|]) && ms[|bs|].clear
    ensures HoldsTheExport(ms[|bs|], ms, i + 1)
  {
    hide RunOf, ViaIs, ViaSpans, NeverParting, HeldOneHopFurther, Undisturbed, Export;
    var last := ms[|bs|];
    QuietMeansSynchronised(ms, bs, |bs|, 0);
    forall s: U16 ensures ViaIs(last.rt.routes, Peer(last.r.ip), s, OneMore(Exported(last.t, s))) {
      QuietMeansSynchronised(ms, bs, |bs|, s);
    }
    forall x | x in Export(last.t) && NeverParting(ms, i + 1, x.range.lo) ensures HeldOneHopFurther(last.rt.routes, last.r.ip, x) {
      CalmNeverParts(ms, bs, i, |bs|, now, x.range.lo);
      PartingLater(ms, |bs|, x.range.lo);
      QuietMeansSynchronised(ms, bs, |bs|, x.range.lo);
    }
  }

  lemma PartingLater(ms: seq<Net>, k: nat, s: U16)
    requires k < |ms| && NeverParting(ms, k + 1, s)
    ensures NeverParting(ms, k, s)
  {
    hide Parting;
  }

  lemma SamePast(n: Net, ms: seq<Net>, ns: seq<Net>, i: nat)
    requires i < |ms| && i < |ns| && ms[..i + 1] == ns[..i + 1] && HoldsTheExport(n, ms, i + 1)
    ensures HoldsTheExport(n, ns, i + 1)
  {
    hide Parting, ViaIs, HeldOneHopFurther, Export, NeverParting;
    forall x | x in Export(n.t) && NeverParting(ns, i + 1, x.range.lo) ensures HeldOneHopFurther(n.rt.routes, n.r.ip, x) {
      SamePastParts(ms, ns, i, x.range.lo);
    }
  }

  lemma SamePastParts(ms: seq<Net>, ns: seq<Net>, i: nat, s: U16)
    requires i < |ms| && i < |ns| && ms[..i + 1] == ns[..i + 1]
    ensures NeverParting(ms, i + 1, s) <==> NeverParting(ns, i + 1, s)
  {
    hide Parting;
    forall j | 0 <= j <= i ensures ms[j] == ns[j] { assert ms[..i + 1][j] == ns[..i + 1][j]; }
  }

  lemma Spliced<T>(xs: seq<T>, i: nat, rest: seq<T>)
    requires i <= |xs|
    ensures (xs[..i] + rest)[..i] == xs[..i] && (xs[..i] + rest)[i..] == rest
  {
  }

  lemma SplicedOn<T>(xs: seq<T>, i: nat, more: seq<T>)
    requires i < |xs| && more != [] && more[0] == xs[i]
    ensures (xs[..i] + more)[..i + 1] == xs[..i + 1]
  {
  }

  /** From any moment of any run at which the transfer is not lost, the channels and the
      sender's timer alone bring the two routers, within the work then left, to a moment
      at which the receiver is connected and its table holds through the peer exactly
      what the sending table exports, each network one hop further, and whole unless it
      was parting already, if the table had room for it all. */
  lemma SynchronisationIsReached(ns: seq<Net>, acts: seq<Act>, i: nat) returns (ms: seq<Net>, bs: seq<Act>)
    requires RunOf(ns, acts) && i < |ns| && !Lost(ns[i])
    ensures RunOf(ms, bs) && i <= |bs| <= i + Work(ns[i]) && |bs| < |ms|
    ensures ms[..i + 1] == ns[..i + 1] && bs[..i] == acts[..i] && Undisturbed(bs[i..], LateEnough(ns[i].s))
    ensures var last := ms[|bs|];
            Quiet(last) && last.t == ns[i].t && (last.clear ==> HoldsTheExport(last, ns, i + 1))
  {
    RunKeepsNet(ns, acts, i);
    assert Late(ns[i], LateEnough(ns[i].s));
    hide NetInv, Lost, Work, Late, LateEnough, StepsTo, Served, HoldsTheExport;
    var more, rest := QuietIsReached(ns[i], LateEnough(ns[i].s));
    ms, bs := ns[..i] + more, acts[..i] + rest;
    Onward(ns, acts, i, more, rest);
    Spliced(acts, i, rest);
    SplicedOn(ns, i, more);
    if ms[|bs|].clear {
      QuietHoldsTheExport(ms, bs, i, LateEnough(ns[i].s));
      SamePast(ms[|bs|], ms, ns, i);
    }
  }
}
