/** Two routers and the two channels between them: one exports, the other keeps a
    table. The channels lose and repeat packets but keep their order. Here are the
    steps, the invariant they keep, and the proofs for the channels and the sender;
    Delivery.dfy has the receiver and every run. */
module TwoRouters {
  import opened Wire
  import opened Table
  import opened TableTheorems
  import opened Paging
  import opened Aurp
  import opened ExportSync
  import opened TunnelView
  import opened PeerTheorems

  // ------------------------------------------------------------- numbering

  /** The sequence number of the i-th packet of a connection, counting from 1. */
  function NumberOf(i: nat): U16 { (i - 1) % 0xffff + 1 }

  lemma Numbering(i: nat)
    ensures Succ(NumberOf(i)) == NumberOf(i + 1)
    ensures Pred(NumberOf(i + 1)) == NumberOf(i)
    ensures NumberOf(i) != NumberOf(i + 1) && NumberOf(i) != 0
    ensures NumberOf(1) == 1 && NumberOf(0x1_0000) == 1
  {
  }

  // ------------------------------------------------------------- the two routers

  datatype Net = Net(
    s: PeerState, t: Table,          // the sender's half and its tables
    log: seq<Cmd>,                   // every numbered command sent, in order
    r: PeerState, rt: Table,         // the receiver's half and its tables
    heard: seq<Cmd>,                 // every command taken as new, in order
    data: seq<Packet>, acks: seq<Packet>,
    clear: bool)                     // the receiving table had room for everything so far

  datatype Act =
    | LocalRoutes(ops: seq<Op>)
    | LocalZones(ops: seq<Op>)
    | SendTick(now: Time)
    | StrangerOpens(conn: U16, now: Time)
    | Asked(packet: Packet, now: Time)
    | RemoteTable(op: Op)
    | ReceiverTick(now: Time)
    | TickleAnswered(now: Time)
    | DeliverData(now: Time)
    | DeliverAck(now: Time)
    | LoseData(i: nat)
    | RepeatData(i: nat)
    | LoseAck(i: nat)
    | RepeatAck(i: nat)

  function Without<T>(xs: seq<T>, i: nat): seq<T>
    requires i < |xs|
  {
    xs[..i] + xs[i + 1..]
  }

  function Twice<T>(xs: seq<T>, i: nat): seq<T>
    requires i < |xs|
  {
    xs[..i] + [xs[i]] + xs[i..]
  }

  ghost predicate Enabled(n: Net, a: Act) {
    match a
    case LocalRoutes(ops) => RouteOps(ops)
    case LocalZones(ops) => ZoneOps(n.t, ops)
    case SendTick(_) => true
    case StrangerOpens(conn, _) => n.s.sender != SUnconnected && conn != n.s.connRemote
    case Asked(k, _) => k.cmd.Tickle? || k.cmd.ZiReq? || k.cmd.GznReq? || k.cmd.GdzlReq?
    case RemoteTable(op) => OpOk(op) && TunnelOpOk(op) && Foreign(op, n.r.ip)
    case ReceiverTick(now) =>
      (n.r.receiver == RConnected || n.r.receiver == WaitTickleAck) && ReceiverTimers(n.r, n.rt, now).peer.ReceiverOpen()
    case TickleAnswered(_) => true
    case DeliverData(_) => n.data != []
    case DeliverAck(_) => n.acks != []
    case LoseData(i) => i < |n.data|
    case RepeatData(i) => i < |n.data|
    case LoseAck(i) => i < |n.acks|
    case RepeatAck(i) => i < |n.acks|
  }

  function CmdsOf(ks: seq<Packet>): seq<Cmd> {
    seq(|ks|, i requires 0 <= i < |ks| => ks[i].cmd)
  }

  /** The sender's half after a step of its own, with what it put on the wire;
      `isNew` when that is new rather than a retransmission. */
  function Sending(n: Net, s: PeerState, out: seq<Packet>, isNew: bool): Net {
    var ks := SequencedOf(out);
    n.(s := s, data := n.data + ks, log := if isNew then n.log + CmdsOf(ks) else n.log)
  }

  ghost predicate Room(n: Net, c: Cmd, now: Time) {
    match c
    case RiRsp(_, ts) => ClearTuples(n.rt, n.r.ip, ts, now)
    case RiUpd(es) => ClearEvents(n.rt, n.r.ip, HearLog(n.heard), es, now)
    case _ => true
  }

  ghost function Receiving(n: Net, now: Time): Net
    requires n.data != []
  {
    var k := n.data[0];
    var out := Routing(n.r, k, n.rt, now);
    var taken := k.conn == n.r.connLocal && n.r.ReceiverOpen() && CheckSeq(n.r.seqRecv, k.seqno) == New;
    n.(data := n.data[1..], acks := n.acks + out.sent, r := out.peer, rt := out.table,
       heard := if taken then n.heard + [k.cmd] else n.heard,
       clear := n.clear && (taken ==> Room(n, k.cmd, now)))
  }

  ghost function NetStep(n: Net, a: Act): Net
    requires Enabled(n, a)
  {
    match a
    case LocalRoutes(ops) => var (u, cs) := Run(n.t, ops); n.(t := u, s := RouteChanged(n.s, cs, u))
    case LocalZones(ops) => var (u, cs) := Run(n.t, ops); n.(t := u, s := RouteChanged(n.s, cs, u))
    case SendTick(now) =>
      var (q, out) := SenderTimers(n.s, now);
      Sending(n, q, out, n.s.outstanding.None?)
    case StrangerOpens(conn, now) =>
      var r := Routing(n.s, Packet(conn, 0, OpenReq(1, 0)), n.t, now);
      Sending(n, r.peer, r.sent, true)
    case Asked(k, now) =>
      var r := Routing(n.s, k, n.t, now);
      Sending(n.(t := r.table), r.peer, r.sent, true)
    case RemoteTable(op) => n.(rt := Step(n.rt, op).0)
    case ReceiverTick(now) =>
      var out := ReceiverTimers(n.r, n.rt, now);
      n.(r := out.peer, rt := out.table)
    case TickleAnswered(now) =>
      var out := Routing(n.r, Packet(n.r.connLocal, 0, TickleAck), n.rt, now);
      n.(r := out.peer, rt := out.table)
    case DeliverData(now) => Receiving(n, now)
    case DeliverAck(now) =>
      var r := Routing(n.s, n.acks[0], n.t, now);
      Sending(n.(acks := n.acks[1..]), r.peer, r.sent, true)
    case LoseData(i) => n.(data := Without(n.data, i))
    case RepeatData(i) => n.(data := Twice(n.data, i))
    case LoseAck(i) => n.(acks := Without(n.acks, i))
    case RepeatAck(i) => n.(acks := Twice(n.acks, i))
  }

  /** What hearing a whole log comes to. */
  function HearLog(log: seq<Cmd>): View {
    if log == [] then map[] else Hear(HearLog(log[..|log| - 1]), log[|log| - 1])
  }

  // ------------------------------------------------------------- the invariant

  function Numbered(conn: U16, log: seq<Cmd>, i: nat): Packet
    requires 1 <= i <= |log|
  {
    Packet(conn, NumberOf(i), log[i - 1])
  }

  /** Once a packet numbered `b` appears, only those follow. */
  ghost predicate Ordered(xs: seq<Packet>, b: U16) {
    forall i, j :: 0 <= i < j < |xs| && xs[i].seqno == b ==> xs[j].seqno == b
  }

  ghost predicate All(xs: seq<Packet>, b: U16) {
    forall i :: 0 <= i < |xs| ==> xs[i].seqno == b
  }

  /** In flight: copies of the last packet, behind copies of the one before it
      while the receiver may still need telling. */
  ghost predicate DataOk(xs: seq<Packet>, conn: U16, log: seq<Cmd>, heard: nat)
    requires log != []
  {
    var k := |log|;
    && (forall i :: 0 <= i < |xs| ==>
          xs[i] == Numbered(conn, log, k) || (k > 1 && xs[i] == Numbered(conn, log, k - 1)))
    && Ordered(xs, NumberOf(k))
    && (heard == k ==> All(xs, NumberOf(k)))
  }

  /** Acks in flight: of the last packet once it was heard, behind acks of the one
      before; only of the last once the sender has settled it. */
  ghost predicate AcksOk(xs: seq<Packet>, conn: U16, k: nat, heard: nat, settled: bool)
    requires k > 0
  {
    && (forall i :: 0 <= i < |xs| ==>
          xs[i].conn == conn && xs[i].cmd.RiAck?
          && (xs[i].seqno == NumberOf(k) || (k > 1 && xs[i].seqno == NumberOf(k - 1))))
    && Ordered(xs, NumberOf(k))
    && (heard < k ==> k > 1 ==> All(xs, NumberOf(k - 1)))
    && (heard < k ==> k == 1 ==> xs == [])
    && (settled ==> All(xs, NumberOf(k)))
  }

  ghost predicate Live(s: PeerState) {
    s.sender == SConnected || s.sender == WaitRiRspAck || s.sender == WaitRiUpdAck
  }

  ghost predicate SendingOk(n: Net)
    requires n.log != []
  {
    && SenderInv(n.s)
    && n.s.connRemote == n.r.connLocal && n.s.seqSend == NumberOf(|n.log|)
    && (n.s.outstanding.Some? ==>
          n.s.outstanding.value.packet == Numbered(n.r.connLocal, n.log, |n.log|))
    && (n.s.outstanding.None? ==> |n.heard| == |n.log|)
    && InStep(Told(HearLog(n.log), n.s), n.s.pending, n.t)
  }

  ghost predicate NetInv(n: Net) {
    && n.log != [] && n.heard <= n.log && |n.log| <= |n.heard| + 1
    && n.r.ReceiverOpen() && n.r.seqRecv == NumberOf(|n.heard| + 1) && n.r.connLocal != 0
    && DataOk(n.data, n.r.connLocal, n.log, |n.heard|)
    && AcksOk(n.acks, n.r.connLocal, |n.log|, |n.heard|, Live(n.s) && n.s.outstanding.None?)
    && (n.s.sender == SUnconnected || Live(n.s))
    && (n.s.sender == SUnconnected ==> n.s.connRemote == 0 && n.s.outstanding.None?)
    && (Live(n.s) ==> SendingOk(n))
    && (forall i :: 0 <= i < |n.log| ==> n.log[i].RiRsp? || n.log[i].RiUpd?)
    && Inv(n.t)
    && (n.clear ==> Sound(n.rt) && Mirrors(n.rt, n.r.ip, HearLog(n.heard)))
  }

  // ------------------------------------------------------------- channels

  /** Every packet of `ys` was in `xs`, in the same order. */
  ghost predicate Drawn(ys: seq<Packet>, xs: seq<Packet>, from: seq<nat>) {
    && |from| == |ys|
    && (forall i :: 0 <= i < |ys| ==> from[i] < |xs| && ys[i] == xs[from[i]])
    && (forall i, j :: 0 <= i < j < |ys| ==> from[i] <= from[j])
  }

  lemma DrawnOk(ys: seq<Packet>, xs: seq<Packet>, from: seq<nat>, conn: U16, log: seq<Cmd>, heard: nat, settled: bool)
    requires log != [] && Drawn(ys, xs, from)
    ensures DataOk(xs, conn, log, heard) ==> DataOk(ys, conn, log, heard)
    ensures AcksOk(xs, conn, |log|, heard, settled) ==> AcksOk(ys, conn, |log|, heard, settled)
  {
    if ys != [] { assert from[0] < |xs|; }
  }

  lemma LosingDraws(xs: seq<Packet>, i: nat) returns (from: seq<nat>)
    requires i < |xs|
    ensures Drawn(Without(xs, i), xs, from)
  {
    from := seq(|xs| - 1, j requires 0 <= j => if j < i then j else j + 1);
  }

  lemma RepeatingDraws(xs: seq<Packet>, i: nat) returns (from: seq<nat>)
    requires i < |xs|
    ensures Drawn(Twice(xs, i), xs, from)
  {
    from := seq(|xs| + 1, j requires 0 <= j => if j <= i then j else j - 1);
  }

  /** Losing or repeating a packet of either channel. */
  lemma ChannelKeepsNet(n: Net, a: Act)
    requires NetInv(n) && Enabled(n, a) && (a.LoseData? || a.RepeatData? || a.LoseAck? || a.RepeatAck?)
    ensures NetInv(NetStep(n, a))
  {
    hide Inv, InStep, Told, HearLog, Sound, Mirrors, SenderInv;
    var conn, log, heard, settled := n.r.connLocal, n.log, |n.heard|, Live(n.s) && n.s.outstanding.None?;
    if a.LoseData? {
      var from := LosingDraws(n.data, a.i);
      DrawnOk(Without(n.data, a.i), n.data, from, conn, log, heard, settled);
    } else if a.RepeatData? {
      var from := RepeatingDraws(n.data, a.i);
      DrawnOk(Twice(n.data, a.i), n.data, from, conn, log, heard, settled);
    } else if a.LoseAck? {
      var from := LosingDraws(n.acks, a.i);
      DrawnOk(Without(n.acks, a.i), n.acks, from, conn, log, heard, settled);
    } else {
      var from := RepeatingDraws(n.acks, a.i);
      DrawnOk(Twice(n.acks, a.i), n.acks, from, conn, log, heard, settled);
    }
  }

  // ------------------------------------------------------------- the sender's steps

  lemma HearLogSnoc(log: seq<Cmd>, c: Cmd)
    ensures HearLog(log + [c]) == Hear(HearLog(log), c)
  {
    assert (log + [c])[..|log|] == log;
  }

  /** A new numbered packet goes out once the one before it is settled. */
  lemma FreshPacket(n: Net, s: PeerState, c: Cmd)
    requires NetInv(n) && Live(n.s) && |n.heard| == |n.log| && All(n.acks, NumberOf(|n.log|))
    requires SenderInv(s) && Live(s) && s.connRemote == n.r.connLocal && s.outstanding.Some?
    requires s.outstanding.value.packet == Packet(n.r.connLocal, Succ(NumberOf(|n.log|)), c)
    requires c.RiRsp? || c.RiUpd?
    requires InStep(Told(Hear(HearLog(n.log), c), s), s.pending, n.t)
    ensures NetInv(n.(s := s, data := n.data + [s.outstanding.value.packet], log := n.log + [c]))
  {
    var k := |n.log|;
    Numbering(k);
    HearLogSnoc(n.log, c);
    var m := n.(s := s, data := n.data + [s.outstanding.value.packet], log := n.log + [c]);
    assert m.heard <= m.log;
    forall i | 0 <= i < |m.data|
      ensures m.data[i] == Numbered(m.r.connLocal, m.log, k + 1) || m.data[i] == Numbered(m.r.connLocal, m.log, k)
    {
      if i < k && i < |n.data| { assert n.data[i].seqno == NumberOf(k); }
    }
    assert SendingOk(m);
  }

  lemma ClosingKeepsNet(n: Net)
    requires NetInv(n) && Live(n.s)
    ensures NetInv(n.(s := CloseSender(n.s)))
  {
    hide Inv, InStep, Told, HearLog, Sound, Mirrors;
  }

  lemma ResendingKeepsNet(n: Net, q: PeerState)
    requires NetInv(n) && Live(n.s) && n.s.outstanding.Some? && q.outstanding.Some? && SenderInv(q)
    requires q == n.s.(outstanding := q.outstanding)
    requires q.outstanding.value.packet == n.s.outstanding.value.packet
    ensures NetInv(n.(s := q, data := n.data + [q.outstanding.value.packet]))
  {
    hide Inv, InStep, HearLog, Sound, Mirrors, SenderInv;
    var m := n.(s := q, data := n.data + [q.outstanding.value.packet]);
    assert DataOk(m.data, n.r.connLocal, n.log, |n.heard|);
    assert SendingOk(m);
  }

  lemma RetrySends(s: PeerState, now: Time)
    requires SenderInv(s) && s.outstanding.Some?
    ensures var (q, out) := SenderTimers(s, now);
            || (out == [] && (q == s || q == CloseSender(s)))
            || (out == [s.outstanding.value.packet] && q.outstanding.Some? && q == s.(outstanding := q.outstanding)
                && q.outstanding.value.packet == s.outstanding.value.packet && SenderInv(q) && Sequenced(out[0]))
  {
  }

  lemma NothingNumbered(out: seq<Packet>)
    requires out == []
    ensures SequencedOf(out) == [] && CmdsOf(SequencedOf(out)) == []
  {
  }

  lemma OneNumbered(k: Packet)
    requires Sequenced(k)
    ensures SequencedOf([k]) == [k] && CmdsOf(SequencedOf([k])) == [k.cmd]
  {
    OneSequenced(k);
  }

  /** A numbered packet put on the wire, logged when it is new. */
  lemma SendingOne(n: Net, s: PeerState, k: Packet, isNew: bool)
    requires Sequenced(k)
    ensures Sending(n, s, [k], isNew)
         == n.(s := s, data := n.data + [k], log := if isNew then n.log + [k.cmd] else n.log)
  {
    OneNumbered(k);
  }

  lemma SendingNone(n: Net, s: PeerState, isNew: bool)
    ensures Sending(n, s, [], isNew) == n.(s := s)
  {
    NothingNumbered([]);
    assert n.data + [] == n.data && n.log + CmdsOf(SequencedOf([])) == n.log;
  }

  /** The outstanding packet again, or the sender giving up. */
  lemma RetryKeepsNet(n: Net, now: Time)
    requires NetInv(n) && Live(n.s) && n.s.outstanding.Some?
    ensures NetInv(NetStep(n, SendTick(now)))
  {
    var (q, out) := SenderTimers(n.s, now);
    assert SenderInv(n.s);
    RetrySends(n.s, now);
    hide NetInv, SenderTimers, SenderInv, Sending;
    if out != [] {
      SendingOne(n, q, out[0], false);
      ResendingKeepsNet(n, q);
    } else {
      SendingNone(n, q, false);
      if q != n.s { ClosingKeepsNet(n); } else { assert n.(s := q) == n; }
    }
  }

  lemma FlushSends(s: PeerState, now: Time)
    requires SenderInv(s) && s.outstanding.None? && Live(s)
    ensures var (q, out) := SenderTimers(s, now);
            || (out == [] && q == s)
            || (out == [Packet(s.connRemote, Succ(s.seqSend), RiUpd(s.pending))] && Sequenced(out[0])
                && SenderInv(q) && Live(q) && q.connRemote == s.connRemote && q.pending == [] && q.pages == s.pages == []
                && q.outstanding.Some? && q.outstanding.value.packet == out[0])
  {
  }

  /** An update brings the peer up to date with everything that was pending. */
  lemma FlushTells(n: Net, q: PeerState)
    requires NetInv(n) && Live(n.s) && n.s.pages == [] && q.pages == [] && q.pending == []
    ensures InStep(Told(Hear(HearLog(n.log), RiUpd(n.s.pending)), q), q.pending, n.t)
  {
    var v := HearLog(n.log);
    assert SendingOk(n);
    assert Told(v, n.s) == v && Told(Hear(v, RiUpd(n.s.pending)), q) == HearEvents(v, n.s.pending);
    hide InStep;
    FlushKeepsStep(v, n.s.pending, n.t);
  }

  /** Where a sender with nothing outstanding stands. */
  lemma SettledFacts(n: Net)
    requires NetInv(n) && Live(n.s) && n.s.outstanding.None?
    ensures SenderInv(n.s) && n.s.pages == [] && |n.heard| == |n.log| && All(n.acks, NumberOf(|n.log|))
    ensures n.s.connRemote == n.r.connLocal && n.s.seqSend == NumberOf(|n.log|)
  {
    hide Inv, InStep, Told, HearLog, Sound, Mirrors, DataOk;
    assert SendingOk(n);
  }

  lemma FlushKeepsNet(n: Net, now: Time)
    requires NetInv(n) && Live(n.s) && n.s.outstanding.None?
    ensures NetInv(NetStep(n, SendTick(now)))
  {
    hide NetInv, SenderTimers, SenderInv, InStep, Told, HearLog, Sending, All, Live;
    SettledFacts(n);
    FlushSends(n.s, now);
    var (q, out) := SenderTimers(n.s, now);
    if out != [] {
      FlushTells(n, q);
      SendingOne(n, q, out[0], true);
      FreshPacket(n, q, out[0].cmd);
    } else {
      SendingNone(n, q, true);
      assert n.(s := q) == n;
    }
  }

  lemma TickKeepsNet(n: Net, now: Time)
    requires NetInv(n)
    ensures NetInv(NetStep(n, SendTick(now)))
  {
    if !Live(n.s) {
      assert NetStep(n, SendTick(now)) == n;
    } else {
      hide NetInv, NetStep;
      if n.s.outstanding.Some? { RetryKeepsNet(n, now); } else { FlushKeepsNet(n, now); }
    }
  }

  lemma StrangerSends(s: PeerState, conn: U16, t: Table, now: Time)
    requires SenderInv(s) && Live(s) && conn != s.connRemote
    ensures var r := Routing(s, Packet(conn, 0, OpenReq(1, 0)), t, now);
            || (r.sent == [] && r.peer == s)
            || (s.outstanding.None? && r.sent == [Packet(s.connRemote, Succ(s.seqSend), NULL_UPDATE)] && Sequenced(r.sent[0])
                && SenderInv(r.peer) && Live(r.peer) && r.peer.connRemote == s.connRemote
                && r.peer.pending == s.pending && r.peer.pages == s.pages
                && r.peer.outstanding.Some? && r.peer.outstanding.value.packet == r.sent[0])
  {
  }

  lemma NullTellsNothing(v: View)
    ensures Hear(v, NULL_UPDATE) == v
  {
    assert HearEvents(v, NULL_UPDATE.events[..0]) == v;
  }

  lemma StrangerKeepsNet(n: Net, conn: U16, now: Time)
    requires NetInv(n) && Enabled(n, StrangerOpens(conn, now))
    ensures NetInv(NetStep(n, StrangerOpens(conn, now)))
  {
    var r := Routing(n.s, Packet(conn, 0, OpenReq(1, 0)), n.t, now);
    assert SenderInv(n.s) && SendingOk(n);
    assert n.s.outstanding.None? ==> |n.heard| == |n.log| && All(n.acks, NumberOf(|n.log|));
    StrangerSends(n.s, conn, n.t, now);
    NullTellsNothing(HearLog(n.log));
    assert Told(HearLog(n.log), r.peer) == Told(HearLog(n.log), n.s) || r.sent == [];
    hide NetInv, Routing, SenderInv, InStep, Told, HearLog, Hear, Sending, SendingOk;
    if r.sent != [] {
      SendingOne(n, r.peer, r.sent[0], true);
      FreshPacket(n, r.peer, NULL_UPDATE);
    } else {
      SendingNone(n, r.peer, true);
      assert n.(s := r.peer) == n;
    }
  }

  // ------------------------------------------------------------- acks

  lemma AckTaken(n: Net)
    requires NetInv(n) && n.acks != []
    ensures NetInv(n.(acks := n.acks[1..])) && n.acks[0].cmd.RiAck? && n.acks[0].conn == n.r.connLocal
    ensures n.acks[0].seqno == NumberOf(|n.log|) ==> All(n.acks, NumberOf(|n.log|))
  {
    hide Inv, InStep, Told, HearLog, Sound, Mirrors, SenderInv;
    var rest := n.acks[1..];
    assert forall i :: 0 <= i < |rest| ==> rest[i] == n.acks[i + 1];
  }

  lemma AckKeepsNet(n: Net, now: Time)
    requires NetInv(n) && n.acks != []
    ensures NetInv(NetStep(n, DeliverAck(now)))
  {
    AckTaken(n);
    hide NetInv, NetStep, All;
    if !Live(n.s) || n.s.outstanding.None? || n.acks[0].seqno != NumberOf(|n.log|) {
      AckIgnored(n, now);
    } else {
      AckSettles(n, now);
    }
  }

  /** An ack of anything but the outstanding packet changes nothing. */
  lemma AckIgnored(n: Net, now: Time)
    requires NetInv(n) && n.acks != []
    requires !Live(n.s) || n.s.outstanding.None? || n.acks[0].seqno != NumberOf(|n.log|)
    ensures NetStep(n, DeliverAck(now)) == n.(acks := n.acks[1..])
  {
    var r := Routing(n.s, n.acks[0], n.t, now);
    assert r.peer == n.s && r.sent == [];
    assert CmdsOf([]) == [];
  }

  /** An ack of the last packet is only on its way once the packet was heard. */
  lemma AckMeansHeard(n: Net)
    requires NetInv(n) && n.acks != [] && n.acks[0].seqno == NumberOf(|n.log|)
    ensures |n.heard| == |n.log|
  {
    hide Inv, InStep, Told, HearLog, Sound, Mirrors, SenderInv;
    Numbering(|n.log| - 1);
  }

  /** The ack of the outstanding packet settles it, or brings the next page. */
  lemma AckSettles(n: Net, now: Time)
    requires NetInv(n) && n.acks != [] && Live(n.s) && n.s.outstanding.Some?
    requires n.acks[0].seqno == NumberOf(|n.log|) && All(n.acks, NumberOf(|n.log|))
    ensures NetInv(NetStep(n, DeliverAck(now)))
  {
    AckMeansHeard(n);
    hide NetInv, NetStep, All;
    if n.s.sender == WaitRiRspAck && n.s.pages != [] {
      AckBringsPage(n, now);
    } else {
      AckIsLast(n, now);
    }
  }

  /** The zone replies an ack asks for. */
  function ZonesAsked(n: Net): seq<Packet>
    requires n.acks != [] && n.acks[0].cmd.RiAck? && n.s.outstanding.Some?
  {
    if n.acks[0].cmd.szi then Transactions(n.s.connRemote, ZiPages(n.s.outstanding.value.nets, n.t)) else []
  }

  lemma ZonesUnnumbered(n: Net)
    requires n.acks != [] && n.acks[0].cmd.RiAck? && n.s.outstanding.Some?
    ensures SequencedOf(ZonesAsked(n)) == []
  {
    TransactionsUnnumbered(n.s.connRemote, ZiPages(n.s.outstanding.value.nets, n.t));
  }

  /** What goes out on the ack of a page that is not the last. */
  lemma NextPageOut(n: Net, now: Time)
    requires NetInv(n) && n.acks != [] && n.s.outstanding.Some?
    requires n.acks[0].seqno == NumberOf(|n.log|)
    requires n.s.sender == WaitRiRspAck && n.s.pages != []
    ensures var (q, out) := GetRiAck(n.s, n.acks[0].seqno, n.acks[0].cmd.szi, n.t, now);
            && q == SendPage(n.s.(outstanding := None), now).0 && q.outstanding.Some?
            && SequencedOf(out) == [q.outstanding.value.packet]
  {
    var q, zi := n.s.(outstanding := None), ZonesAsked(n);
    var (p, page) := SendPage(q, now);
    assert GetRiAck(n.s, n.acks[0].seqno, n.acks[0].cmd.szi, n.t, now) == (p, zi + page);
    ZonesUnnumbered(n);
    SequencedConcat(zi, page);
    SendPageCounts(q, now);
    OneSequenced(page[0]);
  }

  /** What an ack of the last packet comes to, as far as it is numbered. */
  lemma AckStep(n: Net, now: Time, p: PeerState, zi: seq<Packet>)
    requires NetInv(n) && n.acks != [] && Live(n.s)
    requires var (q, out) := GetRiAck(n.s, n.acks[0].seqno, n.acks[0].cmd.szi, n.t, now);
             q == p && SequencedOf(out) == zi
    ensures NetStep(n, DeliverAck(now))
         == n.(acks := n.acks[1..], s := p, data := n.data + zi, log := n.log + CmdsOf(zi))
  {
    hide GetRiAck, SequencedOf, CmdsOf, Inv, InStep, Told, HearLog, Sound, Mirrors, SenderInv;
  }

  lemma AckBringsPage(n: Net, now: Time)
    requires NetInv(n) && n.acks != [] && n.s.outstanding.Some? && |n.heard| == |n.log|
    requires n.acks[0].seqno == NumberOf(|n.log|) && All(n.acks, NumberOf(|n.log|))
    requires n.s.sender == WaitRiRspAck && n.s.pages != []
    ensures NetInv(NetStep(n, DeliverAck(now)))
  {
    AckTaken(n);
    SettledOk(n, n.acks[1..]);
    NextPageOut(n, now);
    PageMayGo(n, now);
    hide NetInv, NetStep, GetRiAck, SequencedOf, SenderInv, InStep, HearLog, Told, SendPage;
    var p, rest := SendPage(n.s.(outstanding := None), now).0, n.acks[1..];
    var k := p.outstanding.value.packet;
    AckStep(n, now, p, [k]);
    assert CmdsOf([k]) == [k.cmd];
    FreshPacket(n.(acks := rest), p, k.cmd);
  }

  lemma PageMayGo(n: Net, now: Time)
    requires NetInv(n) && n.s.sender == WaitRiRspAck && n.s.pages != []
    ensures var p := SendPage(n.s.(outstanding := None), now).0;
            && SenderInv(p) && Live(p) && p.connRemote == n.r.connLocal && p.outstanding.Some?
            && p.outstanding.value.packet == Packet(n.r.connLocal, Succ(NumberOf(|n.log|)), p.outstanding.value.packet.cmd)
            && p.outstanding.value.packet.cmd.RiRsp?
            && InStep(Told(Hear(HearLog(n.log), p.outstanding.value.packet.cmd), p), p.pending, n.t)
  {
    var q := n.s.(outstanding := None);
    SendPageKeepsStep(HearLog(n.log), q, n.t, now);
    SendPageKeepsSenderInv(q, now);
  }

  lemma LastAckOut(n: Net, now: Time)
    requires NetInv(n) && n.acks != [] && Live(n.s) && n.s.outstanding.Some?
    requires n.acks[0].seqno == NumberOf(|n.log|)
    requires n.s.pages == [] || n.s.sender != WaitRiRspAck
    ensures var (q, out) := GetRiAck(n.s, n.acks[0].seqno, n.acks[0].cmd.szi, n.t, now);
            && q == n.s.(outstanding := None, sender := SConnected, probing := false)
            && SequencedOf(out) == []
  {
    assert GetRiAck(n.s, n.acks[0].seqno, n.acks[0].cmd.szi, n.t, now).1 == ZonesAsked(n);
    ZonesUnnumbered(n);
  }

  lemma AckIsLast(n: Net, now: Time)
    requires NetInv(n) && n.acks != [] && Live(n.s) && n.s.outstanding.Some? && |n.heard| == |n.log|
    requires n.acks[0].seqno == NumberOf(|n.log|) && All(n.acks, NumberOf(|n.log|))
    requires n.s.pages == [] || n.s.sender != WaitRiRspAck
    ensures NetInv(NetStep(n, DeliverAck(now)))
  {
    hide NetInv, NetStep, GetRiAck, SequencedOf, All, Live;
    AckTaken(n);
    LastAckOut(n, now);
    var q := n.s.(outstanding := None, sender := SConnected, probing := false);
    AckStep(n, now, q, []);
    assert n.data + [] == n.data && n.log + CmdsOf([]) == n.log;
    ConnectedAgain(n);
  }

  /** The sender with its last packet settled. */
  lemma ConnectedAgain(n: Net)
    requires NetInv(n) && n.acks != [] && Live(n.s) && n.s.outstanding.Some? && |n.heard| == |n.log|
    requires All(n.acks, NumberOf(|n.log|)) && (n.s.pages == [] || n.s.sender != WaitRiRspAck)
    ensures var q := n.s.(outstanding := None, sender := SConnected, probing := false);
            NetInv(n.(acks := n.acks[1..], s := q))
  {
    SettledOk(n, n.acks[1..]);
    hide Inv, InStep, HearLog, Sound, Mirrors, DataOk, AcksOk, All;
    var q := n.s.(outstanding := None, sender := SConnected, probing := false);
    var m := n.(acks := n.acks[1..], s := q);
    assert SendingOk(n) && Told(HearLog(n.log), q) == Told(HearLog(n.log), n.s);
    assert SendingOk(m);
  }

  lemma SettledOk(n: Net, rest: seq<Packet>)
    requires NetInv(n) && n.acks != [] && rest == n.acks[1..] && All(n.acks, NumberOf(|n.log|))
    ensures AcksOk(rest, n.r.connLocal, |n.log|, |n.heard|, true)
  {
    hide Inv, InStep, Told, HearLog, Sound, Mirrors, SenderInv;
    assert forall i :: 0 <= i < |rest| ==> rest[i] == n.acks[i + 1];
  }
}
