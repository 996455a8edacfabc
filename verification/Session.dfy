/** Reassembly of ATP responses that span several datagrams. */
module Session {
  import opened Wire

  const TXN_TIMEOUT: nat := 30 * SECOND
  const MAX_OPEN: nat := 512

  /** A response has at most this many packets. */
  const SEGMENTS: nat := 8

  datatype TxnKey = TxnKey(src: Addr, srcSocket: Byte, dst: Addr, dstSocket: Byte, tid: U16)

  /** One response packet: its sequence number, and whether it ends the message. */
  datatype Fragment = Fragment(number: Byte, userBytes: Bytes, data: Bytes, last: bool)

  datatype Partial = Partial(segments: seq<Option<Bytes>>, userBytes: Bytes, last: Option<nat>, firstSeen: Time)

  datatype Transaction = Transaction(key: TxnKey, userBytes: Bytes, data: Bytes, at: Time)

  type Open = map<TxnKey, Partial>

  function NewPartial(now: Time): Partial {
    Partial(seq(SEGMENTS, _ => None), [0, 0, 0, 0], None, now)
  }

  function Filled(p: Partial, f: Fragment): Partial
    requires f.number < |p.segments|
  {
    p.(segments := p.segments[f.number := Some(f.data)],
       userBytes := if f.number == 0 then f.userBytes else p.userBytes,
       last := if f.last then Some(f.number) else p.last)
  }

  /** The first `n` segments end to end, if all are there. */
  function Gathered(segments: seq<Option<Bytes>>, n: nat): Option<Bytes> {
    if n == 0 then Some([])
    else if n > |segments| then None
    else
      var head := Gathered(segments, n - 1);
      if head.None? || segments[n - 1].None? then None else Some(head.value + segments[n - 1].value)
  }

  /** Complete once the end has been seen and everything up to it is there. */
  function Completed(p: Partial): Option<Bytes> {
    if p.last.None? then None else Gathered(p.segments, p.last.value + 1)
  }

  ghost predicate Sized(open: Open) { forall k :: k in open ==> |open[k].segments| == SEGMENTS }

  /** Taking in one response packet, nothing expiring. */
  function Take(open: Open, at: Time, key: TxnKey, f: Fragment): (Open, Option<Transaction>)
    requires key in open ==> |open[key].segments| == SEGMENTS
  {
    if f.number >= SEGMENTS then (open, None)
    else
      var p := Filled(if key in open then open[key] else NewPartial(at), f);
      match Completed(p)
      case None => (open[key := p], None)
      case Some(data) => (open - {key}, Some(Transaction(key, p.userBytes, data, at)))
  }

  // ------------------------------------------------------------- expiry

  function Unexpired(open: Open, now: Time): Open {
    map k | k in open && Since(now, open[k].firstSeen) < TXN_TIMEOUT :: open[k]
  }

  /** At the cap, the oldest go until one slot is free; ties in any order. */
  ghost predicate Evicted(before: Open, after: Open) {
    && (forall k :: k in after ==> k in before && after[k] == before[k])
    && (|before| < MAX_OPEN ==> after == before)
    && (|before| >= MAX_OPEN ==> |after| == MAX_OPEN - 1)
    && (forall k, d :: k in after && d in before && d !in after ==> before[d].firstSeen <= before[k].firstSeen)
  }

  /** Everything open is under thirty seconds old, and a slot is free. */
  ghost predicate NothingExpires(open: Open, now: Time) {
    |open| < MAX_OPEN && forall k :: k in open ==> Since(now, open[k].firstSeen) < TXN_TIMEOUT
  }

  class Transactions {
    var open: Open

    constructor ()
      ensures open == map[]
    {
      open := map[];
    }

    method Oldest() returns (oldest: TxnKey)
      requires open != map[]
      ensures oldest in open && forall k :: k in open ==> open[oldest].firstSeen <= open[k].firstSeen
    {
      var todo := open.Keys;
      oldest :| oldest in todo;
      todo := todo - {oldest};
      while todo != {}
        invariant oldest in open && todo <= open.Keys
        invariant forall k :: k in open && k !in todo ==> open[oldest].firstSeen <= open[k].firstSeen
        decreases todo
      {
        var k :| k in todo;
        todo := todo - {k};
        if open[k].firstSeen < open[oldest].firstSeen { oldest := k; }
      }
    }

    method Expire(now: Time)
      modifies this
      ensures Evicted(Unexpired(old(open), now), open)
    {
      open := Unexpired(open, now);
      ghost var before := open;
      if |open| >= MAX_OPEN {
        while |open| > MAX_OPEN - 1
          invariant |open| >= MAX_OPEN - 1
          invariant forall k :: k in open ==> k in before && open[k] == before[k]
          invariant forall k, d :: k in open && d in before && d !in open ==> before[d].firstSeen <= before[k].firstSeen
          decreases |open|
        {
          var oldest := Oldest();
          ghost var was := open;
          open := open - {oldest};
          assert open.Keys == was.Keys - {oldest};
          assert |open.Keys| == |was.Keys| - 1;
        }
      }
    }

    /** Takes a packet in, with nothing left to expire. */
    method Accept(at: Time, key: TxnKey, f: Fragment) returns (done: Option<Transaction>)
      requires Sized(open)
      modifies this
      ensures (open, done) == Take(old(open), at, key, f)
    {
      if f.number >= SEGMENTS { return None; }
      var p := if key in open then open[key] else NewPartial(at);
      p := p.(segments := p.segments[f.number := Some(f.data)]);
      if f.number == 0 { p := p.(userBytes := f.userBytes); }
      if f.last { p := p.(last := Some(f.number)); }
      assert p == Filled(if key in old(open) then old(open)[key] else NewPartial(at), f);
      var data := Completed(p);
      if data.None? {
        open := open[key := p];
        return None;
      }
      open := open - {key};
      return Some(Transaction(key, p.userBytes, data.value, at));
    }

    /** One response packet; a transaction comes back on the one that completes it. */
    method Push(at: Time, key: TxnKey, f: Fragment) returns (done: Option<Transaction>, ghost kept: Open)
      requires Sized(open)
      modifies this
      ensures Evicted(Unexpired(old(open), at), kept) && Sized(kept)
      ensures (open, done) == Take(kept, at, key, f)
      ensures Sized(open) && (old(|open|) <= MAX_OPEN ==> |open| <= MAX_OPEN)
      ensures NothingExpires(old(open), at) ==> (open, done) == Take(old(open), at, key, f)
    {
      Expire(at);
      kept := open;
      if NothingExpires(old(open), at) { NothingIsDropped(old(open), at, kept); }
      done := Accept(at, key, f);
      TakeGrowsByOne(kept, at, key, f);
      if old(|open|) <= MAX_OPEN { EvictedIsSmall(old(open), at, kept); }
    }
  }

  /** Then expiry drops nothing, and taking a packet in is all that happens. */
  lemma NothingIsDropped(open: Open, now: Time, kept: Open)
    requires NothingExpires(open, now) && Evicted(Unexpired(open, now), kept)
    ensures kept == open
  {
    assert Unexpired(open, now) == open;
  }

  lemma OneKeyMore(open: Open, key: TxnKey, p: Partial)
    ensures |open[key := p]| <= |open| + 1 && |open - {key}| <= |open|
  {
    var more, fewer := open[key := p], open - {key};
    assert more.Keys == open.Keys + {key};
    assert |more.Keys| <= |open.Keys| + 1;
    FewerKeys(fewer.Keys, open.Keys);
    assert |more| == |more.Keys| && |fewer| == |fewer.Keys| && |open| == |open.Keys|;
  }

  lemma TakeGrowsByOne(open: Open, at: Time, key: TxnKey, f: Fragment)
    requires Sized(open)
    ensures Sized(Take(open, at, key, f).0) && |Take(open, at, key, f).0| <= |open| + 1
  {
    hide Completed;
    if f.number < SEGMENTS {
      OneKeyMore(open, key, Filled(if key in open then open[key] else NewPartial(at), f));
    }
  }

  lemma FewerKeys(a: set<TxnKey>, b: set<TxnKey>)
    requires a <= b
    ensures |a| <= |b|
  {
    assert b == a + (b - a);
  }

  lemma EvictedIsSmall(open: Open, now: Time, kept: Open)
    requires Evicted(Unexpired(open, now), kept) && |open| <= MAX_OPEN
    ensures |kept| < MAX_OPEN
  {
    var u := Unexpired(open, now);
    FewerKeys(u.Keys, open.Keys);
    assert |u| == |u.Keys| && |open| == |open.Keys|;
  }

  // ------------------------------------------------------------- reassembly

  datatype Arrival = Arrival(at: Time, key: TxnKey, fragment: Fragment)

  /** Packets taken in one after another, nothing expiring: what is open at the
      end, and what the last packet completed. */
  function TakeAll(open: Open, arrivals: seq<Arrival>): (r: (Open, Option<Transaction>))
    requires Sized(open)
    ensures Sized(r.0)
  {
    if arrivals == [] then (open, None)
    else
      var n := |arrivals| - 1;
      var (o, a) := (TakeAll(open, arrivals[..n]).0, arrivals[n]);
      Take(o, a.at, a.key, a.fragment)
  }

  /** A packet of the message whose fragments are `message`. */
  ghost predicate Belongs(f: Fragment, message: seq<Bytes>, user: Bytes) {
    && f.number < |message| && f.data == message[f.number]
    && (f.last <==> f.number == |message| - 1)
    && (f.number == 0 ==> f.userBytes == user)
  }

  /** The sequence numbers seen for one transaction. */
  function Numbers(arrivals: seq<Arrival>, key: TxnKey): set<nat> {
    if arrivals == [] then {}
    else
      var n := |arrivals| - 1;
      Numbers(arrivals[..n], key) + if arrivals[n].key == key then {arrivals[n].fragment.number as nat} else {}
  }

  ghost predicate Whole(seen: set<nat>, message: seq<Bytes>) {
    forall i :: 0 <= i < |message| ==> i in seen
  }

  function Message(message: seq<Bytes>): Bytes {
    if message == [] then [] else Message(message[..|message| - 1]) + message[|message| - 1]
  }

  /** A partial that holds exactly the fragments seen. */
  ghost predicate Holds(p: Partial, message: seq<Bytes>, user: Bytes, seen: set<nat>)
    requires 0 < |message| <= SEGMENTS
  {
    && |p.segments| == SEGMENTS
    && (forall i :: 0 <= i < |message| ==> p.segments[i] == if i in seen then Some(message[i]) else None)
    && p.last == (if |message| - 1 in seen then Some(|message| - 1) else None)
    && (0 in seen ==> p.userBytes == user)
  }

  lemma {:induction false} GatheredAll(p: Partial, message: seq<Bytes>, user: Bytes, seen: set<nat>, n: nat)
    requires 0 < |message| <= SEGMENTS && Holds(p, message, user, seen) && n <= |message|
    ensures Gathered(p.segments, n) ==
            if forall i :: 0 <= i < n ==> i in seen then Some(Message(message[..n])) else None
  {
    if n > 0 {
      GatheredAll(p, message, user, seen, n - 1);
      assert message[..n][..n - 1] == message[..n - 1];
    }
  }

  /** Complete exactly when nothing is missing, and then it is the message. */
  lemma CompleteWhenWhole(p: Partial, message: seq<Bytes>, user: Bytes, seen: set<nat>)
    requires 0 < |message| <= SEGMENTS && Holds(p, message, user, seen)
    ensures Completed(p) == if Whole(seen, message) then Some(Message(message)) else None
  {
    GatheredAll(p, message, user, seen, |message|);
    assert message[..|message|] == message;
  }

  lemma FillHolds(p: Partial, f: Fragment, message: seq<Bytes>, user: Bytes, seen: set<nat>)
    requires 0 < |message| <= SEGMENTS && Holds(p, message, user, seen) && Belongs(f, message, user)
    ensures Holds(Filled(p, f), message, user, seen + {f.number as nat})
  {
  }

  /** One packet: the transaction it belongs to moves on, every other stands still. */
  lemma TakeHolds(o: Open, a: Arrival, key: TxnKey, message: seq<Bytes>, user: Bytes, seen: set<nat>)
    requires Sized(o) && 0 < |message| <= SEGMENTS
    requires if key in o then Holds(o[key], message, user, seen) else seen == {}
    requires a.key == key ==> Belongs(a.fragment, message, user)
    ensures var (u, done) := Take(o, a.at, a.key, a.fragment);
            if a.key != key then Get(u, key) == Get(o, key)
            else
              var now := seen + {a.fragment.number as nat};
              if Whole(now, message) then
                key !in u && done == Some(Transaction(key, user, Message(message), a.at))
              else key in u && Holds(u[key], message, user, now) && done == None
  {
    if a.key == key {
      var p := if key in o then o[key] else NewPartial(a.at);
      assert Holds(p, message, user, seen);
      FillHolds(p, a.fragment, message, user, seen);
      CompleteWhenWhole(Filled(p, a.fragment), message, user, seen + {a.fragment.number as nat});
    }
  }

  /** Only packets of the message arrive under its key. */
  ghost predicate Consistent(arrivals: seq<Arrival>, key: TxnKey, message: seq<Bytes>, user: Bytes) {
    forall i :: 0 <= i < |arrivals| && arrivals[i].key == key ==> Belongs(arrivals[i].fragment, message, user)
  }

  /** The packets before the last do not yet make up the message. */
  ghost predicate Unfinished(arrivals: seq<Arrival>, key: TxnKey, message: seq<Bytes>) {
    !Whole(Numbers(arrivals, key), message)
  }

  lemma {:induction false} UnfinishedBefore(arrivals: seq<Arrival>, key: TxnKey, message: seq<Bytes>)
    requires arrivals != [] && Unfinished(arrivals, key, message)
    ensures Unfinished(arrivals[..|arrivals| - 1], key, message)
  {
  }

  lemma {:induction false} SeenSoFar(open: Open, arrivals: seq<Arrival>, key: TxnKey, message: seq<Bytes>, user: Bytes)
    requires Sized(open) && key !in open && 0 < |message| <= SEGMENTS
    requires Consistent(arrivals, key, message, user) && Unfinished(arrivals, key, message)
    ensures var o := TakeAll(open, arrivals).0;
            var seen := Numbers(arrivals, key);
            if key in o then Holds(o[key], message, user, seen) else seen == {}
  {
    if arrivals != [] {
      var n := |arrivals| - 1;
      UnfinishedBefore(arrivals, key, message);
      SeenSoFar(open, arrivals[..n], key, message, user);
      TakeHolds(TakeAll(open, arrivals[..n]).0, arrivals[n], key, message, user, Numbers(arrivals[..n], key));
    }
  }

  /** Whatever the order, whatever is repeated and whatever else is interleaved, a
      packet of the message brings the message back exactly when it is the last
      one missing: the fragments in sequence order, with packet 0's user bytes. */
  lemma ReassemblyIsOrderFree(open: Open, arrivals: seq<Arrival>, key: TxnKey, message: seq<Bytes>, user: Bytes)
    requires Sized(open) && key !in open && 0 < |message| <= SEGMENTS
    requires arrivals != [] && arrivals[|arrivals| - 1].key == key
    requires Consistent(arrivals, key, message, user) && Unfinished(arrivals[..|arrivals| - 1], key, message)
    ensures var (o, done) := TakeAll(open, arrivals);
            if Whole(Numbers(arrivals, key), message) then
              key !in o && done == Some(Transaction(key, user, Message(message), arrivals[|arrivals| - 1].at))
            else done == None
  {
    var n := |arrivals| - 1;
    SeenSoFar(open, arrivals[..n], key, message, user);
    TakeHolds(TakeAll(open, arrivals[..n]).0, arrivals[n], key, message, user, Numbers(arrivals[..n], key));
  }

  // ------------------------------------------------------------- reassembly while others expire

  /** What one call of Push may do. */
  ghost predicate Pushed(open: Open, a: Arrival, after: Open, done: Option<Transaction>) {
    exists kept: Open ::
      Evicted(Unexpired(open, a.at), kept) && Sized(kept) && (after, done) == Take(kept, a.at, a.key, a.fragment)
  }

  ghost predicate PushedAt(os: seq<Open>, dones: seq<Option<Transaction>>, arrivals: seq<Arrival>, i: nat)
    requires i < |arrivals| && i < |dones| && i + 1 < |os|
  {
    Pushed(os[i], arrivals[i], os[i + 1], dones[i])
  }

  ghost predicate PushRun(os: seq<Open>, dones: seq<Option<Transaction>>, arrivals: seq<Arrival>) {
    && |os| == |arrivals| + 1 && |dones| == |arrivals|
    && forall i :: 0 <= i < |arrivals| ==> PushedAt(os, dones, arrivals, i)
  }

  /** Every packet finds the transaction of `key`, if it is open, under thirty seconds
      old, and fewer than 512 such transactions in all. */
  ghost predicate InTime(os: seq<Open>, arrivals: seq<Arrival>, key: TxnKey)
    requires |os| == |arrivals| + 1
  {
    forall i :: 0 <= i < |arrivals| ==>
      && (key in os[i] ==> Since(arrivals[i].at, os[i][key].firstSeen) < TXN_TIMEOUT)
      && |Unexpired(os[i], arrivals[i].at)| < MAX_OPEN
  }

  /** A transaction not completed within thirty seconds is forgotten: no packet but its own
      brings it back, and its own begins it afresh, from that packet alone. */
  lemma StaleIsForgotten(open: Open, a: Arrival, after: Open, done: Option<Transaction>, k: TxnKey)
    requires Pushed(open, a, after, done) && k in open && a.at >= open[k].firstSeen + 30_000
    ensures a.key != k ==> k !in after
    ensures a.key == k && k in after ==>
              && after[k].firstSeen == a.at && |after[k].segments| == 8
              && forall i :: 0 <= i < 8 && i != a.fragment.number ==> after[k].segments[i] == None
  {
    hide Completed;
    var kept :| Evicted(Unexpired(open, a.at), kept) && Sized(kept) && (after, done) == Take(kept, a.at, a.key, a.fragment);
    assert k !in Unexpired(open, a.at);
    assert k !in kept;
  }

  /** Expiry leaves a young transaction alone. */
  lemma PushIsTake(open: Open, a: Arrival, after: Open, done: Option<Transaction>, key: TxnKey) returns (kept: Open)
    requires Pushed(open, a, after, done)
    requires key in open ==> Since(a.at, open[key].firstSeen) < TXN_TIMEOUT
    requires |Unexpired(open, a.at)| < MAX_OPEN
    ensures Sized(kept) && Get(kept, key) == Get(open, key) && (after, done) == Take(kept, a.at, a.key, a.fragment)
  {
    hide Take;
    kept :| Evicted(Unexpired(open, a.at), kept) && Sized(kept) && (after, done) == Take(kept, a.at, a.key, a.fragment);
    assert kept == Unexpired(open, a.at);
  }

  lemma {:induction false} SeenInRun(os: seq<Open>, dones: seq<Option<Transaction>>, arrivals: seq<Arrival>, i: nat,
                                     key: TxnKey, message: seq<Bytes>, user: Bytes)
    requires PushRun(os, dones, arrivals) && InTime(os, arrivals, key) && i <= |arrivals|
    requires key !in os[0] && 0 < |message| <= SEGMENTS
    requires Consistent(arrivals, key, message, user) && Unfinished(arrivals[..i], key, message)
    ensures var seen := Numbers(arrivals[..i], key);
            if key in os[i] then Holds(os[i][key], message, user, seen) else seen == {}
  {
    hide Whole, Holds, Take, Pushed, Belongs;
    if i > 0 {
      var n := i - 1;
      assert arrivals[..i][..n] == arrivals[..n];
      UnfinishedBefore(arrivals[..i], key, message);
      SeenInRun(os, dones, arrivals, n, key, message, user);
      assert PushedAt(os, dones, arrivals, n);
      var kept := PushIsTake(os[n], arrivals[n], os[i], dones[n], key);
      TakeHolds(kept, arrivals[n], key, message, user, Numbers(arrivals[..n], key));
    }
  }

  /** Reassembly as it runs: other transactions may come, go and expire meanwhile. While
      packets keep finding the message's own transaction in time, one of them brings the
      message back exactly when it is the last one missing. */
  lemma ReassemblyInTime(os: seq<Open>, dones: seq<Option<Transaction>>, arrivals: seq<Arrival>, i: nat,
                         key: TxnKey, message: seq<Bytes>, user: Bytes)
    requires PushRun(os, dones, arrivals) && InTime(os, arrivals, key) && i < |arrivals|
    requires key !in os[0] && 0 < |message| <= SEGMENTS && arrivals[i].key == key
    requires Consistent(arrivals, key, message, user) && Unfinished(arrivals[..i], key, message)
    ensures if Whole(Numbers(arrivals[..i + 1], key), message) then
              key !in os[i + 1] && dones[i] == Some(Transaction(key, user, Message(message), arrivals[i].at))
            else dones[i] == None
  {
    hide Whole, Holds, Take, Pushed, Belongs;
    assert arrivals[..i + 1][..i] == arrivals[..i];
    SeenInRun(os, dones, arrivals, i, key, message, user);
    assert PushedAt(os, dones, arrivals, i);
    var kept := PushIsTake(os[i], arrivals[i], os[i + 1], dones[i], key);
    TakeHolds(kept, arrivals[i], key, message, user, Numbers(arrivals[..i], key));
  }
}
