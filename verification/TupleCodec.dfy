/** Network tuples, update events and open options as bytes, and RTMP Data packets
    made of them: what comes back from the wire, and that what the tables put on it
    comes back as it went. */
module TupleCodec {
  import opened Wire
  import opened Table
  import opened TableTheorems
  import opened Paging
  import opened Aurp

  /** The byte after an extended tuple: a version marker in RTMP, nothing in AURP. */
  const RTMP_TRAILER: Byte := 0x82
  const AURP_TRAILER: Byte := 0x00

  // ------------------------------------------------------------- network tuples

  /** Three bytes, or six with bit 7 of the third set. */
  function EncodeTuple(t: NetworkTuple, trailer: Byte): Bytes {
    BigEndian(t.range.lo) +
    if t.extended then [t.distance % 0x80 + 0x80] + BigEndian(t.range.hi) + [trailer] else [t.distance % 0x80]
  }

  /** The tuple at the front of `p`, and how many bytes it takes. */
  function ParseTuple(p: Bytes): (r: Option<(NetworkTuple, nat)>)
    ensures r.Some? ==> 3 <= r.value.1 <= |p|
  {
    if |p| < 3 then None
    else
      var lo := FromBigEndian(p[0], p[1]);
      if p[2] < 0x80 then Some((NetworkTuple(Range(lo, lo), false, p[2]), 3))
      else if |p| < 6 then None
      else Some((NetworkTuple(Range(lo, FromBigEndian(p[3], p[4])), true, p[2] - 0x80), 6))
  }

  function EncodeTuples(ts: seq<NetworkTuple>, trailer: Byte): Bytes {
    if ts == [] then [] else EncodeTuple(ts[0], trailer) + EncodeTuples(ts[1..], trailer)
  }

  function ParseTuples(p: Bytes): Option<seq<NetworkTuple>>
    decreases |p|
  {
    if p == [] then Some([])
    else
      match ParseTuple(p)
      case None => None
      case Some((t, n)) =>
        match ParseTuples(p[n..])
        case None => None
        case Some(ts) => Some([t] + ts)
  }

  method EncodeTuplesLoop(prefix: Bytes, ts: seq<NetworkTuple>, trailer: Byte) returns (out: Bytes)
    ensures out == prefix + EncodeTuples(ts, trailer)
  {
    out := prefix;
    for i := 0 to |ts|
      invariant out == prefix + EncodeTuples(ts[..i], trailer)
    {
      EncodeTuplesSnoc(ts, i, trailer);
      assert prefix + (EncodeTuples(ts[..i], trailer) + EncodeTuple(ts[i], trailer))
          == prefix + EncodeTuples(ts[..i], trailer) + EncodeTuple(ts[i], trailer);
      out := out + EncodeTuple(ts[i], trailer);
    }
    assert ts[..|ts|] == ts;
  }

  lemma {:induction false} EncodeTuplesSnoc(ts: seq<NetworkTuple>, i: nat, trailer: Byte)
    requires i < |ts|
    ensures EncodeTuples(ts[..i + 1], trailer) == EncodeTuples(ts[..i], trailer) + EncodeTuple(ts[i], trailer)
    decreases i
  {
    hide EncodeTuple;
    var more, first := ts[..i + 1], ts[..i];
    if i == 0 {
      assert EncodeTuples(more[1..], trailer) == [];
    } else {
      EncodeTuplesSnoc(ts[1..], i - 1, trailer);
      assert ts[1..][..i] == more[1..] && ts[1..][..i - 1] == first[1..];
    }
  }

  method ParseTuplesLoop(p: Bytes) returns (r: Option<seq<NetworkTuple>>)
    ensures r == ParseTuples(p)
  {
    var rest, ts := p, [];
    assert forall more: seq<NetworkTuple> :: [] + more == more;
    while rest != []
      invariant ParseTuples(p) == (match ParseTuples(rest) case None => None case Some(more) => Some(ts + more))
      decreases |rest|
    {
      match ParseTuple(rest)
      case None => return None;
      case Some((t, n)) =>
        ghost var more := ParseTuples(rest[n..]);
        assert more.Some? ==> ts + ([t] + more.value) == ts + [t] + more.value;
        ts := ts + [t];
        rest := rest[n..];
    }
    assert ts + [] == ts;
    return Some(ts);
  }

  /** A tuple the wire can carry: seven bits of distance, and one network where only
      one is written. */
  predicate Carriable(t: NetworkTuple) { t.distance < 0x80 && (t.extended || t.range.lo == t.range.hi) }

  /** What a tuple reads back as. */
  function Carried(t: NetworkTuple): NetworkTuple {
    NetworkTuple(if t.extended then t.range else Range(t.range.lo, t.range.lo), t.extended, t.distance % 0x80)
  }

  function CarriedAll(ts: seq<NetworkTuple>): seq<NetworkTuple> {
    seq(|ts|, i requires 0 <= i < |ts| => Carried(ts[i]))
  }

  lemma BytesBack(n: U16)
    ensures FromBigEndian(BigEndian(n)[0], BigEndian(n)[1]) == n
  {
  }

  lemma TupleReadsBack(t: NetworkTuple, trailer: Byte, rest: Bytes)
    ensures ParseTuple(EncodeTuple(t, trailer) + rest) == Some((Carried(t), |EncodeTuple(t, trailer)|))
  {
    var p := EncodeTuple(t, trailer) + rest;
    BytesBack(t.range.lo);
    BytesBack(t.range.hi);
    assert p[0] == BigEndian(t.range.lo)[0] && p[1] == BigEndian(t.range.lo)[1];
    if t.extended {
      assert p[2] == t.distance % 0x80 + 0x80;
      assert p[3] == BigEndian(t.range.hi)[0] && p[4] == BigEndian(t.range.hi)[1];
    } else {
      assert p[2] == t.distance % 0x80;
    }
  }

  lemma {:induction false} TuplesReadBack(ts: seq<NetworkTuple>, trailer: Byte)
    ensures ParseTuples(EncodeTuples(ts, trailer)) == Some(CarriedAll(ts))
  {
    if ts == [] {
      assert CarriedAll(ts) == [];
    } else {
      var head, rest := EncodeTuple(ts[0], trailer), EncodeTuples(ts[1..], trailer);
      TuplesReadBack(ts[1..], trailer);
      TupleReadsBack(ts[0], trailer, rest);
      hide EncodeTuple, ParseTuple;
      assert (head + rest)[|head|..] == rest;
      assert CarriedAll(ts) == [Carried(ts[0])] + CarriedAll(ts[1..]);
    }
  }

  ghost predicate AllCarriable(ts: seq<NetworkTuple>) { forall i :: 0 <= i < |ts| ==> Carriable(ts[i]) }

  lemma CarriedIsSame(t: NetworkTuple)
    ensures Carried(t) == t <==> Carriable(t)
  {
  }

  /** A list of tuples comes back as it went exactly when every tuple fits the wire. */
  lemma TuplesRoundTrip(ts: seq<NetworkTuple>, trailer: Byte)
    ensures ParseTuples(EncodeTuples(ts, trailer)) == Some(ts) <==> AllCarriable(ts)
  {
    TuplesReadBack(ts, trailer);
    hide EncodeTuples, ParseTuples, Carried, Carriable;
    forall i | 0 <= i < |ts| ensures CarriedAll(ts)[i] == ts[i] <==> Carriable(ts[i]) { CarriedIsSame(ts[i]); }
    if CarriedAll(ts) == ts {
      forall i | 0 <= i < |ts| ensures Carriable(ts[i]) { assert CarriedAll(ts)[i] == ts[i]; }
    }
  }

  /** Whatever is read off the wire could be put back on it. */
  lemma {:induction false} ParsedIsCarriable(p: Bytes)
    ensures ParseTuples(p).Some? ==> AllCarriable(ParseTuples(p).value)
    decreases |p|
  {
    if p != [] && ParseTuple(p).Some? {
      ParsedIsCarriable(p[ParseTuple(p).value.1..]);
    }
  }

  // ------------------------------------------------------------- update events

  function CodeByte(c: Code): Byte {
    match c case Null => 0 case NA => 1 case ND => 2 case NRC => 3 case NDC => 4 case ZC => 5
  }

  function CodeOf(b: Byte): Option<Code> {
    if b == 0 then Some(Null)
    else if b == 1 then Some(NA)
    else if b == 2 then Some(ND)
    else if b == 3 then Some(NRC)
    else if b == 4 then Some(NDC)
    else if b == 5 then Some(ZC)
    else None
  }

  const NO_TUPLE := NetworkTuple(Range(0, 0), false, 0)

  /** A code and a tuple without a trailer, or the null code alone. */
  function EncodeEvent(e: Event): Bytes {
    if e.code == Null then [0]
    else
      [CodeByte(e.code)] + BigEndian(e.tuple.range.lo) +
      if e.tuple.extended then [e.tuple.distance % 0x80 + 0x80] + BigEndian(e.tuple.range.hi)
      else [e.tuple.distance % 0x80]
  }

  function ParseEvent(p: Bytes): (r: Option<(Event, nat)>)
    ensures r.Some? ==> 0 < r.value.1 <= |p|
  {
    if p == [] then None
    else
      match CodeOf(p[0])
      case None => None
      case Some(code) =>
        if code == Null then Some((Event(Null, NO_TUPLE), 1))
        else if |p| < 4 then None
        else
          var lo := FromBigEndian(p[1], p[2]);
          if p[3] < 0x80 then Some((Event(code, NetworkTuple(Range(lo, lo), false, p[3])), 4))
          else if |p| < 6 then None
          else Some((Event(code, NetworkTuple(Range(lo, FromBigEndian(p[4], p[5])), true, p[3] - 0x80)), 6))
  }

  function EncodeEvents(es: seq<Event>): Bytes {
    if es == [] then [] else EncodeEvent(es[0]) + EncodeEvents(es[1..])
  }

  function ParseEvents(p: Bytes): Option<seq<Event>>
    decreases |p|
  {
    if p == [] then Some([])
    else
      match ParseEvent(p)
      case None => None
      case Some((e, n)) =>
        match ParseEvents(p[n..])
        case None => None
        case Some(es) => Some([e] + es)
  }

  method ParseEventsLoop(p: Bytes) returns (r: Option<seq<Event>>)
    ensures r == ParseEvents(p)
  {
    var rest, es := p, [];
    assert forall more: seq<Event> :: [] + more == more;
    while rest != []
      invariant ParseEvents(p) == (match ParseEvents(rest) case None => None case Some(more) => Some(es + more))
      decreases |rest|
    {
      match ParseEvent(rest)
      case None => return None;
      case Some((e, n)) =>
        ghost var more := ParseEvents(rest[n..]);
        assert more.Some? ==> es + ([e] + more.value) == es + [e] + more.value;
        es := es + [e];
        rest := rest[n..];
    }
    assert es + [] == es;
    return Some(es);
  }

  predicate EventCarriable(e: Event) { if e.code == Null then e.tuple == NO_TUPLE else Carriable(e.tuple) }

  ghost predicate EventsCarriable(es: seq<Event>) { forall i :: 0 <= i < |es| ==> EventCarriable(es[i]) }

  function CarriedEvent(e: Event): Event {
    if e.code == Null then Event(Null, NO_TUPLE) else Event(e.code, Carried(e.tuple))
  }

  function CarriedEvents(es: seq<Event>): seq<Event> {
    seq(|es|, i requires 0 <= i < |es| => CarriedEvent(es[i]))
  }

  lemma CodeReadsBack(c: Code)
    ensures CodeOf(CodeByte(c)) == Some(c)
  {
  }

  lemma EventReadsBack(e: Event, rest: Bytes)
    ensures ParseEvent(EncodeEvent(e) + rest) == Some((CarriedEvent(e), |EncodeEvent(e)|))
  {
    var p, t := EncodeEvent(e) + rest, e.tuple;
    CodeReadsBack(e.code);
    BytesBack(t.range.lo);
    BytesBack(t.range.hi);
    assert p[0] == CodeByte(e.code);
    if e.code != Null {
      assert p[1] == BigEndian(t.range.lo)[0] && p[2] == BigEndian(t.range.lo)[1];
      if t.extended {
        assert p[3] == t.distance % 0x80 + 0x80;
        assert p[4] == BigEndian(t.range.hi)[0] && p[5] == BigEndian(t.range.hi)[1];
      } else {
        assert p[3] == t.distance % 0x80;
      }
    }
  }

  lemma {:induction false} EventsReadBack(es: seq<Event>)
    ensures ParseEvents(EncodeEvents(es)) == Some(CarriedEvents(es))
  {
    if es == [] {
      assert CarriedEvents(es) == [];
    } else {
      var head, rest := EncodeEvent(es[0]), EncodeEvents(es[1..]);
      EventsReadBack(es[1..]);
      EventReadsBack(es[0], rest);
      hide EncodeEvent, ParseEvent;
      assert (head + rest)[|head|..] == rest;
      assert CarriedEvents(es) == [CarriedEvent(es[0])] + CarriedEvents(es[1..]);
    }
  }

  lemma CarriedEventIsSame(e: Event)
    ensures CarriedEvent(e) == e <==> EventCarriable(e)
  {
  }

  /** An update comes back as it went exactly when every event fits the wire. */
  lemma EventsRoundTrip(es: seq<Event>)
    ensures ParseEvents(EncodeEvents(es)) == Some(es) <==> EventsCarriable(es)
  {
    EventsReadBack(es);
    hide EncodeEvents, ParseEvents, CarriedEvent, EventCarriable;
    forall i | 0 <= i < |es| ensures CarriedEvents(es)[i] == es[i] <==> EventCarriable(es[i]) { CarriedEventIsSame(es[i]); }
    if CarriedEvents(es) == es {
      forall i | 0 <= i < |es| ensures EventCarriable(es[i]) { assert CarriedEvents(es)[i] == es[i]; }
    }
  }

  // ------------------------------------------------------------- options

  /** A type byte and its data. */
  type OpenOption = (Byte, Bytes)

  function EncodeOption(o: OpenOption): Bytes { [(1 + |o.1|) % 0x100, o.0] + o.1 }

  function EncodeOptionList(os: seq<OpenOption>): Bytes {
    if os == [] then [] else EncodeOption(os[0]) + EncodeOptionList(os[1..])
  }

  /** A count, then each option behind the length of its type and data. */
  function EncodeOptions(os: seq<OpenOption>): Bytes { [|os| % 0x100] + EncodeOptionList(os) }

  function ParseOption(p: Bytes): (r: Option<(OpenOption, nat)>)
    ensures r.Some? ==> |r.value.0.1| <= 254 && r.value.1 == 2 + |r.value.0.1| <= |p|
  {
    if p == [] then None
    else
      var len: nat := p[0];
      if len == 0 || |p| < 1 + len then None else Some(((p[1], p[2..1 + len]), 1 + len))
  }

  function ParseOptionList(p: Bytes, count: nat): (r: Option<seq<OpenOption>>)
    ensures r.Some? ==> |r.value| == count
    decreases count
  {
    if count == 0 then if p == [] then Some([]) else None
    else
      match ParseOption(p)
      case None => None
      case Some((o, n)) =>
        match ParseOptionList(p[n..], count - 1)
        case None => None
        case Some(os) => Some([o] + os)
  }

  function ParseOptions(p: Bytes): Option<seq<OpenOption>> {
    if p == [] then None else ParseOptionList(p[1..], p[0])
  }

  ghost predicate ShortOptions(os: seq<OpenOption>) { forall i :: 0 <= i < |os| ==> |os[i].1| <= 254 }

  lemma {:induction false} ParsedOptionsAreShort(p: Bytes, count: nat)
    ensures ParseOptionList(p, count).Some? ==> ShortOptions(ParseOptionList(p, count).value)
    decreases count
  {
    if count > 0 && ParseOption(p).Some? { ParsedOptionsAreShort(p[ParseOption(p).value.1..], count - 1); }
  }

  lemma OptionReadsBack(o: OpenOption, rest: Bytes)
    requires |o.1| <= 254
    ensures ParseOption(EncodeOption(o) + rest) == Some((o, |EncodeOption(o)|))
  {
    var p := EncodeOption(o) + rest;
    assert p[0] == 1 + |o.1| && p[1] == o.0;
    assert p[2..2 + |o.1|] == o.1;
  }

  lemma {:induction false} OptionsReadBack(os: seq<OpenOption>)
    requires ShortOptions(os)
    ensures ParseOptionList(EncodeOptionList(os), |os|) == Some(os)
  {
    if os != [] {
      var head, rest := EncodeOption(os[0]), EncodeOptionList(os[1..]);
      assert EncodeOptionList(os) == head + rest;
      OptionsReadBack(os[1..]);
      OptionReadsBack(os[0], rest);
      hide EncodeOption, ParseOption, EncodeOptionList;
      NextOption(head + rest, os[0], |head|, os[1..]) by { assert (head + rest)[|head|..] == rest; }
      assert os == [os[0]] + os[1..];
    }
  }

  lemma NextOption(p: Bytes, o: OpenOption, used: nat, rest: seq<OpenOption>)
    requires used <= |p| && ParseOption(p) == Some((o, used)) && ParseOptionList(p[used..], |rest|) == Some(rest)
    ensures ParseOptionList(p, |rest| + 1) == Some([o] + rest)
  {
    hide ParseOption;
  }

  /** Options come back exactly when there are at most 255 and none holds more than
      254 bytes; past that a count wraps. */
  lemma OptionsRoundTrip(os: seq<OpenOption>)
    ensures ParseOptions(EncodeOptions(os)) == Some(os) <==> |os| <= 255 && ShortOptions(os)
  {
    hide EncodeOptionList, ParseOptionList, ShortOptions;
    assert EncodeOptions(os)[1..] == EncodeOptionList(os);
    ParsedOptionsAreShort(EncodeOptionList(os), |os| % 0x100);
    if |os| <= 255 {
      assert |os| % 0x100 == |os|;
      if ShortOptions(os) { OptionsReadBack(os); }
    }
  }

  // ------------------------------------------------------------- RTMP Data

  /** The sender, its range when its network is extended, and its tuples. */
  datatype RtmpData = RtmpData(sender: Addr, range: Option<Range>, tuples: seq<NetworkTuple>)

  const VERSION_MARKER: Bytes := [0x00, 0x00, 0x82]

  /** What stands first: the sender's range as a tuple, or the version marker. */
  function First(range: Option<Range>): Bytes {
    match range
    case Some(r) => EncodeTuple(NetworkTuple(r, true, 0), RTMP_TRAILER)
    case None => VERSION_MARKER
  }

  function EncodeRtmp(d: RtmpData): Bytes {
    BigEndian(d.sender.net) + [8, d.sender.node] + First(d.range) + EncodeTuples(d.tuples, RTMP_TRAILER)
  }

  function ParseRtmp(p: Bytes): Option<RtmpData> {
    if |p| < 4 || p[2] != 8 then None
    else
      var sender, rest := Addr(FromBigEndian(p[0], p[1]), p[3]), p[4..];
      if VERSION_MARKER <= rest then
        match ParseTuples(rest[3..])
        case None => None
        case Some(ts) => Some(RtmpData(sender, None, ts))
      else
        match ParseTuple(rest)
        case None => None
        case Some((t, n)) =>
          if !t.extended then None
          else
            match ParseTuples(rest[n..])
            case None => None
            case Some(ts) => Some(RtmpData(sender, Some(t.range), ts))
  }

  lemma FirstReadsBack(range: Option<Range>, rest: Bytes)
    ensures match range
            case None => VERSION_MARKER <= First(range) + rest && (First(range) + rest)[3..] == rest
            case Some(r) =>
              && !(VERSION_MARKER <= First(range) + rest)
              && ParseTuple(First(range) + rest) == Some((NetworkTuple(r, true, 0), 6))
              && (First(range) + rest)[6..] == rest
  {
    var p := First(range) + rest;
    match range
    case None => assert p[..3] == VERSION_MARKER;
    case Some(r) =>
      TupleReadsBack(NetworkTuple(r, true, 0), RTMP_TRAILER, rest);
      assert p[2] == 0x80 && VERSION_MARKER[2] == 0x82;
      assert |First(range)| == 6;
  }

  lemma RtmpReadsBack(d: RtmpData)
    ensures ParseRtmp(EncodeRtmp(d)) == Some(d.(tuples := CarriedAll(d.tuples)))
  {
    var tail := EncodeTuples(d.tuples, RTMP_TRAILER);
    var rest := First(d.range) + tail;
    var p := EncodeRtmp(d);
    BytesBack(d.sender.net);
    TuplesReadBack(d.tuples, RTMP_TRAILER);
    FirstReadsBack(d.range, tail);
    hide EncodeTuples, ParseTuples, First, ParseTuple, CarriedAll;
    assert p == BigEndian(d.sender.net) + [8, d.sender.node] + rest;
    assert p[0] == BigEndian(d.sender.net)[0] && p[1] == BigEndian(d.sender.net)[1];
    assert p[4..] == rest;
  }

  /** An RTMP Data packet comes back as it went exactly when its tuples do. */
  lemma RtmpRoundTrip(d: RtmpData)
    ensures ParseRtmp(EncodeRtmp(d)) == Some(d) <==> AllCarriable(d.tuples)
  {
    RtmpReadsBack(d);
    TuplesReadBack(d.tuples, RTMP_TRAILER);
    TuplesRoundTrip(d.tuples, RTMP_TRAILER);
    hide EncodeRtmp, ParseRtmp, EncodeTuples, ParseTuples, CarriedAll, AllCarriable;
  }

  // ------------------------------------------------------------- RTMP packets that fit

  const DDP_MAX: nat := 586

  function BaseBytes(range: Option<Range>): nat { 4 + if range.Some? then 6 else 3 }

  /** As (finished packets, packet being filled). */
  function ChunkTuples(base: nat, ts: seq<NetworkTuple>): (seq<seq<NetworkTuple>>, seq<NetworkTuple>) {
    if ts == [] then ([], [])
    else
      var n := |ts| - 1;
      var (out, batch) := ChunkTuples(base, ts[..n]);
      if base + TuplesBytes(batch) + TupleBytes(ts[n]) > DDP_MAX && batch != [] then (out + [batch], [ts[n]])
      else (out, batch + [ts[n]])
  }

  /** The packets of a beacon; an empty one still makes one. */
  function Chunk(range: Option<Range>, ts: seq<NetworkTuple>): seq<seq<NetworkTuple>> {
    var (out, batch) := ChunkTuples(BaseBytes(range), ts);
    out + [batch]
  }

  method ChunkLoop(range: Option<Range>, ts: seq<NetworkTuple>) returns (out: seq<seq<NetworkTuple>>)
    ensures out == Chunk(range, ts)
  {
    var base := BaseBytes(range);
    var batch: seq<NetworkTuple> := [];
    var size := base;
    out := [];
    for i := 0 to |ts|
      invariant (out, batch) == ChunkTuples(base, ts[..i]) && size == base + TuplesBytes(batch)
    {
      assert ts[..i + 1][..i] == ts[..i];
      var n := TupleBytes(ts[i]);
      if size + n > DDP_MAX && batch != [] {
        out := out + [batch];
        batch := [];
        size := base;
      }
      BytesSnoc(batch, ts[i]);
      batch := batch + [ts[i]];
      size := size + n;
    }
    assert ts[..|ts|] == ts;
    out := out + [batch];
  }

  lemma BytesSnoc(ts: seq<NetworkTuple>, t: NetworkTuple)
    ensures TuplesBytes(ts + [t]) == TuplesBytes(ts) + TupleBytes(t)
  {
    assert (ts + [t])[..|ts|] == ts;
  }

  lemma JoinedSnoc(pages: seq<seq<NetworkTuple>>, page: seq<NetworkTuple>)
    ensures Joined(pages + [page]) == Joined(pages) + page
  {
    assert (pages + [page])[..|pages|] == pages;
  }

  ghost predicate ChunkInv(base: nat, ts: seq<NetworkTuple>, out: seq<seq<NetworkTuple>>, batch: seq<NetworkTuple>) {
    && Joined(out) + batch == ts && (ts != [] ==> batch != [])
    && (forall i :: 0 <= i < |out| ==> out[i] != [] && base + TuplesBytes(out[i]) <= DDP_MAX)
    && base + TuplesBytes(batch) <= DDP_MAX
  }

  lemma {:induction false} ChunksInv(base: nat, ts: seq<NetworkTuple>)
    requires base <= 10
    ensures ChunkInv(base, ts, ChunkTuples(base, ts).0, ChunkTuples(base, ts).1)
  {
    if ts != [] {
      var first, t := ts[..|ts| - 1], ts[|ts| - 1];
      ChunksInv(base, first);
      var (out, batch) := ChunkTuples(base, first);
      assert ts == first + [t];
      BytesSnoc(batch, t);
      BytesSnoc([], t);
      JoinedSnoc(out, batch);
      hide TuplesBytes, Joined, ChunkTuples;
      assert [] + [t] == [t];
      if batch == [] { assert batch + [t] == [t]; }
      assert Joined(out) + (batch + [t]) == Joined(out) + batch + [t];
      assert TuplesBytes([]) == 0 by { NoTuples(); }
    }
  }

  lemma NoTuples()
    ensures TuplesBytes([]) == 0
  {
  }

  lemma {:induction false} EncodedSize(ts: seq<NetworkTuple>, trailer: Byte)
    ensures |EncodeTuples(ts, trailer)| == TuplesBytes(ts)
  {
    if ts != [] {
      var n := |ts| - 1;
      EncodedSize(ts[..n], trailer);
      EncodeTuplesSnoc(ts, n, trailer);
      assert ts[..n + 1] == ts;
    }
  }

  /** What an RTMP packet takes, tuple by tuple. */
  lemma RtmpSize(sender: Addr, range: Option<Range>, ts: seq<NetworkTuple>)
    ensures |EncodeRtmp(RtmpData(sender, range, ts))| == BaseBytes(range) + TuplesBytes(ts)
  {
    EncodedSize(ts, RTMP_TRAILER);
    hide EncodeTuples, TuplesBytes;
    assert |First(range)| + 4 == BaseBytes(range);
  }

  /** The packets a beacon is split into carry its tuples, each once and in order;
      each fits a datagram; and only an empty beacon makes an empty packet. */
  lemma ChunksAreExact(sender: Addr, range: Option<Range>, ts: seq<NetworkTuple>)
    ensures Joined(Chunk(range, ts)) == ts
    ensures forall i :: 0 <= i < |Chunk(range, ts)| ==>
              |EncodeRtmp(RtmpData(sender, range, Chunk(range, ts)[i]))| <= DDP_MAX
    ensures ts != [] ==> forall i :: 0 <= i < |Chunk(range, ts)| ==> Chunk(range, ts)[i] != []
    ensures ts == [] ==> Chunk(range, ts) == [[]]
  {
    hide ChunkTuples, TuplesBytes, Joined, EncodeRtmp;
    ChunksInv(BaseBytes(range), ts);
    var (out, batch) := ChunkTuples(BaseBytes(range), ts);
    JoinedSnoc(out, batch);
    if ts == [] { NothingToChunk(BaseBytes(range)); }
    var all := Chunk(range, ts);
    forall i | 0 <= i < |all| ensures |EncodeRtmp(RtmpData(sender, range, all[i]))| <= DDP_MAX {
      RtmpSize(sender, range, all[i]);
    }
  }

  lemma NothingToChunk(base: nat)
    ensures ChunkTuples(base, []) == ([], [])
  {
  }

  // ------------------------------------------------------------- what the tables put on the wire

  /** Routes whose tuples fit the wire. */
  ghost predicate RoutesCarriable(rs: seq<Route>) {
    forall i :: 0 <= i < |rs| ==> rs[i].extended || rs[i].range.lo == rs[i].range.hi
  }

  lemma LearningKeepsCarriable(rs: seq<Route>, t: NetworkTuple, target: Target, next: Addr, now: Time)
    requires RoutesCarriable(rs) && Carriable(t)
    ensures RoutesCarriable(LearnRoutes(rs, t, target, next, now))
  {
  }

  lemma SweepingKeepsCarriable(rs: seq<Route>, w: Sweep)
    requires RoutesCarriable(rs)
    ensures RoutesCarriable(SweepAll(w, rs))
  {
    SweptComeFrom(w, rs);
    var out := SweepAll(w, rs);
    forall i | 0 <= i < |out| ensures out[i].extended || out[i].range.lo == out[i].range.hi {
      assert ComesFrom(w, rs, out[i]);
      var j :| 0 <= j < |rs| && SweepOne(w, rs[j]) == Some(out[i]);
    }
  }

  /** A table fed from the wire only ever holds what the wire can carry. */
  lemma StepKeepsCarriable(t: Table, op: Op)
    requires RoutesCarriable(t.routes) && (op.OpLearn? ==> Carriable(op.tuple))
    ensures RoutesCarriable(Step(t, op).0.routes)
  {
    hide Step, RoutesCarriable, LearnRoutes, SweepAll, Blocked;
    StepRoutes(t, op);
    match op
    case OpLearn(x, target, next, now) => LearningKeepsCarriable(t.routes, x, target, next, now);
    case OpSweep(w) => SweepingKeepsCarriable(t.routes, w);
    case OpZones(_, _, _) =>
  }

  lemma {:induction false} ExportIsCarriable(t: Table, starts: seq<U16>)
    requires Inv(t) && RoutesCarriable(t.routes)
    ensures AllCarriable(ExportOf(t, starts))
  {
    if starts != [] {
      ExportIsCarriable(t, starts[..|starts| - 1]);
      BestStartsThere(t, starts[|starts| - 1]);
    }
  }

  lemma {:induction false} PagesHoldMembers(pages: seq<seq<NetworkTuple>>, i: nat, j: nat)
    requires i < |pages| && j < |pages[i]|
    ensures pages[i][j] in Joined(pages)
  {
    var n := |pages| - 1;
    if i < n { PagesHoldMembers(pages[..n], i, j); }
  }

  /** Every page of an export is read by the peer exactly as it was written. */
  lemma ExportSurvivesTheWire(t: Table, i: nat)
    requires Inv(t) && RoutesCarriable(t.routes) && i < |SplitTuples(Export(t))|
    ensures var page := SplitTuples(Export(t))[i]; ParseTuples(EncodeTuples(page, AURP_TRAILER)) == Some(page)
  {
    var pages := SplitTuples(Export(t));
    SplitIsExact(Export(t));
    ExportIsCarriable(t, Starts(t.routes));
    forall j | 0 <= j < |pages[i]| ensures Carriable(pages[i][j]) {
      PagesHoldMembers(pages, i, j);
      var k :| 0 <= k < |Export(t)| && Export(t)[k] == pages[i][j];
    }
    TuplesRoundTrip(pages[i], AURP_TRAILER);
  }

  /** A change whose routes fit the wire. */
  predicate ChangeCarriable(c: RouteChange) {
    && (c.before.Some? ==> c.before.value.extended || c.before.value.range.lo == c.before.value.range.hi)
    && (c.after.Some? ==> c.after.value.extended || c.after.value.range.lo == c.after.value.range.hi)
  }

  lemma QueueingKeepsCarriable(pending: seq<Event>, e: Event)
    requires EventsCarriable(pending) && EventCarriable(e) && e.code != Null
    ensures EventsCarriable(Queued(pending, e))
  {
  }

  lemma EventIsCarriable(t: Table, c: RouteChange)
    requires ChangeCarriable(c)
    ensures EventFor(t, c).Some? ==> EventFor(t, c).value.code != Null && EventCarriable(EventFor(t, c).value)
  {
  }

  /** Updates are read by the peer exactly as they were written, whatever collapsed
      in the queue. */
  lemma {:induction false} UpdatesSurviveTheWire(pending: seq<Event>, cs: seq<RouteChange>, t: Table)
    requires EventsCarriable(pending) && forall i :: 0 <= i < |cs| ==> ChangeCarriable(cs[i])
    ensures EventsCarriable(QueuedAll(pending, cs, t))
    ensures ParseEvents(EncodeEvents(QueuedAll(pending, cs, t))) == Some(QueuedAll(pending, cs, t))
  {
    hide EventCarriable, ChangeCarriable, Queued, EventFor, ParseEvents, EncodeEvents;
    if cs != [] {
      var n := |cs| - 1;
      UpdatesSurviveTheWire(pending, cs[..n], t);
      EventIsCarriable(t, cs[n]);
      var e := EventFor(t, cs[n]);
      if e.Some? { QueueingKeepsCarriable(QueuedAll(pending, cs[..n], t), e.value); }
    }
    EventsRoundTrip(QueuedAll(pending, cs, t));
  }
}
