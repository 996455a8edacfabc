/** The body of a ZI-Rsp: zone tuples in which a repeated name is replaced by the
    offset of its first spelling. */
module ZoneCodec {
  import opened Wire

  /** Names travel behind a length byte and are cut to 32 characters. */
  const MAX_NAME: nat := 32

  /** Where offset 0 lies in a body: at the first name's length. */
  const ZONE_BASE: nat := 6

  /** The smallest offset fifteen bits cannot hold. */
  const TOO_FAR: nat := 0x8000

  /** A name as it is written, at most 32 characters of it. */
  function Cut(n: Name): (s: Name)
    ensures |s| <= MAX_NAME
  {
    if |n| <= MAX_NAME then n else n[..MAX_NAME]
  }

  function PString(n: Name): Bytes { [|Cut(n)|] + Cut(n) }

  /** A length-prefixed name at the front of `p`, and how many bytes it takes. */
  function ParsePString(p: Bytes): (r: Option<(Name, nat)>)
    ensures r.Some? ==> r.value.1 == 1 + |r.value.0| <= |p|
  {
    if p == [] then None
    else
      var n: nat := p[0];
      if |p| < 1 + n then None else Some((p[1..1 + n], 1 + n))
  }

  // ------------------------------------------------------------- writing

  /** The bytes written so far and where each name was first spelled out. */
  datatype Writer = Writer(out: Bytes, seen: map<Name, U16>)

  /** A tuple's bytes: its network, then the name or where to find it. */
  function TupleBytes(seen: map<Name, U16>, p: ZonePair): Bytes {
    BigEndian(p.0) +
    if p.1 in seen then
      var off := seen[p.1];
      BigEndian(if off < TOO_FAR then off + TOO_FAR else off)
    else PString(p.1)
  }

  function Tuple(w: Writer, p: ZonePair): Writer
    requires |w.out| + 2 >= ZONE_BASE
  {
    Writer(w.out + TupleBytes(w.seen, p),
           if p.1 in w.seen then w.seen else w.seen[p.1 := (|w.out| + 2 - ZONE_BASE) % 0x1_0000])
  }

  function Head(extended: Option<U16>, zones: seq<ZonePair>): Bytes {
    match extended
    case Some(total) => BigEndian(2) + BigEndian(total)
    case None => BigEndian(1) + BigEndian(|zones| % 0x1_0000)
  }

  function Tuples(head: Bytes, zones: seq<ZonePair>): (w: Writer)
    requires |head| == 4
    ensures |w.out| >= 4 && w.out[..4] == head
  {
    if zones == [] then Writer(head, map[])
    else
      var n := |zones| - 1;
      Tuple(Tuples(head, zones[..n]), zones[n])
  }

  /** The whole body of a ZI-Rsp. */
  function Encode(extended: Option<U16>, zones: seq<ZonePair>): Bytes {
    Tuples(Head(extended, zones), zones).out
  }

  /** Writes one tuple behind whatever `prefix` the buffer started with; `base` is
      where offsets are measured from in this buffer. */
  method WriteTuple(buffer: Bytes, base: nat, seen: map<Name, U16>, p: ZonePair, ghost prefix: Bytes, ghost w: Writer)
    returns (out: Bytes, seen': map<Name, U16>)
    requires buffer == prefix + w.out && seen == w.seen && |w.out| >= 4 && base == |prefix| + ZONE_BASE
    ensures out == prefix + Tuple(w, p).out && seen' == Tuple(w, p).seen
  {
    out := buffer + BigEndian(p.0);
    seen' := seen;
    if p.1 in seen {
      var off := seen[p.1];
      out := out + BigEndian(if off < TOO_FAR then off + TOO_FAR else off);
    } else {
      assert |out| - base == |w.out| + 2 - ZONE_BASE;
      seen' := seen[p.1 := (|out| - base) % 0x1_0000];
      out := out + PString(p.1);
    }
    assert out == buffer + TupleBytes(seen, p);
    assert prefix + w.out + TupleBytes(seen, p) == prefix + (w.out + TupleBytes(seen, p));
  }

  /** Appends the body to a buffer that may already hold the packet's headers. */
  method EncodeInto(prefix: Bytes, extended: Option<U16>, zones: seq<ZonePair>) returns (out: Bytes)
    ensures out == prefix + Encode(extended, zones)
  {
    var head := Head(extended, zones);
    out := prefix + head;
    var base := |out| + 2;
    var seen: map<Name, U16> := map[];
    ghost var w := Writer(head, map[]);
    for i := 0 to |zones|
      invariant w == Tuples(head, zones[..i])
      invariant out == prefix + w.out && seen == w.seen && |w.out| >= 4
    {
      TuplesSnoc(head, zones, i);
      out, seen := WriteTuple(out, base, seen, zones[i], prefix, w);
      w := Tuple(w, zones[i]);
    }
    assert zones[..|zones|] == zones;
  }

  lemma TuplesSnoc(head: Bytes, zones: seq<ZonePair>, i: nat)
    requires |head| == 4 && i < |zones|
    ensures Tuples(head, zones[..i + 1]) == Tuple(Tuples(head, zones[..i]), zones[i])
  {
    assert zones[..i + 1][..i] == zones[..i];
  }

  // ------------------------------------------------------------- reading

  datatype Parsed = Parsed(extended: Option<U16>, zones: seq<ZonePair>)

  /** One tuple at `at`, and where the next one starts. */
  function ParseTuple(b: Bytes, at: nat): (r: Option<(ZonePair, nat)>)
    requires at < |b|
    ensures r.Some? ==> at < r.value.1 <= |b|
  {
    if |b| < at + 3 then None
    else
      var net := FromBigEndian(b[at], b[at + 1]);
      if b[at + 2] < 0x80 then
        match ParsePString(b[at + 2..])
        case None => None
        case Some((name, used)) => Some(((net, name), at + 2 + used))
      else if |b| < at + 4 then None
      else
        var off := FromBigEndian(b[at + 2], b[at + 3]) - TOO_FAR;
        if ZONE_BASE + off >= |b| || b[ZONE_BASE + off] >= 0x80 then None
        else
          match ParsePString(b[ZONE_BASE + off..])
          case None => None
          case Some((name, _)) => Some(((net, name), at + 4))
  }

  function ParseTuples(b: Bytes, at: nat): Option<seq<ZonePair>>
    requires at <= |b|
    decreases |b| - at
  {
    if at == |b| then Some([])
    else
      match ParseTuple(b, at)
      case None => None
      case Some((p, next)) =>
        match ParseTuples(b, next)
        case None => None
        case Some(ps) => Some([p] + ps)
  }

  /** Subcodes 1 and 2; the count is kept only where it is the whole list's. */
  function Parse(b: Bytes): Option<Parsed> {
    if |b| < 4 then None
    else
      var sub := FromBigEndian(b[0], b[1]);
      if sub != 1 && sub != 2 then None
      else
        match ParseTuples(b, 4)
        case None => None
        case Some(zones) => Some(Parsed(if sub == 2 then Some(FromBigEndian(b[2], b[3])) else None, zones))
  }

  method ParseLoop(b: Bytes) returns (r: Option<Parsed>)
    ensures r == Parse(b)
  {
    if |b| < 4 { return None; }
    var sub := FromBigEndian(b[0], b[1]);
    if sub != 1 && sub != 2 { return None; }
    var zones: seq<ZonePair> := [];
    var at := 4;
    assert forall rest: seq<ZonePair> :: zones + rest == rest;
    while at < |b|
      invariant 4 <= at <= |b|
      invariant match ParseTuples(b, at)
                case None => ParseTuples(b, 4) == None
                case Some(rest) => ParseTuples(b, 4) == Some(zones + rest)
      decreases |b| - at
    {
      match ParseTuple(b, at)
      case None => return None;
      case Some((p, next)) =>
        ghost var rest := ParseTuples(b, next);
        assert rest.Some? ==> zones + ([p] + rest.value) == zones + [p] + rest.value;
        zones := zones + [p];
        at := next;
    }
    assert zones + [] == zones;
    return Some(Parsed(if sub == 2 then Some(FromBigEndian(b[2], b[3])) else None, zones));
  }

  // ------------------------------------------------------------- round trip

  /** At `ZONE_BASE + off`, `b` spells `name` out. */
  ghost predicate Spells(b: Bytes, off: nat, name: Name) {
    && ZONE_BASE + off + 1 + |name| <= |b|
    && b[ZONE_BASE + off] == |name| <= MAX_NAME
    && b[ZONE_BASE + off + 1..ZONE_BASE + off + 1 + |name|] == name
  }

  /** Every remembered offset points at a spelled-out copy of its name, and has
      not wrapped. */
  ghost predicate SeenOk(w: Writer) {
    forall name :: name in w.seen ==> Spells(w.out, w.seen[name], Cut(name))
  }

  /** Spelled in a body, spelled in every longer one. */
  lemma SpellsLonger(b: Bytes, more: Bytes, off: nat, name: Name)
    requires Spells(b, off, name)
    ensures Spells(b + more, off, name)
  {
    assert (b + more)[ZONE_BASE + off + 1..ZONE_BASE + off + 1 + |name|] == b[ZONE_BASE + off + 1..ZONE_BASE + off + 1 + |name|];
  }

  lemma NewNameIsSpelled(out: Bytes, net: U16, name: Name)
    requires |out| >= 4
    ensures Spells(out + (BigEndian(net) + PString(name)), |out| - 4, Cut(name))
  {
    var b, at := out + (BigEndian(net) + PString(name)), |out| + 2;
    assert b[at..] == PString(name);
    assert b[at] == PString(name)[0];
    assert b[at + 1..at + 1 + |Cut(name)|] == PString(name)[1..];
  }

  lemma StillSpelled(w: Writer, more: Bytes)
    requires SeenOk(w)
    ensures SeenOk(Writer(w.out + more, w.seen))
  {
    forall name | name in w.seen ensures Spells(w.out + more, w.seen[name], Cut(name)) {
      SpellsLonger(w.out, more, w.seen[name], Cut(name));
    }
  }

  lemma AlsoSpelled(w: Writer, name: Name, off: U16)
    requires SeenOk(w) && Spells(w.out, off, Cut(name))
    ensures SeenOk(Writer(w.out, w.seen[name := off]))
  {
  }

  lemma NoWrap(n: nat)
    requires n < 0x1_0000
    ensures n % 0x1_0000 == n
  {
  }

  lemma TupleWrites(w: Writer, p: ZonePair)
    requires 4 <= |w.out| < 0x1_0000
    ensures var more := TupleBytes(w.seen, p);
            && Tuple(w, p) == Writer(w.out + more, if p.1 in w.seen then w.seen else w.seen[p.1 := |w.out| - 4])
            && |more| > 0 && (p.1 !in w.seen ==> more == BigEndian(p.0) + PString(p.1))
  {
    NoWrap(|w.out| - 4);
    hide PString;
  }

  lemma TupleKeepsSeen(w: Writer, p: ZonePair)
    requires 4 <= |w.out| < 0x1_0000 && SeenOk(w)
    ensures SeenOk(Tuple(w, p)) && |w.out| < |Tuple(w, p).out|
  {
    hide Tuple, TupleBytes, BigEndian, SeenOk, Spells, Cut, PString;
    TupleWrites(w, p);
    var more := TupleBytes(w.seen, p);
    StillSpelled(w, more);
    if p.1 !in w.seen {
      NewNameIsSpelled(w.out, p.0, p.1);
      AlsoSpelled(Writer(w.out + more, w.seen), p.1, |w.out| - 4);
    }
  }

  /** Growth only ever appends. */
  lemma {:induction false} TuplesGrow(head: Bytes, zones: seq<ZonePair>, k: nat)
    requires |head| == 4 && k <= |zones|
    ensures Tuples(head, zones[..k]).out <= Tuples(head, zones).out
  {
    if k == |zones| {
      assert zones[..k] == zones;
    } else {
      var n := |zones| - 1;
      assert zones[..n][..k] == zones[..k];
      TuplesGrow(head, zones[..n], k);
    }
  }

  lemma {:induction false} SeenAlwaysOk(head: Bytes, zones: seq<ZonePair>)
    requires |head| == 4 && |Tuples(head, zones).out| <= 0x1_0000
    ensures SeenOk(Tuples(head, zones))
    ensures zones != [] ==> |Tuples(head, zones[..|zones| - 1]).out| < |Tuples(head, zones).out|
  {
    if zones != [] {
      var n := |zones| - 1;
      SeenAlwaysOk(head, zones[..n]);
      TupleKeepsSeen(Tuples(head, zones[..n]), zones[n]);
    }
  }

  /** A name just spelled out reads back, wherever the body goes on. */
  lemma LongReadsBack(out: Bytes, p: ZonePair, rest: Bytes)
    ensures ParseTuple(out + (BigEndian(p.0) + PString(p.1)) + rest, |out|)
         == Some(((p.0, Cut(p.1)), |out| + 3 + |Cut(p.1)|))
  {
    var at, b := |out|, out + (BigEndian(p.0) + PString(p.1)) + rest;
    assert b[at] == BigEndian(p.0)[0] && b[at + 1] == BigEndian(p.0)[1];
    assert b[at + 2..] == PString(p.1) + rest;
    assert b[at + 2..][0] == |Cut(p.1)| && b[at + 2..][1..1 + |Cut(p.1)|] == Cut(p.1);
  }

  /** An offset reads back as the name it points at. */
  lemma ShortReadsBack(out: Bytes, p: ZonePair, off: U16, rest: Bytes)
    requires Spells(out, off, p.1) && off < TOO_FAR
    ensures ParseTuple(out + (BigEndian(p.0) + BigEndian(off + TOO_FAR)) + rest, |out|) == Some((p, |out| + 4))
  {
    var at, b := |out|, out + (BigEndian(p.0) + BigEndian(off + TOO_FAR)) + rest;
    assert b[at] == BigEndian(p.0)[0] && b[at + 1] == BigEndian(p.0)[1];
    assert b[at + 2] == BigEndian(off + TOO_FAR)[0] && b[at + 3] == BigEndian(off + TOO_FAR)[1];
    assert FromBigEndian(b[at + 2], b[at + 3]) == off + TOO_FAR;
    assert b == out + (BigEndian(p.0) + BigEndian(off + TOO_FAR) + rest);
    SpellsLonger(out, BigEndian(p.0) + BigEndian(off + TOO_FAR) + rest, off, p.1);
    var from := ZONE_BASE + off;
    assert b[from..][0] == b[from] == |p.1|;
    assert b[from..][1..1 + |p.1|] == b[from + 1..from + 1 + |p.1|] == p.1;
  }

  /** The bytes a tuple adds: spelled out, or an offset that fits fifteen bits. */
  lemma TupleWritten(w: Writer, p: ZonePair)
    requires |w.out| >= 4 && (p.1 in w.seen ==> w.seen[p.1] < TOO_FAR)
    ensures Tuple(w, p).out == w.out + if p.1 in w.seen then BigEndian(p.0) + BigEndian(w.seen[p.1] + TOO_FAR)
                                       else BigEndian(p.0) + PString(p.1)
    ensures |Tuple(w, p).out| == |w.out| + if p.1 in w.seen then 4 else 3 + |Cut(p.1)|
  {
    hide Cut;
  }

  /** Reading back one tuple that was just written, wherever the body goes on. */
  lemma TupleReadsBack(w: Writer, p: ZonePair, b: Bytes)
    requires |w.out| >= 4 && SeenOk(w)
    requires p.1 in w.seen ==> w.seen[p.1] < TOO_FAR
    requires Tuple(w, p).out <= b
    ensures |w.out| < |Tuple(w, p).out| <= |b| && ParseTuple(b, |w.out|) == Some(((p.0, Cut(p.1)), |Tuple(w, p).out|))
  {
    hide Tuple, ParseTuple, PString, BigEndian, Spells, Cut;
    var x := Tuple(w, p).out;
    TupleWritten(w, p);
    assert b == x + b[|x|..];
    if p.1 in w.seen {
      ShortReadsBack(w.out, (p.0, Cut(p.1)), w.seen[p.1], b[|x|..]);
    } else {
      LongReadsBack(w.out, p, b[|x|..]);
    }
  }

  /** No tuple refers back further than fifteen bits reach. */
  predicate InReach(zones: seq<ZonePair>, head: Bytes)
    requires |head| == 4
  {
    forall i :: 0 <= i < |zones| ==>
      var seen := Tuples(head, zones[..i]).seen;
      zones[i].1 in seen ==> seen[zones[i].1] < TOO_FAR
  }

  function CutAll(zones: seq<ZonePair>): seq<ZonePair> {
    seq(|zones|, i requires 0 <= i < |zones| => (zones[i].0, Cut(zones[i].1)))
  }

  lemma ParseStep(b: Bytes, at: nat, p: ZonePair, next: nat, rest: seq<ZonePair>)
    requires at < |b| && ParseTuple(b, at) == Some((p, next)) && ParseTuples(b, next) == Some(rest)
    ensures ParseTuples(b, at) == Some([p] + rest)
  {
  }

  lemma CutAllFits(zones: seq<ZonePair>)
    ensures CutAll(zones) == zones <==> forall i :: 0 <= i < |zones| ==> |zones[i].1| <= MAX_NAME
  {
    forall i | 0 <= i < |zones| ensures CutAll(zones)[i] == zones[i] <==> |zones[i].1| <= MAX_NAME {}
    if CutAll(zones) == zones {
      forall i | 0 <= i < |zones| ensures |zones[i].1| <= MAX_NAME { assert CutAll(zones)[i] == zones[i]; }
    }
  }

  lemma CutAllHead(zones: seq<ZonePair>, k: nat)
    requires k < |zones|
    ensures CutAll(zones[k..]) == [(zones[k].0, Cut(zones[k].1))] + CutAll(zones[k + 1..])
  {
  }

  lemma {:induction false} ReadsBackFrom(head: Bytes, zones: seq<ZonePair>, k: nat, b: Bytes)
    requires |head| == 4 && k <= |zones| && InReach(zones, head)
    requires b == Tuples(head, zones).out && |b| <= 0x1_0000
    ensures var at := |Tuples(head, zones[..k]).out|;
            at <= |b| && ParseTuples(b, at) == Some(CutAll(zones[k..]))
    decreases |zones| - k
  {
    TuplesGrow(head, zones, k);
    if k == |zones| {
      assert zones[..k] == zones && CutAll(zones[k..]) == [];
    } else {
      hide Tuples, ParseTuples, InReach, CutAll;
      ReadsBackFrom(head, zones, k + 1, b);
      OneReadsBack(head, zones, k, b);
      CutAllHead(zones, k);
    }
  }

  lemma OneReadsBack(head: Bytes, zones: seq<ZonePair>, k: nat, b: Bytes)
    requires |head| == 4 && k < |zones| && InReach(zones, head)
    requires b == Tuples(head, zones).out && |b| <= 0x1_0000
    requires var at := |Tuples(head, zones[..k + 1]).out|;
             at <= |b| && ParseTuples(b, at) == Some(CutAll(zones[k + 1..]))
    ensures var at := |Tuples(head, zones[..k]).out|;
            at <= |b| && ParseTuples(b, at) == Some([(zones[k].0, Cut(zones[k].1))] + CutAll(zones[k + 1..]))
  {
    var w := Tuples(head, zones[..k]);
    assert zones[k].1 in w.seen ==> w.seen[zones[k].1] < TOO_FAR;
    hide Tuples, Tuple, ParseTuple, ParseTuples, SeenOk, InReach, Cut, CutAll;
    TuplesSnoc(head, zones, k);
    TuplesGrow(head, zones, k);
    TuplesGrow(head, zones, k + 1);
    SeenAlwaysOk(head, zones[..k]);
    TupleReadsBack(w, zones[k], b);
    ParseStep(b, |w.out|, (zones[k].0, Cut(zones[k].1)), |Tuple(w, zones[k]).out|, CutAll(zones[k + 1..]));
  }

  /** Bodies whose names all start within fifteen bits refer back within reach. */
  lemma ShortBodiesAreInReach(zones: seq<ZonePair>, head: Bytes)
    requires |head| == 4 && |Tuples(head, zones).out| <= TOO_FAR + ZONE_BASE
    ensures InReach(zones, head)
  {
    forall i | 0 <= i < |zones|
      ensures var seen := Tuples(head, zones[..i]).seen; zones[i].1 in seen ==> seen[zones[i].1] < TOO_FAR
    {
      TuplesGrow(head, zones, i);
      SeenAlwaysOk(head, zones[..i]);
      var w := Tuples(head, zones[..i]);
      if zones[i].1 in w.seen { assert Spells(w.out, w.seen[zones[i].1], Cut(zones[i].1)); }
    }
  }

  /** What is read back from a body in reach is every pair in order, repeated
      names included, each name cut to 32 characters. */
  lemma ReadsBack(extended: Option<U16>, zones: seq<ZonePair>)
    requires |Encode(extended, zones)| <= TOO_FAR + ZONE_BASE
    ensures Parse(Encode(extended, zones)) == Some(Parsed(extended, CutAll(zones)))
  {
    var head := Head(extended, zones);
    ShortBodiesAreInReach(zones, head);
    ReadsBackFrom(head, zones, 0, Encode(extended, zones));
    assert zones[0..] == zones && zones[..0] == [];
    var b := Encode(extended, zones);
    assert b[..4] == head;
    assert b[0] == head[0] && b[1] == head[1] && b[2] == head[2] && b[3] == head[3];
  }

  /** The round trip is exact if and only if no name exceeds 32 characters. */
  lemma RoundTrip(extended: Option<U16>, zones: seq<ZonePair>)
    requires |Encode(extended, zones)| <= TOO_FAR + ZONE_BASE
    ensures Parse(Encode(extended, zones)) == Some(Parsed(extended, zones))
       <==> forall i :: 0 <= i < |zones| ==> |zones[i].1| <= MAX_NAME
  {
    ReadsBack(extended, zones);
    CutAllFits(zones);
  }

  // ------------------------------------------------------------- how long it is

  predicate NamedBefore(zones: seq<ZonePair>, name: Name) { exists j :: 0 <= j < |zones| && zones[j].1 == name }

  /** Four bytes for a name given before, and for any other its length byte and at most 32
      characters behind the network. */
  function SharedBytes(zones: seq<ZonePair>): nat {
    if zones == [] then 0
    else
      var n := |zones| - 1;
      var name := zones[n].1;
      SharedBytes(zones[..n]) + if NamedBefore(zones[..n], name) then 4 else if |name| > 32 then 35 else 3 + |name|
  }

  lemma NamedSnoc(zones: seq<ZonePair>, name: Name)
    requires zones != []
    ensures NamedBefore(zones, name) <==> NamedBefore(zones[..|zones| - 1], name) || zones[|zones| - 1].1 == name
  {
    var n := |zones| - 1;
    if NamedBefore(zones, name) && zones[n].1 != name {
      var j :| 0 <= j < |zones| && zones[j].1 == name;
      assert zones[..n][j].1 == name;
    }
    if NamedBefore(zones[..n], name) {
      var j :| 0 <= j < n && zones[..n][j].1 == name;
      assert zones[j].1 == name;
    }
  }

  lemma {:induction false} SharedSoFar(head: Bytes, zones: seq<ZonePair>)
    requires |head| == 4
    ensures var w := Tuples(head, zones);
            && |w.out| == 4 + SharedBytes(zones)
            && forall name :: name in w.seen <==> NamedBefore(zones, name)
  {
    if zones != [] {
      var n := |zones| - 1;
      SharedSoFar(head, zones[..n]);
      hide NamedBefore;
      forall name ensures NamedBefore(zones, name) <==> NamedBefore(zones[..n], name) || zones[n].1 == name {
        NamedSnoc(zones, name);
      }
    } else {
      assert forall name: Name :: !NamedBefore(zones, name);
    }
  }

  /** Names are shared: each is spelled out once in a packet, where it first comes, and is
      two bytes wherever it comes again. */
  lemma EachNameIsSpelledOnce(extended: Option<U16>, zones: seq<ZonePair>)
    ensures |Encode(extended, zones)| == 4 + SharedBytes(zones)
  {
    SharedSoFar(Head(extended, zones), zones);
  }
}
