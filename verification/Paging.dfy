/** Splitting what a peer is owed into packets that never fragment: RI-Rsp pages
    of network tuples and ZI-Rsp pages of zone names. */
module Paging {
  import opened Wire
  import opened Table

  /** Body bytes a packet is split at. */
  const MAX_BODY: nat := 1400

  // ------------------------------------------------------------- RI-Rsp pages

  function TupleBytes(t: NetworkTuple): nat { if t.extended then 6 else 3 }

  function TuplesBytes(ts: seq<NetworkTuple>): nat {
    if ts == [] then 0 else TuplesBytes(ts[..|ts| - 1]) + TupleBytes(ts[|ts| - 1])
  }

  function Joined<T>(pages: seq<seq<T>>): seq<T> {
    if pages == [] then [] else Joined(pages[..|pages| - 1]) + pages[|pages| - 1]
  }

  /** The pages, and the bytes used on the last of them. */
  function SplitFold(ts: seq<NetworkTuple>): (r: (seq<seq<NetworkTuple>>, nat))
    ensures r.0 != []
  {
    if ts == [] then ([[]], 0)
    else
      var n := |ts| - 1;
      var (pages, used) := SplitFold(ts[..n]);
      if used + TupleBytes(ts[n]) > MAX_BODY then (pages + [[ts[n]]], TupleBytes(ts[n]))
      else (pages[|pages| - 1 := pages[|pages| - 1] + [ts[n]]], used + TupleBytes(ts[n]))
  }

  function SplitTuples(ts: seq<NetworkTuple>): seq<seq<NetworkTuple>> { SplitFold(ts).0 }

  method SplitTuplesLoop(ts: seq<NetworkTuple>) returns (pages: seq<seq<NetworkTuple>>)
    ensures pages == SplitTuples(ts)
  {
    pages := [[]];
    var used := 0;
    for i := 0 to |ts|
      invariant (pages, used) == SplitFold(ts[..i])
    {
      var n := TupleBytes(ts[i]);
      assert ts[..i + 1][..i] == ts[..i];
      if used + n > MAX_BODY {
        pages := pages + [[]];
        used := 0;
      }
      used := used + n;
      ghost var last := pages[|pages| - 1] + [ts[i]];
      assert last == if pages[|pages| - 1] == [] then [ts[i]] else last;
      pages := pages[|pages| - 1 := pages[|pages| - 1] + [ts[i]]];
      assert pages == pages[..|pages| - 1] + [last];
    }
    assert ts[..|ts|] == ts;
  }

  /** What splitting has achieved after the tuples `ts`. */
  ghost predicate SplitInv(ts: seq<NetworkTuple>, pages: seq<seq<NetworkTuple>>, used: nat) {
    && Joined(pages) == ts && pages != [] && used == TuplesBytes(pages[|pages| - 1])
    && (forall i :: 0 <= i < |pages| ==> TuplesBytes(pages[i]) <= MAX_BODY)
    && (if ts == [] then pages == [[]] else forall i :: 0 <= i < |pages| ==> pages[i] != [])
  }

  lemma NextPage(ts: seq<NetworkTuple>, pages: seq<seq<NetworkTuple>>, used: nat, t: NetworkTuple)
    requires SplitInv(ts, pages, used) && used + TupleBytes(t) > MAX_BODY
    ensures SplitInv(ts + [t], pages + [[t]], TupleBytes(t))
  {
    assert (pages + [[t]])[..|pages|] == pages;
    assert TuplesBytes([t][..0]) == 0;
  }

  lemma SamePage(ts: seq<NetworkTuple>, pages: seq<seq<NetworkTuple>>, used: nat, t: NetworkTuple)
    requires SplitInv(ts, pages, used) && used + TupleBytes(t) <= MAX_BODY
    ensures var k := |pages| - 1;
            SplitInv(ts + [t], pages[k := pages[k] + [t]], used + TupleBytes(t))
  {
    var k := |pages| - 1;
    assert pages[k := pages[k] + [t]][..k] == pages[..k];
    assert (pages[k] + [t])[..|pages[k]|] == pages[k];
    assert Joined(pages[..k]) + (pages[k] + [t]) == ts + [t];
  }

  lemma {:induction false} SplitFoldIsExact(ts: seq<NetworkTuple>)
    ensures SplitInv(ts, SplitFold(ts).0, SplitFold(ts).1)
  {
    if ts == [] {
      assert Joined<NetworkTuple>([[]][..0]) == [];
    } else {
      var n := |ts| - 1;
      SplitFoldIsExact(ts[..n]);
      var (pages, used) := SplitFold(ts[..n]);
      assert ts == ts[..n] + [ts[n]];
      hide SplitInv;
      if used + TupleBytes(ts[n]) > MAX_BODY {
        NextPage(ts[..n], pages, used, ts[n]);
      } else {
        SamePage(ts[..n], pages, used, ts[n]);
      }
    }
  }

  /** No tuple is lost, repeated or reordered, every page fits, and only an empty
      export has an empty page. */
  lemma SplitIsExact(ts: seq<NetworkTuple>)
    ensures Joined(SplitTuples(ts)) == ts
    ensures forall i :: 0 <= i < |SplitTuples(ts)| ==> TuplesBytes(SplitTuples(ts)[i]) <= MAX_BODY
    ensures ts != [] ==> forall i :: 0 <= i < |SplitTuples(ts)| ==> SplitTuples(ts)[i] != []
    ensures ts == [] ==> SplitTuples(ts) == [[]]
  {
    SplitFoldIsExact(ts);
    hide Joined, TuplesBytes, SplitFold;
  }

  // ------------------------------------------------------------- ZI-Rsp pages

  datatype ZiPage = ZiPage(extended: Option<nat>, zones: seq<ZonePair>)

  /** A long zone tuple: network, length byte, name. The splitter measures the
      name as it lies in memory, which is never shorter than on the wire. */
  function PairBytes(p: ZonePair): nat { 3 + StringLen(p.1) }

  /** On the wire a name is cut to 32 bytes. */
  function WireBytes(ps: seq<ZonePair>): nat {
    if ps == [] then 0
    else
      var n := |ps[|ps| - 1].1|;
      WireBytes(ps[..|ps| - 1]) + 3 + if n < 32 then n else 32
  }

  lemma {:induction false} WireIsNeverLonger(ps: seq<ZonePair>)
    ensures WireBytes(ps) <= PairsBytes(ps)
  {
    if ps != [] {
      WireIsNeverLonger(ps[..|ps| - 1]);
      StringLenBounds(ps[|ps| - 1].1);
    }
  }

  function PairsBytes(ps: seq<ZonePair>): nat {
    if ps == [] then 0 else PairsBytes(ps[..|ps| - 1]) + PairBytes(ps[|ps| - 1])
  }

  function PairsOf(net: U16, names: seq<Name>): seq<ZonePair> {
    seq(|names|, i requires 0 <= i < |names| => (net, names[i]))
  }

  /** One list too long for a packet, as (finished pages, page being filled). */
  function ChunkFold(count: nat, ps: seq<ZonePair>): (seq<ZiPage>, seq<ZonePair>) {
    if ps == [] then ([], [])
    else
      var n := |ps| - 1;
      var (out, chunk) := ChunkFold(count, ps[..n]);
      if PairsBytes(chunk) + PairBytes(ps[n]) > MAX_BODY && chunk != [] then
        (out + [ZiPage(Some(count), chunk)], [ps[n]])
      else (out, chunk + [ps[n]])
  }

  function Flushed(extended: Option<nat>, zones: seq<ZonePair>): seq<ZiPage> {
    if zones == [] then [] else [ZiPage(extended, zones)]
  }

  /** The count of an extended page is sixteen bits. */
  function Chunks(ps: seq<ZonePair>): seq<ZiPage> {
    var (out, chunk) := ChunkFold(|ps| % 0x1_0000, ps);
    out + Flushed(Some(|ps| % 0x1_0000), chunk)
  }

  function ListOf(t: Table, net: U16): seq<ZonePair> { PairsOf(net, ZonesOf(t, net).names) }

  /** All the networks asked for, as (finished pages, page being filled). */
  function ZiFold(nets: seq<U16>, t: Table): (seq<ZiPage>, seq<ZonePair>) {
    if nets == [] then ([], [])
    else
      var n := |nets| - 1;
      var (out, page) := ZiFold(nets[..n], t);
      var list := ListOf(t, nets[n]);
      if list == [] then (out, page)
      else if PairsBytes(list) > MAX_BODY then (out + Flushed(None, page) + Chunks(list), [])
      else if PairsBytes(page) + PairsBytes(list) > MAX_BODY && page != [] then
        (out + [ZiPage(None, page)], list)
      else (out, page + list)
  }

  function ZiPages(nets: seq<U16>, t: Table): seq<ZiPage> {
    var (out, page) := ZiFold(nets, t);
    out + Flushed(None, page)
  }

  method ChunksLoop(ps: seq<ZonePair>) returns (out: seq<ZiPage>)
    ensures out == Chunks(ps)
  {
    var count := |ps| % 0x1_0000;
    var chunk: seq<ZonePair> := [];
    var chunked := 0;
    out := [];
    for i := 0 to |ps|
      invariant (out, chunk) == ChunkFold(count, ps[..i]) && chunked == PairsBytes(chunk)
    {
      assert ps[..i + 1][..i] == ps[..i];
      if chunked + PairBytes(ps[i]) > MAX_BODY && chunk != [] {
        out := out + [ZiPage(Some(count), chunk)];
        chunk := [];
        chunked := 0;
      }
      chunked := chunked + PairBytes(ps[i]);
      assert (chunk + [ps[i]])[..|chunk|] == chunk;
      chunk := chunk + [ps[i]];
    }
    assert ps[..|ps|] == ps;
    if chunk != [] {
      out := out + [ZiPage(Some(count), chunk)];
    }
  }

  method ZiPagesLoop(nets: seq<U16>, t: Table) returns (out: seq<ZiPage>)
    ensures out == ZiPages(nets, t)
  {
    var page: seq<ZonePair> := [];
    var used := 0;
    out := [];
    for i := 0 to |nets|
      invariant (out, page) == ZiFold(nets[..i], t) && used == PairsBytes(page)
    {
      assert nets[..i + 1][..i] == nets[..i];
      var list := ListOf(t, nets[i]);
      if list == [] {
        continue;
      }
      var total := PairsBytes(list);
      if total > MAX_BODY {
        ghost var flushed := out + Flushed(None, page);
        if page != [] {
          out := out + [ZiPage(None, page)];
          page := [];
          used := 0;
        } else {
          assert out + [] == out;
        }
        assert out == flushed;
        var chunks := ChunksLoop(list);
        out := out + chunks;
        continue;
      }
      if used + total > MAX_BODY && page != [] {
        out := out + [ZiPage(None, page)];
        page := [];
        used := 0;
      }
      PairsBytesConcat(page, list);
      used := used + total;
      assert [] + list == list;
      page := page + list;
    }
    assert nets[..|nets|] == nets;
    if page != [] {
      out := out + [ZiPage(None, page)];
    }
  }

  lemma {:induction false} PairsBytesConcat(a: seq<ZonePair>, b: seq<ZonePair>)
    ensures PairsBytes(a + b) == PairsBytes(a) + PairsBytes(b)
  {
    if b == [] {
      assert a + b == a;
    } else {
      assert (a + b)[..|a + b| - 1] == a + b[..|b| - 1];
      PairsBytesConcat(a, b[..|b| - 1]);
    }
  }

  // ------------------------------------------------------------- what the pages carry

  function ZonesIn(pages: seq<ZiPage>): seq<ZonePair> {
    if pages == [] then [] else ZonesIn(pages[..|pages| - 1]) + pages[|pages| - 1].zones
  }

  lemma {:induction false} ZonesInConcat(a: seq<ZiPage>, b: seq<ZiPage>)
    ensures ZonesIn(a + b) == ZonesIn(a) + ZonesIn(b)
  {
    if b == [] {
      assert a + b == a;
    } else {
      assert (a + b)[..|a + b| - 1] == a + b[..|b| - 1];
      ZonesInConcat(a, b[..|b| - 1]);
    }
  }

  lemma FlushedZones(extended: Option<nat>, zones: seq<ZonePair>)
    ensures ZonesIn(Flushed(extended, zones)) == zones
  {
    assert ZonesIn(Flushed(extended, zones)[..0]) == [];
  }

  /** Everything owed: the lists of the networks asked for, in the order asked. */
  function Owed(nets: seq<U16>, t: Table): seq<ZonePair> {
    if nets == [] then [] else Owed(nets[..|nets| - 1], t) + ListOf(t, nets[|nets| - 1])
  }

  /** The most bytes a length byte can count, so that no name read from a packet or the
      configuration is longer. */
  const LONGEST: nat := 255

  ghost predicate NamesFit(ps: seq<ZonePair>) { forall i :: 0 <= i < |ps| ==> |ps[i].1| <= LONGEST }

  /** A page that holds something, and no more than a packet may. */
  ghost predicate Fits(p: ZiPage) {
    p.zones != [] && WireBytes(p.zones) <= PairsBytes(p.zones) <= MAX_BODY
  }

  ghost predicate AllFit(pages: seq<ZiPage>) { forall i :: 0 <= i < |pages| ==> Fits(pages[i]) }

  ghost predicate AllCount(pages: seq<ZiPage>, count: Option<nat>) {
    forall i :: 0 <= i < |pages| ==> pages[i].extended == count
  }

  /** What splitting one long list has achieved after the names `ps`. */
  ghost predicate ChunkInv(count: nat, ps: seq<ZonePair>, out: seq<ZiPage>, chunk: seq<ZonePair>) {
    && ZonesIn(out) + chunk == ps && (ps != [] ==> chunk != [])
    && AllFit(out) && AllCount(out, Some(count)) && PairsBytes(chunk) <= MAX_BODY
  }

  lemma ChunkFlush(count: nat, ps: seq<ZonePair>, out: seq<ZiPage>, chunk: seq<ZonePair>, p: ZonePair)
    requires ChunkInv(count, ps, out, chunk) && chunk != [] && |p.1| <= LONGEST
    ensures ChunkInv(count, ps + [p], out + [ZiPage(Some(count), chunk)], [p])
  {
    WireIsNeverLonger(chunk);
    OnePair(p);
    StringLenBounds(p.1);
    assert (out + [ZiPage(Some(count), chunk)])[..|out|] == out;
    assert ZonesIn(out + [ZiPage(Some(count), chunk)]) == ZonesIn(out) + chunk;
  }

  lemma ChunkGrow(count: nat, ps: seq<ZonePair>, out: seq<ZiPage>, chunk: seq<ZonePair>, p: ZonePair)
    requires ChunkInv(count, ps, out, chunk) && |p.1| <= LONGEST
    requires PairsBytes(chunk) + PairBytes(p) <= MAX_BODY || chunk == []
    ensures ChunkInv(count, ps + [p], out, chunk + [p])
  {
    StringLenBounds(p.1);
    assert (chunk + [p])[..|chunk|] == chunk;
    assert ZonesIn(out) + (chunk + [p]) == ps + [p];
  }

  lemma {:induction false} ChunksAreExact(count: nat, ps: seq<ZonePair>)
    requires NamesFit(ps)
    ensures ChunkInv(count, ps, ChunkFold(count, ps).0, ChunkFold(count, ps).1)
  {
    if ps != [] {
      var n := |ps| - 1;
      ChunksAreExact(count, ps[..n]);
      var (out, chunk) := ChunkFold(count, ps[..n]);
      assert ps == ps[..n] + [ps[n]];
      if PairsBytes(chunk) + PairBytes(ps[n]) > MAX_BODY && chunk != [] {
        ChunkFlush(count, ps[..n], out, chunk, ps[n]);
      } else {
        ChunkGrow(count, ps[..n], out, chunk, ps[n]);
      }
    }
  }

  lemma OnePair(p: ZonePair)
    ensures PairsBytes([p]) == PairBytes(p)
  {
    assert PairsBytes([p][..0]) == 0;
  }

  lemma FlushedFits(extended: Option<nat>, zones: seq<ZonePair>)
    requires PairsBytes(zones) <= MAX_BODY
    ensures AllFit(Flushed(extended, zones)) && AllCount(Flushed(extended, zones), extended)
  {
    WireIsNeverLonger(zones);
  }

  lemma AllFitConcat(a: seq<ZiPage>, b: seq<ZiPage>)
    requires AllFit(a) && AllFit(b)
    ensures AllFit(a + b)
  {
  }

  /** A list too long for one packet goes out whole, in order, over pages that
      fit and that all announce the size of the whole list. */
  lemma ChunksMeaning(ps: seq<ZonePair>)
    requires NamesFit(ps)
    ensures ZonesIn(Chunks(ps)) == ps && AllFit(Chunks(ps))
    ensures AllCount(Chunks(ps), Some(|ps| % 0x1_0000))
  {
    var count := |ps| % 0x1_0000;
    ChunksAreExact(count, ps);
    var (out, chunk) := ChunkFold(count, ps);
    var last := Flushed(Some(count), chunk);
    ZonesInConcat(out, last);
    FlushedZones(Some(count), chunk);
    FlushedFits(Some(count), chunk);
    AllFitConcat(out, last);
  }

  ghost predicate ZonesFit(t: Table) {
    forall s :: s in t.zones ==> forall i :: 0 <= i < |t.zones[s].1.names| ==> |t.zones[s].1.names[i]| <= LONGEST
  }

  /** A page either belongs to a list that overflows a packet and announces that
      list's size, or is plain and holds every list it mentions whole. */
  ghost predicate WellPaged(t: Table, p: ZiPage) {
    match p.extended
    case None => exists nets: seq<U16> :: p.zones == Owed(nets, t)
    case Some(count) => exists net: U16 :: OverflowPage(t, net, p, count)
  }

  ghost predicate OverflowPage(t: Table, net: U16, p: ZiPage, count: nat) {
    && PairsBytes(ListOf(t, net)) > MAX_BODY
    && count == |ListOf(t, net)| % 0x1_0000
    && forall i :: 0 <= i < |p.zones| ==> p.zones[i] in ListOf(t, net)
  }

  ghost predicate AllWellPaged(t: Table, pages: seq<ZiPage>) {
    forall i :: 0 <= i < |pages| ==> WellPaged(t, pages[i])
  }

  lemma {:induction false} PageZonesAreIn(pages: seq<ZiPage>, p: ZiPage)
    requires p in pages
    ensures forall i :: 0 <= i < |p.zones| ==> p.zones[i] in ZonesIn(pages)
  {
    var n := |pages| - 1;
    if p != pages[n] {
      assert p in pages[..n];
      PageZonesAreIn(pages[..n], p);
    }
  }

  lemma OverflowIsWellPaged(t: Table, net: U16)
    requires NamesFit(ListOf(t, net)) && PairsBytes(ListOf(t, net)) > MAX_BODY
    ensures AllWellPaged(t, Chunks(ListOf(t, net)))
  {
    var list := ListOf(t, net);
    ChunksMeaning(list);
    forall i | 0 <= i < |Chunks(list)| ensures WellPaged(t, Chunks(list)[i]) {
      var p := Chunks(list)[i];
      PageZonesAreIn(Chunks(list), p);
      assert OverflowPage(t, net, p, p.extended.value);
    }
  }

  lemma {:induction false} OwedConcat(a: seq<U16>, b: seq<U16>, t: Table)
    ensures Owed(a + b, t) == Owed(a, t) + Owed(b, t)
  {
    if b == [] {
      assert a + b == a;
    } else {
      assert (a + b)[..|a + b| - 1] == a + b[..|b| - 1];
      OwedConcat(a, b[..|b| - 1], t);
    }
  }

  lemma PlainIsWellPaged(t: Table, nets: seq<U16>)
    ensures AllWellPaged(t, Flushed(None, Owed(nets, t)))
  {
  }

  lemma AllWellPagedConcat(t: Table, a: seq<ZiPage>, b: seq<ZiPage>)
    requires AllWellPaged(t, a) && AllWellPaged(t, b)
    ensures AllWellPaged(t, a + b)
  {
  }

  /** Appending pages to finished pages. */
  lemma Extend(t: Table, out: seq<ZiPage>, more: seq<ZiPage>)
    requires AllFit(out) && AllFit(more) && AllWellPaged(t, out) && AllWellPaged(t, more)
    ensures AllFit(out + more) && AllWellPaged(t, out + more)
    ensures ZonesIn(out + more) == ZonesIn(out) + ZonesIn(more)
  {
    AllFitConcat(out, more);
    AllWellPagedConcat(t, out, more);
    ZonesInConcat(out, more);
  }

  lemma ExtendPlain(t: Table, out: seq<ZiPage>, tail: seq<U16>)
    requires AllFit(out) && AllWellPaged(t, out) && PairsBytes(Owed(tail, t)) <= MAX_BODY
    ensures var all := out + Flushed(None, Owed(tail, t));
            AllFit(all) && AllWellPaged(t, all) && ZonesIn(all) == ZonesIn(out) + Owed(tail, t)
  {
    FlushedFits(None, Owed(tail, t));
    PlainIsWellPaged(t, tail);
    FlushedZones(None, Owed(tail, t));
    Extend(t, out, Flushed(None, Owed(tail, t)));
  }

  lemma OwedOne(net: U16, t: Table)
    ensures Owed([net], t) == ListOf(t, net)
  {
    assert Owed([net][..0], t) == [];
  }

  /** What paging has achieved after `nets`: the open page holds whole lists,
      those of the last few networks. */
  ghost predicate ZiInv(nets: seq<U16>, t: Table, out: seq<ZiPage>, page: seq<ZonePair>, tail: seq<U16>) {
    && ZonesIn(out) + page == Owed(nets, t)
    && AllFit(out) && AllWellPaged(t, out)
    && PairsBytes(page) <= MAX_BODY && page == Owed(tail, t)
  }

  lemma OwedSnoc(nets: seq<U16>, net: U16, t: Table)
    ensures Owed(nets + [net], t) == Owed(nets, t) + ListOf(t, net)
  {
    assert (nets + [net])[..|nets|] == nets;
  }

  lemma ZiOverflow(nets: seq<U16>, t: Table, out: seq<ZiPage>, page: seq<ZonePair>, tail: seq<U16>, net: U16)
    requires ZiInv(nets, t, out, page, tail)
    requires NamesFit(ListOf(t, net)) && PairsBytes(ListOf(t, net)) > MAX_BODY
    ensures ZiInv(nets + [net], t, out + Flushed(None, page) + Chunks(ListOf(t, net)), [], [])
  {
    OwedSnoc(nets, net, t);
    ChunksMeaning(ListOf(t, net));
    OverflowIsWellPaged(t, net);
    ExtendPlain(t, out, tail);
    Extend(t, out + Flushed(None, page), Chunks(ListOf(t, net)));
  }

  lemma ZiFlush(nets: seq<U16>, t: Table, out: seq<ZiPage>, page: seq<ZonePair>, tail: seq<U16>, net: U16)
    requires ZiInv(nets, t, out, page, tail) && page != []
    requires PairsBytes(ListOf(t, net)) <= MAX_BODY
    ensures ZiInv(nets + [net], t, out + [ZiPage(None, page)], ListOf(t, net), [net])
  {
    OwedSnoc(nets, net, t);
    OwedOne(net, t);
    ExtendPlain(t, out, tail);
    assert Flushed(None, page) == [ZiPage(None, page)];
  }

  lemma ZiGrow(nets: seq<U16>, t: Table, out: seq<ZiPage>, page: seq<ZonePair>, tail: seq<U16>, net: U16)
    requires ZiInv(nets, t, out, page, tail)
    requires PairsBytes(page) + PairsBytes(ListOf(t, net)) <= MAX_BODY
    ensures ZiInv(nets + [net], t, out, page + ListOf(t, net), tail + [net])
  {
    OwedSnoc(nets, net, t);
    OwedSnoc(tail, net, t);
    PairsBytesConcat(page, ListOf(t, net));
    hide ZonesIn, PairsBytes, AllFit, AllWellPaged, Owed, ListOf;
    assert ZonesIn(out) + (page + ListOf(t, net)) == ZonesIn(out) + page + ListOf(t, net);
  }

  lemma {:induction false} ZiFoldIsExact(nets: seq<U16>, t: Table) returns (tail: seq<U16>)
    requires ZonesFit(t)
    ensures ZiInv(nets, t, ZiFold(nets, t).0, ZiFold(nets, t).1, tail)
  {
    if nets == [] {
      tail := [];
    } else {
      var n := |nets| - 1;
      tail := ZiFoldIsExact(nets[..n], t);
      var (out, page) := ZiFold(nets[..n], t);
      var list := ListOf(t, nets[n]);
      assert nets == nets[..n] + [nets[n]];
      if list == [] {
        OwedSnoc(nets[..n], nets[n], t);
      } else if PairsBytes(list) > MAX_BODY {
        ZiOverflow(nets[..n], t, out, page, tail, nets[n]);
        tail := [];
      } else if PairsBytes(page) + PairsBytes(list) > MAX_BODY && page != [] {
        ZiFlush(nets[..n], t, out, page, tail, nets[n]);
        tail := [nets[n]];
      } else {
        ZiGrow(nets[..n], t, out, page, tail, nets[n]);
        tail := tail + [nets[n]];
      }
    }
  }

  /** The ZI-Rsp packets for some networks carry exactly the zone lists of those
      networks, in order; each packet fits; and a plain packet holds whole lists. */
  lemma ZiPagesAreExact(nets: seq<U16>, t: Table)
    requires ZonesFit(t)
    ensures ZonesIn(ZiPages(nets, t)) == Owed(nets, t)
    ensures AllFit(ZiPages(nets, t)) && AllWellPaged(t, ZiPages(nets, t))
  {
    var tail := ZiFoldIsExact(nets, t);
    ExtendPlain(t, ZiFold(nets, t).0, tail);
  }
}
