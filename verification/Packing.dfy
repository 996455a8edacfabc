/** Packets are filled before the next is begun: none of them would have taken the first
    thing in the one that follows, so what is sent goes out in as few as its order allows. */
module Packing {
  import opened Wire
  import opened Table
  import opened Paging
  import ZipReplies
  import TupleCodec

  /** The packet at `i` begins with something the one before it had no room for. */
  ghost predicate Needed<T>(packets: seq<seq<T>>, all: seq<T> -> nat, one: T -> nat, max: nat, i: nat)
    requires 0 < i < |packets|
  {
    packets[i] != [] && all(packets[i - 1]) + one(packets[i][0]) > max
  }

  ghost predicate Tight<T>(packets: seq<seq<T>>, all: seq<T> -> nat, one: T -> nat, max: nat) {
    forall i :: 0 < i < |packets| ==> Needed(packets, all, one, max, i)
  }

  lemma Another<T>(packets: seq<seq<T>>, all: seq<T> -> nat, one: T -> nat, max: nat, x: T)
    requires packets != [] && Tight(packets, all, one, max) && all(packets[|packets| - 1]) + one(x) > max
    ensures Tight(packets + [[x]], all, one, max)
  {
    var more := packets + [[x]];
    forall i | 0 < i < |more| ensures Needed(more, all, one, max, i) {
      if i < |packets| { assert Needed(packets, all, one, max, i); }
    }
  }

  lemma OneMore<T>(packets: seq<seq<T>>, last: seq<T>, all: seq<T> -> nat, one: T -> nat, max: nat, x: T)
    requires Tight(packets + [last], all, one, max) && (last == [] ==> packets == [])
    ensures Tight(packets + [last + [x]], all, one, max)
  {
    var was, more := packets + [last], packets + [last + [x]];
    forall i | 0 < i < |more| ensures Needed(more, all, one, max, i) { assert Needed(was, all, one, max, i); }
  }

  // ------------------------------------------------------------- pages of tuples

  lemma {:induction false} SplitFoldIsTight(ts: seq<NetworkTuple>)
    ensures Tight(SplitFold(ts).0, TuplesBytes, TupleBytes, 1400)
  {
    if ts != [] {
      var n := |ts| - 1;
      SplitFoldIsTight(ts[..n]);
      SplitFoldIsExact(ts[..n]);
      var (pages, used) := SplitFold(ts[..n]);
      var k := |pages| - 1;
      assert SplitInv(ts[..n], pages, used);
      hide Tight, TuplesBytes, Joined;
      if used + TupleBytes(ts[n]) > MAX_BODY {
        Another(pages, TuplesBytes, TupleBytes, 1400, ts[n]);
      } else {
        assert pages == pages[..k] + [pages[k]];
        assert pages[k := pages[k] + [ts[n]]] == pages[..k] + [pages[k] + [ts[n]]];
        OneMore(pages[..k], pages[k], TuplesBytes, TupleBytes, 1400, ts[n]);
      }
    }
  }

  /** Every RI-Rsp page but the last is too full, at 1400 bytes, for the next tuple. */
  lemma PagesAreFull(ts: seq<NetworkTuple>, i: nat)
    requires 0 < i < |SplitTuples(ts)|
    ensures SplitTuples(ts)[i] != [] && TuplesBytes(SplitTuples(ts)[i - 1]) + TupleBytes(SplitTuples(ts)[i][0]) > 1400
  {
    SplitFoldIsTight(ts);
    assert Needed(SplitFold(ts).0, TuplesBytes, TupleBytes, 1400, i);
  }

  lemma BeginsTight<T>(first: seq<T>, all: seq<T> -> nat, one: T -> nat, max: nat)
    ensures Tight([] + [first], all, one, max)
  {
  }

  lemma {:induction false} BeaconFoldIsTight(base: nat, ts: seq<NetworkTuple>)
    requires base <= 10
    ensures var (out, batch) := TupleCodec.ChunkTuples(base, ts);
            Tight(out + [batch], TuplesBytes, TupleBytes, 586 - base) && (batch == [] ==> out == [])
  {
    hide Tight, TuplesBytes;
    if ts == [] {
      BeginsTight<NetworkTuple>([], TuplesBytes, TupleBytes, 586 - base);
    } else {
      var n := |ts| - 1;
      BeaconFoldIsTight(base, ts[..n]);
      var (out, batch) := TupleCodec.ChunkTuples(base, ts[..n]);
      if base + TuplesBytes(batch) + TupleBytes(ts[n]) > TupleCodec.DDP_MAX && batch != [] {
        Another(out + [batch], TuplesBytes, TupleBytes, 586 - base, ts[n]);
      } else {
        OneMore(out, batch, TuplesBytes, TupleBytes, 586 - base, ts[n]);
      }
    }
  }

  /** So is every packet of a beacon, at 586 bytes behind its sender and range. */
  lemma BeaconsAreFull(range: Option<Range>, ts: seq<NetworkTuple>, i: nat)
    requires 0 < i < |TupleCodec.Chunk(range, ts)|
    ensures var packets := TupleCodec.Chunk(range, ts);
            packets[i] != [] && 4 + (if range.Some? then 6 else 3) + TuplesBytes(packets[i - 1]) + TupleBytes(packets[i][0]) > 586
  {
    BeaconFoldIsTight(TupleCodec.BaseBytes(range), ts);
    assert Needed(TupleCodec.Chunk(range, ts), TuplesBytes, TupleBytes, 586 - TupleCodec.BaseBytes(range), i);
  }

  // ------------------------------------------------------------- one long list

  function Zones(pages: seq<ZiPage>): seq<seq<ZonePair>> {
    seq(|pages|, i requires 0 <= i < |pages| => pages[i].zones)
  }

  lemma {:induction false} ChunkFoldIsTight(count: nat, ps: seq<ZonePair>)
    ensures var (out, chunk) := ChunkFold(count, ps);
            Tight(Zones(out) + [chunk], PairsBytes, PairBytes, 1400) && (chunk == [] ==> out == [])
  {
    if ps != [] {
      var n := |ps| - 1;
      ChunkFoldIsTight(count, ps[..n]);
      var (out, chunk) := ChunkFold(count, ps[..n]);
      hide Tight, PairsBytes;
      if PairsBytes(chunk) + PairBytes(ps[n]) > MAX_BODY && chunk != [] {
        Another(Zones(out) + [chunk], PairsBytes, PairBytes, 1400, ps[n]);
        assert Zones(out + [ZiPage(Some(count), chunk)]) == Zones(out) + [chunk];
      } else {
        OneMore(Zones(out), chunk, PairsBytes, PairBytes, 1400, ps[n]);
      }
    }
  }

  lemma FullBefore(pages: seq<ZiPage>, all: seq<ZonePair> -> nat, one: ZonePair -> nat, max: nat, i: nat)
    requires Tight(Zones(pages), all, one, max) && 0 < i < |pages|
    ensures pages[i].zones != [] && all(pages[i - 1].zones) + one(pages[i].zones[0]) > max
  {
    assert Needed(Zones(pages), all, one, max, i);
  }

  lemma FlushedIsTight(out: seq<ZiPage>, last: seq<ZonePair>, extended: Option<nat>,
                       all: seq<ZonePair> -> nat, one: ZonePair -> nat, max: nat)
    requires Tight(Zones(out) + [last], all, one, max) && (last == [] ==> out == [])
    ensures Tight(Zones(out + Flushed(extended, last)), all, one, max)
  {
    if last != [] { assert Zones(out + Flushed(extended, last)) == Zones(out) + [last]; }
  }

  /** A long list fills every ZI-Rsp packet it goes out in but the last. */
  lemma ChunksAreFull(ps: seq<ZonePair>, i: nat)
    requires 0 < i < |Chunks(ps)|
    ensures Chunks(ps)[i].zones != [] && PairsBytes(Chunks(ps)[i - 1].zones) + PairBytes(Chunks(ps)[i].zones[0]) > 1400
  {
    hide ChunkFold, PairsBytes, PairBytes, Tight, Zones, Flushed;
    var count := |ps| % 0x1_0000;
    ChunkFoldIsTight(count, ps);
    FlushedIsTight(ChunkFold(count, ps).0, ChunkFold(count, ps).1, Some(count), PairsBytes, PairBytes, 1400);
    FullBefore(Chunks(ps), PairsBytes, PairBytes, 1400, i);
  }

  lemma {:induction false} PageFoldIsTight(total: nat, ps: seq<ZonePair>)
    ensures var (out, batch) := ZipReplies.PageFold(total, ps);
            Tight(Zones(out) + [batch], ZipReplies.EntriesBytes, ZipReplies.EntryBytes, 584) && (batch == [] ==> out == [])
  {
    if ps != [] {
      var n := |ps| - 1;
      PageFoldIsTight(total, ps[..n]);
      var (out, batch) := ZipReplies.PageFold(total, ps[..n]);
      hide Tight, ZipReplies.EntriesBytes;
      if ZipReplies.ZIP_HEAD + ZipReplies.EntriesBytes(batch) + ZipReplies.EntryBytes(ps[n]) > ZipReplies.DDP_MAX && batch != [] {
        Another(Zones(out) + [batch], ZipReplies.EntriesBytes, ZipReplies.EntryBytes, 584, ps[n]);
        assert Zones(out + [ZiPage(Some(total), batch)]) == Zones(out) + [batch];
      } else {
        OneMore(Zones(out), batch, ZipReplies.EntriesBytes, ZipReplies.EntryBytes, 584, ps[n]);
      }
    }
  }

  /** And every Extended Reply. */
  lemma ExtendedRepliesAreFull(ps: seq<ZonePair>, i: nat)
    requires 0 < i < |ZipReplies.Pages(ps)|
    ensures var pages := ZipReplies.Pages(ps);
            pages[i].zones != []
            && 2 + ZipReplies.EntriesBytes(pages[i - 1].zones) + ZipReplies.EntryBytes(pages[i].zones[0]) > 586
  {
    hide ZipReplies.PageFold, ZipReplies.EntriesBytes, ZipReplies.EntryBytes, Tight, Zones, Flushed;
    var total := ZipReplies.Total(|ps|);
    var (out, batch) := ZipReplies.PageFold(total, ps);
    PageFoldIsTight(total, ps);
    FlushedIsTight(out, batch, Some(total), ZipReplies.EntriesBytes, ZipReplies.EntryBytes, 584);
    FullBefore(ZipReplies.Pages(ps), ZipReplies.EntriesBytes, ZipReplies.EntryBytes, 584, i);
  }

  // ------------------------------------------------------------- whole lists

  /** Of two plain packets in a row, the second begins with a list that the first had no
      room for. */
  ghost predicate ListNeeded(t: Table, pages: seq<ZiPage>, all: seq<ZonePair> -> nat, max: nat, i: nat)
    requires 0 < i < |pages|
  {
    pages[i - 1].extended.None? && pages[i].extended.None? ==>
      pages[i].zones != [] && all(pages[i - 1].zones) + all(ListOf(t, pages[i].zones[0].0)) > max
  }

  /** So throughout, and a packet is begun only behind one that announces its own list. */
  ghost predicate ListsTight(t: Table, out: seq<ZiPage>, page: seq<ZonePair>, all: seq<ZonePair> -> nat, max: nat) {
    && (forall i :: 0 < i < |out + Flushed(None, page)| ==> ListNeeded(t, out + Flushed(None, page), all, max, i))
    && (page == [] && out != [] ==> out[|out| - 1].extended.Some?)
  }

  lemma ListStarts(t: Table, net: U16)
    requires ListOf(t, net) != []
    ensures ListOf(t, net)[0].0 == net
  {
  }

  lemma LongList(t: Table, out: seq<ZiPage>, page: seq<ZonePair>, all: seq<ZonePair> -> nat, max: nat, long: seq<ZiPage>, count: nat)
    requires ListsTight(t, out, page, all, max) && long != [] && AllCount(long, Some(count))
    ensures ListsTight(t, out + Flushed(None, page) + long, [], all, max)
  {
    var was := out + Flushed(None, page);
    var more := was + long + Flushed(None, []);
    forall i | 0 < i < |more| ensures ListNeeded(t, more, all, max, i) {
      if i < |was| { assert ListNeeded(t, was, all, max, i); }
    }
  }

  lemma ListAnother(t: Table, out: seq<ZiPage>, page: seq<ZonePair>, all: seq<ZonePair> -> nat, max: nat, net: U16)
    requires ListsTight(t, out, page, all, max) && page != [] && ListOf(t, net) != []
    requires all(page) + all(ListOf(t, net)) > max
    ensures ListsTight(t, out + [ZiPage(None, page)], ListOf(t, net), all, max)
  {
    ListStarts(t, net);
    hide ListOf;
    var was := out + Flushed(None, page);
    var more := out + [ZiPage(None, page)] + Flushed(None, ListOf(t, net));
    forall i | 0 < i < |more| ensures ListNeeded(t, more, all, max, i) {
      if i < |was| { assert ListNeeded(t, was, all, max, i); }
    }
  }

  lemma ListJoins(t: Table, out: seq<ZiPage>, page: seq<ZonePair>, all: seq<ZonePair> -> nat, max: nat, net: U16)
    requires ListsTight(t, out, page, all, max)
    ensures ListsTight(t, out, page + ListOf(t, net), all, max)
  {
    var list := ListOf(t, net);
    var was, more := out + Flushed(None, page), out + Flushed(None, page + list);
    forall i | 0 < i < |more| ensures ListNeeded(t, more, all, max, i) {
      if i < |was| { assert ListNeeded(t, was, all, max, i); }
    }
  }

  lemma {:induction false} ZiFoldIsTight(nets: seq<U16>, t: Table)
    requires ZonesFit(t)
    ensures ListsTight(t, ZiFold(nets, t).0, ZiFold(nets, t).1, PairsBytes, 1400)
  {
    if nets != [] {
      var n := |nets| - 1;
      ZiFoldIsTight(nets[..n], t);
      var (out, page) := ZiFold(nets[..n], t);
      var list := ListOf(t, nets[n]);
      hide ListsTight, PairsBytes;
      if list == [] {
      } else if PairsBytes(list) > MAX_BODY {
        ChunksMeaning(list);
        ChunksOfSome(list);
        LongList(t, out, page, PairsBytes, 1400, Chunks(list), |list| % 0x1_0000);
      } else if PairsBytes(page) + PairsBytes(list) > MAX_BODY && page != [] {
        ListAnother(t, out, page, PairsBytes, 1400, nets[n]);
      } else {
        ListJoins(t, out, page, PairsBytes, 1400, nets[n]);
      }
    }
  }

  lemma ChunksOfSome(ps: seq<ZonePair>)
    requires ps != [] && NamesFit(ps)
    ensures Chunks(ps) != []
  {
    ChunksMeaning(ps);
    assert ZonesIn([]) == [];
  }

  /** Of two plain ZI-Rsp packets in a row, the first had no room at 1400 bytes for the
      list the second begins with. */
  lemma PlainPacketsAreFull(nets: seq<U16>, t: Table, i: nat)
    requires ZonesFit(t) && 0 < i < |ZiPages(nets, t)|
    requires ZiPages(nets, t)[i - 1].extended.None? && ZiPages(nets, t)[i].extended.None?
    ensures var pages := ZiPages(nets, t);
            pages[i].zones != [] && PairsBytes(pages[i - 1].zones) + PairsBytes(ListOf(t, pages[i].zones[0].0)) > 1400
  {
    ZiFoldIsTight(nets, t);
    assert ListNeeded(t, ZiPages(nets, t), PairsBytes, 1400, i);
  }

  lemma {:induction false} QueryFoldIsTight(nets: seq<U16>, t: Table)
    ensures ListsTight(t, ZipReplies.QueryFold(nets, t).0, ZipReplies.QueryFold(nets, t).1, ZipReplies.EntriesBytes, 584)
  {
    if nets != [] {
      var n := |nets| - 1;
      QueryFoldIsTight(nets[..n], t);
      var (out, batch) := ZipReplies.QueryFold(nets[..n], t);
      var list := ListOf(t, nets[n]);
      hide ListsTight, ZipReplies.EntriesBytes, ZipReplies.Pages;
      if !ZonesComplete(t, nets[n]) {
      } else if ZipReplies.Alone(list) {
        ZipReplies.PagesAreExact(list);
        PagesOfSome(list);
        LongList(t, out, batch, ZipReplies.EntriesBytes, 584, ZipReplies.Pages(list), ZipReplies.Total(|list|));
      } else if batch != [] && ZipReplies.ZIP_HEAD + ZipReplies.EntriesBytes(batch) + ZipReplies.EntriesBytes(list) > ZipReplies.DDP_MAX {
        CompleteHasNames(t, nets[n]);
        ListAnother(t, out, batch, ZipReplies.EntriesBytes, 584, nets[n]);
      } else {
        ListJoins(t, out, batch, ZipReplies.EntriesBytes, 584, nets[n]);
      }
    }
  }

  lemma CompleteHasNames(t: Table, net: U16)
    ensures ZonesComplete(t, net) ==> ListOf(t, net) != []
  {
  }

  lemma PagesOfSome(ps: seq<ZonePair>)
    requires ZipReplies.Alone(ps)
    ensures ZipReplies.Pages(ps) != []
  {
    ZipReplies.PagesAreExact(ps);
    assert ZonesIn([]) == [];
    ZipReplies.NoEntries();
  }

  /** The same of two plain Replies to a Query, at 586 bytes. */
  lemma PlainRepliesAreFull(nets: seq<U16>, t: Table, i: nat)
    requires 0 < i < |ZipReplies.QueryReply(nets, t)|
    requires ZipReplies.QueryReply(nets, t)[i - 1].extended.None? && ZipReplies.QueryReply(nets, t)[i].extended.None?
    ensures var replies := ZipReplies.QueryReply(nets, t);
            replies[i].zones != []
            && 2 + ZipReplies.EntriesBytes(replies[i - 1].zones) + ZipReplies.EntriesBytes(ListOf(t, replies[i].zones[0].0)) > 586
  {
    QueryFoldIsTight(nets, t);
    assert ListNeeded(t, ZipReplies.QueryReply(nets, t), ZipReplies.EntriesBytes, 584, i);
  }
}
