/** Zone lists between routers on a cable: a ZIP Query is answered with whole lists
    in plain Replies, or with one long list over Extended Replies, and the asker
    knows when it has them all. */
module ZipReplies {
  import opened Wire
  import opened Table
  import opened Paging
  import opened Aurp

  /** The data limit of a datagram. */
  const DDP_MAX: nat := 586

  /** A Reply's function and count bytes. */
  const ZIP_HEAD: nat := 2

  /** The count is one byte; a longer list announces 255. */
  const MAX_TOTAL: nat := 255

  function Total(n: nat): nat { if n <= MAX_TOTAL then n else MAX_TOTAL }

  /** What the server counts for one entry of a Reply. */
  function EntryBytes(p: ZonePair): nat { 3 + if StringLen(p.1) < 32 then StringLen(p.1) else 32 }

  function EntriesBytes(ps: seq<ZonePair>): nat {
    if ps == [] then 0 else EntriesBytes(ps[..|ps| - 1]) + EntryBytes(ps[|ps| - 1])
  }

  // ------------------------------------------------------------- Extended Replies

  /** One network's list, as (finished pages, page being filled). */
  function PageFold(total: nat, ps: seq<ZonePair>): (seq<ZiPage>, seq<ZonePair>) {
    if ps == [] then ([], [])
    else
      var n := |ps| - 1;
      var (out, batch) := PageFold(total, ps[..n]);
      if ZIP_HEAD + EntriesBytes(batch) + EntryBytes(ps[n]) > DDP_MAX && batch != [] then
        (out + [ZiPage(Some(total), batch)], [ps[n]])
      else (out, batch + [ps[n]])
  }

  /** The pages of one list, each with the count for all of them. */
  function Pages(ps: seq<ZonePair>): seq<ZiPage> {
    var (out, batch) := PageFold(Total(|ps|), ps);
    out + Flushed(Some(Total(|ps|)), batch)
  }

  method PagesLoop(ps: seq<ZonePair>) returns (out: seq<ZiPage>)
    ensures out == Pages(ps)
  {
    var total := Total(|ps|);
    var batch: seq<ZonePair> := [];
    var size := ZIP_HEAD;
    out := [];
    for i := 0 to |ps|
      invariant (out, batch) == PageFold(total, ps[..i]) && size == ZIP_HEAD + EntriesBytes(batch)
    {
      assert ps[..i + 1][..i] == ps[..i];
      var n := EntryBytes(ps[i]);
      if size + n > DDP_MAX && batch != [] {
        out := out + [ZiPage(Some(total), batch)];
        batch := [];
        size := ZIP_HEAD;
      }
      size := size + n;
      EntriesSnoc(batch, ps[i]);
      batch := batch + [ps[i]];
    }
    assert ps[..|ps|] == ps;
    if batch != [] { out := out + [ZiPage(Some(total), batch)]; }
  }

  lemma EntriesSnoc(ps: seq<ZonePair>, p: ZonePair)
    ensures EntriesBytes(ps + [p]) == EntriesBytes(ps) + EntryBytes(p)
  {
    assert (ps + [p])[..|ps|] == ps;
  }

  /** A Reply that holds something, and no more than a datagram may. */
  ghost predicate ReplyFits(p: ZiPage) { p.zones != [] && ZIP_HEAD + EntriesBytes(p.zones) <= DDP_MAX }

  ghost predicate RepliesFit(ps: seq<ZiPage>) { forall i :: 0 <= i < |ps| ==> ReplyFits(ps[i]) }

  /** The server's measure is never less than what goes on the wire. */
  lemma {:induction false} WireFits(ps: seq<ZonePair>)
    ensures WireBytes(ps) <= EntriesBytes(ps)
  {
    if ps != [] {
      WireFits(ps[..|ps| - 1]);
      StringLenBounds(ps[|ps| - 1].1);
    }
  }

  lemma ZonesSnoc(out: seq<ZiPage>, p: ZiPage)
    ensures ZonesIn(out + [p]) == ZonesIn(out) + p.zones
  {
    assert (out + [p])[..|out|] == out;
  }

  /** What splitting one list has achieved after the entries `ps`. */
  ghost predicate PageInv(total: nat, ps: seq<ZonePair>, out: seq<ZiPage>, batch: seq<ZonePair>) {
    && ZonesIn(out) + batch == ps && (ps != [] ==> batch != [])
    && RepliesFit(out) && AllCount(out, Some(total)) && ZIP_HEAD + EntriesBytes(batch) <= DDP_MAX
  }

  lemma PageFlush(total: nat, ps: seq<ZonePair>, out: seq<ZiPage>, batch: seq<ZonePair>, p: ZonePair)
    requires PageInv(total, ps, out, batch) && batch != []
    ensures PageInv(total, ps + [p], out + [ZiPage(Some(total), batch)], [p])
  {
    hide ZonesIn, EntriesBytes;
    ZonesSnoc(out, ZiPage(Some(total), batch));
    OneEntry(p);
  }

  lemma OneEntry(p: ZonePair)
    ensures EntriesBytes([p]) == EntryBytes(p) <= 35
  {
    EntriesSnoc([], p);
    assert [] + [p] == [p];
  }

  lemma PageGrow(total: nat, ps: seq<ZonePair>, out: seq<ZiPage>, batch: seq<ZonePair>, p: ZonePair)
    requires PageInv(total, ps, out, batch) && ZIP_HEAD + EntriesBytes(batch) + EntryBytes(p) <= DDP_MAX
    ensures PageInv(total, ps + [p], out, batch + [p])
  {
    hide ZonesIn, EntriesBytes;
    EntriesSnoc(batch, p);
    assert ZonesIn(out) + (batch + [p]) == ps + [p];
  }

  lemma {:induction false} PageFoldIsExact(total: nat, ps: seq<ZonePair>)
    ensures PageInv(total, ps, PageFold(total, ps).0, PageFold(total, ps).1)
  {
    if ps != [] {
      var first, p := ps[..|ps| - 1], ps[|ps| - 1];
      PageFoldIsExact(total, first);
      var (out, batch) := PageFold(total, first);
      assert ps == first + [p];
      hide PageInv, EntriesBytes;
      if ZIP_HEAD + EntriesBytes(batch) + EntryBytes(p) > DDP_MAX && batch != [] {
        PageFlush(total, first, out, batch, p);
      } else {
        if batch == [] { NoEntries(); }
        PageGrow(total, first, out, batch, p);
      }
    }
  }

  lemma NoEntries()
    ensures EntriesBytes([]) == 0
  {
  }

  lemma FlushedReply(extended: Option<nat>, batch: seq<ZonePair>)
    requires ZIP_HEAD + EntriesBytes(batch) <= DDP_MAX
    ensures var last := Flushed(extended, batch);
            RepliesFit(last) && AllCount(last, extended) && ZonesIn(last) == batch
  {
    FlushedZones(extended, batch);
  }

  lemma RepliesConcat(a: seq<ZiPage>, b: seq<ZiPage>)
    requires RepliesFit(a) && RepliesFit(b)
    ensures RepliesFit(a + b) && ZonesIn(a + b) == ZonesIn(a) + ZonesIn(b)
  {
    ZonesInConcat(a, b);
  }

  /** One list over Extended Replies: whole, in order, every page fitting its
      datagram and announcing the list's size. */
  lemma PagesAreExact(ps: seq<ZonePair>)
    ensures ZonesIn(Pages(ps)) == ps && RepliesFit(Pages(ps)) && AllCount(Pages(ps), Some(Total(|ps|)))
  {
    var total := Total(|ps|);
    PageFoldIsExact(total, ps);
    var (out, batch) := PageFold(total, ps);
    hide PageFold, ZonesIn, EntriesBytes, RepliesFit;
    FlushedReply(Some(total), batch);
    RepliesConcat(out, Flushed(Some(total), batch));
  }

  // ------------------------------------------------------------- answering a Query

  /** A list that needs more than one Reply. */
  predicate Alone(list: seq<ZonePair>) { ZIP_HEAD + EntriesBytes(list) > DDP_MAX }

  /** The networks asked for, as (finished Replies, Reply being filled). */
  function QueryFold(nets: seq<U16>, t: Table): (seq<ZiPage>, seq<ZonePair>) {
    if nets == [] then ([], [])
    else
      var n := |nets| - 1;
      var (out, batch) := QueryFold(nets[..n], t);
      var list := ListOf(t, nets[n]);
      if !ZonesComplete(t, nets[n]) then (out, batch)
      else if Alone(list) then (out + Flushed(None, batch) + Pages(list), [])
      else if batch != [] && ZIP_HEAD + EntriesBytes(batch) + EntriesBytes(list) > DDP_MAX then
        (out + [ZiPage(None, batch)], list)
      else (out, batch + list)
  }

  function QueryReply(nets: seq<U16>, t: Table): seq<ZiPage> {
    var (out, batch) := QueryFold(nets, t);
    out + Flushed(None, batch)
  }

  method QueryReplyLoop(nets: seq<U16>, t: Table) returns (replies: seq<ZiPage>)
    ensures replies == QueryReply(nets, t)
  {
    var batch: seq<ZonePair> := [];
    var size := ZIP_HEAD;
    replies := [];
    for i := 0 to |nets|
      invariant (replies, batch) == QueryFold(nets[..i], t) && size == ZIP_HEAD + EntriesBytes(batch)
    {
      assert nets[..i + 1][..i] == nets[..i];
      if !ZonesComplete(t, nets[i]) { continue; }
      var list := ListOf(t, nets[i]);
      var bytes := EntriesBytes(list);
      var alone := ZIP_HEAD + bytes > DDP_MAX;
      ghost var was := replies + Flushed(None, batch);
      assert batch == [] ==> replies == was;
      if batch != [] && (alone || size + bytes > DDP_MAX) {
        replies := replies + [ZiPage(None, batch)];
        batch := [];
        size := ZIP_HEAD;
      }
      if alone {
        assert replies == was;
        var pages := PagesLoop(list);
        replies := replies + pages;
        continue;
      }
      EntriesConcat(batch, list);
      assert [] + list == list;
      batch := batch + list;
      size := size + bytes;
    }
    assert nets[..|nets|] == nets;
    if batch != [] { replies := replies + [ZiPage(None, batch)]; }
  }

  lemma {:induction false} EntriesConcat(a: seq<ZonePair>, b: seq<ZonePair>)
    ensures EntriesBytes(a + b) == EntriesBytes(a) + EntriesBytes(b)
  {
    if b == [] {
      assert a + b == a;
    } else {
      assert (a + b)[..|a + b| - 1] == a + b[..|b| - 1];
      EntriesConcat(a, b[..|b| - 1]);
    }
  }

  /** Only complete lists are given out. */
  function Known(nets: seq<U16>, t: Table): seq<U16> {
    if nets == [] then []
    else
      var n := |nets| - 1;
      Known(nets[..n], t) + if ZonesComplete(t, nets[n]) then [nets[n]] else []
  }

  /** A plain Reply holds whole lists; an Extended one part of a list too long for
      one, and its size. */
  ghost predicate WellReplied(t: Table, p: ZiPage) {
    match p.extended
    case None => exists nets: seq<U16> :: p.zones == Owed(nets, t)
    case Some(total) => exists net: U16 :: PartOf(t, net, p, total)
  }

  ghost predicate PartOf(t: Table, net: U16, p: ZiPage, total: nat) {
    && Alone(ListOf(t, net)) && total == Total(|ListOf(t, net)|)
    && forall i :: 0 <= i < |p.zones| ==> p.zones[i] in ListOf(t, net)
  }

  ghost predicate AllWellReplied(t: Table, ps: seq<ZiPage>) { forall i :: 0 <= i < |ps| ==> WellReplied(t, ps[i]) }

  /** What answering has achieved after `nets`: the open Reply holds whole lists,
      those of `tail`. */
  ghost predicate QueryInv(nets: seq<U16>, t: Table, out: seq<ZiPage>, batch: seq<ZonePair>, tail: seq<U16>) {
    && ZonesIn(out) + batch == Owed(Known(nets, t), t)
    && RepliesFit(out) && AllWellReplied(t, out)
    && ZIP_HEAD + EntriesBytes(batch) <= DDP_MAX && batch == Owed(tail, t)
  }

  lemma KnownSnoc(nets: seq<U16>, net: U16, t: Table)
    requires ZonesComplete(t, net)
    ensures Known(nets + [net], t) == Known(nets, t) + [net]
    ensures Owed(Known(nets + [net], t), t) == Owed(Known(nets, t), t) + ListOf(t, net)
  {
    assert (nets + [net])[..|nets|] == nets;
    OwedSnoc(Known(nets, t), net, t);
  }

  lemma KnownSkip(nets: seq<U16>, net: U16, t: Table)
    requires !ZonesComplete(t, net)
    ensures Known(nets + [net], t) == Known(nets, t)
  {
    assert (nets + [net])[..|nets|] == nets;
  }

  lemma PlainGoesOut(t: Table, out: seq<ZiPage>, tail: seq<U16>)
    requires RepliesFit(out) && AllWellReplied(t, out) && ZIP_HEAD + EntriesBytes(Owed(tail, t)) <= DDP_MAX
    ensures var all := out + Flushed(None, Owed(tail, t));
            RepliesFit(all) && AllWellReplied(t, all) && ZonesIn(all) == ZonesIn(out) + Owed(tail, t)
  {
    hide ZonesIn, EntriesBytes, RepliesFit;
    FlushedReply(None, Owed(tail, t));
    RepliesConcat(out, Flushed(None, Owed(tail, t)));
    assert WellReplied(t, ZiPage(None, Owed(tail, t)));
  }

  lemma LongGoesOut(t: Table, out: seq<ZiPage>, net: U16)
    requires RepliesFit(out) && AllWellReplied(t, out) && Alone(ListOf(t, net))
    ensures var all := out + Pages(ListOf(t, net));
            RepliesFit(all) && AllWellReplied(t, all) && ZonesIn(all) == ZonesIn(out) + ListOf(t, net)
  {
    hide ZonesIn, EntriesBytes, RepliesFit, Pages;
    var pages := Pages(ListOf(t, net));
    PagesAreExact(ListOf(t, net));
    RepliesConcat(out, pages);
    forall i | 0 <= i < |pages| ensures WellReplied(t, pages[i]) {
      PageZonesAreIn(pages, pages[i]);
      assert PartOf(t, net, pages[i], pages[i].extended.value);
    }
  }

  lemma NothingOwed(t: Table)
    ensures Owed([], t) == [] && EntriesBytes(Owed([], t)) == 0
  {
  }

  lemma QueryLong(nets: seq<U16>, t: Table, out: seq<ZiPage>, batch: seq<ZonePair>, tail: seq<U16>, net: U16)
    requires QueryInv(nets, t, out, batch, tail) && ZonesComplete(t, net) && Alone(ListOf(t, net))
    ensures QueryInv(nets + [net], t, out + Flushed(None, batch) + Pages(ListOf(t, net)), [], [])
  {
    hide ZonesIn, EntriesBytes, RepliesFit, Pages, AllWellReplied, Known, Owed;
    KnownSnoc(nets, net, t);
    PlainGoesOut(t, out, tail);
    LongGoesOut(t, out + Flushed(None, batch), net);
    NothingOwed(t);
  }

  lemma QueryFlush(nets: seq<U16>, t: Table, out: seq<ZiPage>, batch: seq<ZonePair>, tail: seq<U16>, net: U16)
    requires QueryInv(nets, t, out, batch, tail) && ZonesComplete(t, net) && !Alone(ListOf(t, net)) && batch != []
    ensures QueryInv(nets + [net], t, out + [ZiPage(None, batch)], ListOf(t, net), [net])
  {
    hide ZonesIn, EntriesBytes, RepliesFit, AllWellReplied, Known, Owed;
    KnownSnoc(nets, net, t);
    PlainGoesOut(t, out, tail);
    OwedOne(net, t);
  }

  lemma QueryGrow(nets: seq<U16>, t: Table, out: seq<ZiPage>, batch: seq<ZonePair>, tail: seq<U16>, net: U16)
    requires QueryInv(nets, t, out, batch, tail) && ZonesComplete(t, net)
    requires ZIP_HEAD + EntriesBytes(batch) + EntriesBytes(ListOf(t, net)) <= DDP_MAX
    ensures QueryInv(nets + [net], t, out, batch + ListOf(t, net), tail + [net])
  {
    hide ZonesIn, EntriesBytes, RepliesFit, AllWellReplied, Known, Owed;
    KnownSnoc(nets, net, t);
    EntriesConcat(batch, ListOf(t, net));
    OwedSnoc(tail, net, t);
    assert ZonesIn(out) + (batch + ListOf(t, net)) == ZonesIn(out) + batch + ListOf(t, net);
  }

  lemma QueryFoldSnoc(nets: seq<U16>, net: U16, t: Table)
    ensures var (out, batch) := QueryFold(nets, t);
            var list := ListOf(t, net);
            QueryFold(nets + [net], t) ==
            if !ZonesComplete(t, net) then (out, batch)
            else if Alone(list) then (out + Flushed(None, batch) + Pages(list), [])
            else if batch != [] && ZIP_HEAD + EntriesBytes(batch) + EntriesBytes(list) > DDP_MAX then
              (out + [ZiPage(None, batch)], list)
            else (out, batch + list)
  {
    hide EntriesBytes, Pages;
    assert (nets + [net])[..|nets|] == nets;
  }

  lemma QueryStep(nets: seq<U16>, t: Table, tail: seq<U16>, net: U16) returns (tail': seq<U16>)
    requires QueryInv(nets, t, QueryFold(nets, t).0, QueryFold(nets, t).1, tail)
    ensures QueryInv(nets + [net], t, QueryFold(nets + [net], t).0, QueryFold(nets + [net], t).1, tail')
  {
    var (out, batch) := QueryFold(nets, t);
    var list := ListOf(t, net);
    QueryFoldSnoc(nets, net, t);
    NothingOwed(t);
    if !ZonesComplete(t, net) {
      KnownSkip(nets, net, t);
      return tail;
    }
    hide QueryFold, QueryInv, EntriesBytes, Pages, ListOf;
    if Alone(list) {
      QueryLong(nets, t, out, batch, tail, net);
      tail' := [];
    } else if batch != [] && ZIP_HEAD + EntriesBytes(batch) + EntriesBytes(list) > DDP_MAX {
      QueryFlush(nets, t, out, batch, tail, net);
      tail' := [net];
    } else {
      if batch == [] { NoEntries(); }
      QueryGrow(nets, t, out, batch, tail, net);
      tail' := tail + [net];
    }
  }

  lemma {:induction false} QueryFoldIsExact(nets: seq<U16>, t: Table) returns (tail: seq<U16>)
    ensures QueryInv(nets, t, QueryFold(nets, t).0, QueryFold(nets, t).1, tail)
  {
    if nets == [] {
      tail := [];
    } else {
      tail := QueryFoldIsExact(nets[..|nets| - 1], t);
      assert nets == nets[..|nets| - 1] + [nets[|nets| - 1]];
      tail := QueryStep(nets[..|nets| - 1], t, tail, nets[|nets| - 1]);
    }
  }

  /** A Query is answered with exactly the complete lists asked for, in order; every
      Reply fits its datagram; and a list is only ever split when it has to be. */
  lemma QueryReplyIsExact(nets: seq<U16>, t: Table)
    ensures ZonesIn(QueryReply(nets, t)) == Owed(Known(nets, t), t)
    ensures RepliesFit(QueryReply(nets, t)) && AllWellReplied(t, QueryReply(nets, t))
  {
    var tail := QueryFoldIsExact(nets, t);
    PlainGoesOut(t, QueryFold(nets, t).0, tail);
  }
}
