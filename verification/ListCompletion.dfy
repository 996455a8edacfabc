/** When a router that takes in the pages of one long list may call it complete: the
    count that the pages announce, against the pages themselves. */
module ListCompletion {
  import opened Wire
  import opened Table
  import opened Paging
  import opened Aurp
  import opened ZipReplies
  import opened ZoneDistribution

  // ------------------------------------------------------------- pages as slices of a list

  /** The pages of one network's list, and the size they announce. */
  ghost predicate OneList(pages: seq<ZiPage>, net: U16, list: seq<Name>, total: nat) {
    && ZonesIn(pages) == PairsOf(net, list)
    && forall p :: 0 <= p < |pages| ==> pages[p].zones != [] && pages[p].extended == Some(total)
  }

  /** Where page `p` starts in the list. */
  function StartOf(pages: seq<ZiPage>, p: nat): nat
    requires p <= |pages|
  {
    |ZonesIn(pages[..p])|
  }

  lemma PageIsASlice(pages: seq<ZiPage>, p: nat)
    requires p < |pages|
    ensures StartOf(pages, p + 1) == StartOf(pages, p) + |pages[p].zones| <= |ZonesIn(pages)|
    ensures ZonesIn(pages)[StartOf(pages, p)..StartOf(pages, p + 1)] == pages[p].zones
  {
    assert pages[..p + 1][..p] == pages[..p];
    assert pages == pages[..p + 1] + pages[p + 1..];
    ZonesInConcat(pages[..p + 1], pages[p + 1..]);
  }

  lemma {:induction false} PagesAreApart(pages: seq<ZiPage>, p: nat, q: nat)
    requires p < q < |pages|
    ensures StartOf(pages, p + 1) <= StartOf(pages, q)
    decreases q
  {
    hide StartOf;
    if p + 1 < q {
      PagesAreApart(pages, p, q - 1);
      PageIsASlice(pages, q - 1);
    }
  }

  /** The names page `p` gives. */
  ghost function Part(pages: seq<ZiPage>, p: nat, net: U16): seq<Name>
    requires p < |pages|
  {
    NamesFor(pages[p].zones, net)
  }

  lemma PartIsASlice(pages: seq<ZiPage>, net: U16, list: seq<Name>, total: nat, p: nat)
    requires OneList(pages, net, list, total) && p < |pages|
    ensures StartOf(pages, p + 1) == StartOf(pages, p) + |pages[p].zones| <= |list|
    ensures Part(pages, p, net) == list[StartOf(pages, p)..StartOf(pages, p + 1)]
    ensures |Part(pages, p, net)| == |pages[p].zones| > 0
  {
    PageIsASlice(pages, p);
    hide ZonesIn, StartOf, NamesFor;
    var a, b := StartOf(pages, p), StartOf(pages, p + 1);
    assert PairsOf(net, list)[a..b] == PairsOf(net, list[a..b]);
    PairsNames(net, list[a..b], net);
  }

  /** Disjoint slices of a list without repeats share no name. */
  lemma SlicesAreApart(list: seq<Name>, a: nat, b: nat, c: nat, d: nat)
    requires CaseDistinct(list) && a <= b <= c <= d <= |list|
    ensures Folded(list[a..b]) !! Folded(list[c..d])
  {
    hide Lower;
    forall x | x in Folded(list[a..b]) ensures x !in Folded(list[c..d]) {
      var i :| 0 <= i < b - a && Lower(list[a..b][i]) == x;
      forall j | 0 <= j < d - c ensures Lower(list[c..d][j]) != x {
        assert list[a..b][i] == list[a + i] && list[c..d][j] == list[c + j];
      }
    }
  }

  lemma PartsAreApart(pages: seq<ZiPage>, net: U16, list: seq<Name>, total: nat, p: nat, q: nat)
    requires OneList(pages, net, list, total) && CaseDistinct(list) && p < |pages| && q < |pages| && p != q
    ensures Folded(Part(pages, p, net)) !! Folded(Part(pages, q, net))
  {
    PartIsASlice(pages, net, list, total, p);
    PartIsASlice(pages, net, list, total, q);
    hide OneList, StartOf, Part, Folded, CaseDistinct;
    if p < q {
      PagesAreApart(pages, p, q);
      SlicesAreApart(list, StartOf(pages, p), StartOf(pages, p + 1), StartOf(pages, q), StartOf(pages, q + 1));
    } else {
      PagesAreApart(pages, q, p);
      SlicesAreApart(list, StartOf(pages, q), StartOf(pages, q + 1), StartOf(pages, p), StartOf(pages, p + 1));
    }
  }

  lemma PartsMakeTheList(pages: seq<ZiPage>, net: U16, list: seq<Name>, total: nat)
    requires OneList(pages, net, list, total)
    ensures NamesFor(ZonesIn(pages), net) == list
    ensures AllGive(pages, net, list, Some(total))
  {
    PairsNames(net, list, net);
    hide NamesFor, Folded, ZonesIn;
    forall p | 0 <= p < |pages| ensures Gives(pages[p], net, list, Some(total)) {
      forall x | x in Folded(NamesFor(pages[p].zones, net)) ensures x in Folded(list) { PagesName(pages, net, x); }
    }
  }

  // ------------------------------------------------------------- a page missing

  /** A name on a page that has not arrived is on no page that has. */
  lemma MissingPageIsMissed(pages: seq<ZiPage>, net: U16, list: seq<Name>, total: nat, arrivals: seq<nat>, p: nat)
    requires OneList(pages, net, list, total) && CaseDistinct(list)
    requires Valid(pages, arrivals) && p < |pages| && p !in arrivals
    ensures Came(pages, arrivals, net) <= Folded(list) - Folded(Part(pages, p, net))
  {
    hide OneList, CaseDistinct, Folded;
    PartsMakeTheList(pages, net, list, total);
    CameFromPages(pages, arrivals, net);
    forall x | x in Came(pages, arrivals, net) ensures x !in Folded(Part(pages, p, net)) {
      var i :| 0 <= i < |arrivals| && x in Folded(NamesFor(pages[arrivals[i]].zones, net));
      assert x in Folded(Part(pages, arrivals[i], net));
      PartsAreApart(pages, net, list, total, p, arrivals[i]);
    }
  }

  /** Every page but one. */
  function AllBut(n: nat, p: nat): seq<nat>
    requires p < n
  {
    seq(n - 1, i requires 0 <= i < n - 1 => if i < p then i else i + 1)
  }

  lemma AllButOne(n: nat, p: nat, q: nat)
    requires p < n && q < n
    ensures q in AllBut(n, p) <==> q != p
  {
    if q < p { assert AllBut(n, p)[q] == q; }
    if q > p { assert AllBut(n, p)[q - 1] == q; }
  }

  lemma TheOthersCome(pages: seq<ZiPage>, net: U16, list: seq<Name>, total: nat, p: nat)
    requires OneList(pages, net, list, total) && CaseDistinct(list) && p < |pages|
    ensures Valid(pages, AllBut(|pages|, p)) && !EveryPage(pages, AllBut(|pages|, p))
    ensures Came(pages, AllBut(|pages|, p), net) == Folded(list) - Folded(Part(pages, p, net))
  {
    var arrivals := AllBut(|pages|, p);
    AllButOne(|pages|, p, p);
    MissingPageIsMissed(pages, net, list, total, arrivals, p);
    PartsMakeTheList(pages, net, list, total);
    hide OneList, CaseDistinct, Folded, AllBut;
    forall x | x in Folded(list) && x !in Folded(Part(pages, p, net)) ensures x in Came(pages, arrivals, net) {
      PagesName(pages, net, x);
      var q :| 0 <= q < |pages| && x in Folded(NamesFor(pages[q].zones, net));
      AllButOne(|pages|, p, q);
      var i :| 0 <= i < |arrivals| && arrivals[i] == q;
    }
  }

  lemma SliceIsDistinct(list: seq<Name>, a: nat, b: nat)
    requires CaseDistinct(list) && a <= b <= |list|
    ensures CaseDistinct(list[a..b])
  {
    hide Lower;
    forall i, j | 0 <= i < j < b - a ensures Lower(list[a..b][i]) != Lower(list[a..b][j]) {
      assert list[a..b][i] == list[a + i] && list[a..b][j] == list[a + j];
    }
  }

  lemma WithoutASlice(list: seq<Name>, a: nat, b: nat)
    requires CaseDistinct(list) && a <= b <= |list|
    ensures |Folded(list) - Folded(list[a..b])| == |list| - (b - a)
  {
    hide Folded, CaseDistinct;
    SliceIsDistinct(list, a, b);
    CaseDistinctCount(list);
    CaseDistinctCount(list[a..b]);
    FoldedConcat(list[..a], list[a..b]);
    FoldedConcat(list[..b], list[b..]);
    assert list == list[..b] + list[b..] && list[..b] == list[..a] + list[a..b];
    assert Folded(list) == (Folded(list) - Folded(list[a..b])) + Folded(list[a..b]);
  }

  lemma WithoutAPart(pages: seq<ZiPage>, net: U16, list: seq<Name>, total: nat, p: nat)
    requires OneList(pages, net, list, total) && CaseDistinct(list) && p < |pages|
    ensures |Folded(list) - Folded(Part(pages, p, net))| == |list| - |pages[p].zones|
  {
    PartIsASlice(pages, net, list, total, p);
    WithoutASlice(list, StartOf(pages, p), StartOf(pages, p + 1));
  }

  // ------------------------------------------------------------- complete exactly with its last page

  /** Complete when, and only when, no page is missing. */
  ghost predicate EndsWithItsPages(pages: seq<ZiPage>, arrivals: seq<nat>, net: U16) {
    Valid(pages, arrivals) ==> (HeldList(NOTHING, pages, arrivals, net).Complete() <==> EveryPage(pages, arrivals))
  }

  ghost predicate EveryPageMatters(pages: seq<ZiPage>, short: int) {
    forall p :: 0 <= p < |pages| ==> |pages[p].zones| > short
  }

  lemma EndsIfPagesMatter(pages: seq<ZiPage>, arrivals: seq<nat>, net: U16, list: seq<Name>, total: nat)
    requires OneList(pages, net, list, total) && CaseDistinct(list) && list != [] && total <= |list|
    requires EveryPageMatters(pages, |list| - total)
    ensures EndsWithItsPages(pages, arrivals, net)
  {
    if Valid(pages, arrivals) {
      PartsMakeTheList(pages, net, list, total);
      HeldMeaning(pages, arrivals, net, list, Some(total));
      CameFromPages(pages, arrivals, net);
      hide OneList, CaseDistinct, Folded, Came, HeldList;
      var came := Came(pages, arrivals, net);
      if !EveryPage(pages, arrivals) {
        var p :| 0 <= p < |pages| && p !in arrivals;
        MissingPageIsMissed(pages, net, list, total, arrivals, p);
        WithoutAPart(pages, net, list, total, p);
        SubsetOfSameSize(came, Folded(list) - Folded(Part(pages, p, net)));
      }
    }
  }

  lemma EndsTooSoon(pages: seq<ZiPage>, net: U16, list: seq<Name>, total: nat, p: nat)
    requires OneList(pages, net, list, total) && CaseDistinct(list) && total <= |list|
    requires p < |pages| && |pages[p].zones| <= |list| - total && |pages[p].zones| < |list|
    ensures Valid(pages, AllBut(|pages|, p)) && !EveryPage(pages, AllBut(|pages|, p))
    ensures var z := HeldList(NOTHING, pages, AllBut(|pages|, p), net);
            z.Complete() && Folded(z.names) == Folded(list) - Folded(Part(pages, p, net))
  {
    var arrivals := AllBut(|pages|, p);
    TheOthersCome(pages, net, list, total, p);
    PartsMakeTheList(pages, net, list, total);
    HeldMeaning(pages, arrivals, net, list, Some(total));
    WithoutAPart(pages, net, list, total, p);
  }

  /** A list announced at `total` names ends exactly with its last page, whatever the
      arrivals, if and only if every page holds more names than the announcement
      leaves out. */
  lemma EndsExactly(pages: seq<ZiPage>, net: U16, list: seq<Name>, total: nat)
    requires OneList(pages, net, list, total) && CaseDistinct(list) && list != [] && total <= |list|
    requires total > 0 || forall p :: 0 <= p < |pages| ==> |pages[p].zones| < |list|
    ensures (forall arrivals: seq<nat> :: EndsWithItsPages(pages, arrivals, net))
            <==> EveryPageMatters(pages, |list| - total)
  {
    hide OneList, CaseDistinct, EndsWithItsPages;
    if EveryPageMatters(pages, |list| - total) {
      forall arrivals: seq<nat> ensures EndsWithItsPages(pages, arrivals, net) {
        EndsIfPagesMatter(pages, arrivals, net, list, total);
      }
    } else {
      var p :| 0 <= p < |pages| && |pages[p].zones| <= |list| - total;
      NotTheEnd(pages, net, list, total, p);
    }
  }

  lemma NotTheEnd(pages: seq<ZiPage>, net: U16, list: seq<Name>, total: nat, p: nat)
    requires OneList(pages, net, list, total) && CaseDistinct(list) && total <= |list|
    requires p < |pages| && |pages[p].zones| <= |list| - total && |pages[p].zones| < |list|
    ensures !EndsWithItsPages(pages, AllBut(|pages|, p), net)
  {
    EndsTooSoon(pages, net, list, total, p);
  }

  // ------------------------------------------------------------- Extended Replies

  /** A list as its pages are read. */
  lemma ReadAsOneList(pages: seq<ZiPage>, net: U16, list: seq<Name>, total: nat)
    requires OneList(pages, net, list, total)
    ensures OneList(AllAsRead(pages), net, CutAll(list), total)
    ensures forall p :: 0 <= p < |pages| ==> |AllAsRead(pages)[p].zones| == |pages[p].zones|
  {
    CutZones(pages);
    hide ZonesIn;
    assert CutPairs(PairsOf(net, list)) == PairsOf(net, CutAll(list));
  }

  lemma ExtendedRepliesAreOneList(net: U16, list: seq<Name>)
    ensures OneList(Pages(PairsOf(net, list)), net, list, Total(|list|))
  {
    var pages := Pages(PairsOf(net, list));
    PagesAreExact(PairsOf(net, list));
    hide Pages, ZonesIn;
    forall p | 0 <= p < |pages| ensures pages[p].zones != [] { assert ReplyFits(pages[p]); }
  }

  /** What a router that knew nothing of a list holds of it after some of its pages. */
  ghost predicate CompleteWithItsLast(r: Table, pages: seq<ZiPage>, arrivals: seq<nat>, tunnel: bool, net: U16) {
    Valid(pages, arrivals) ==>
    (ZonesOf(Deliver(r, pages, arrivals, tunnel), net).Complete() <==> EveryPage(pages, arrivals))
  }

  lemma TablesHoldLists(r: Table, pages: seq<ZiPage>, arrivals: seq<nat>, tunnel: bool, net: U16)
    requires At(r.routes, net) != [] && net !in r.zones && (tunnel ==> !OwnCable(r, net))
    ensures Valid(pages, arrivals) ==>
            ZonesOf(Deliver(r, pages, arrivals, tunnel), net) == HeldList(NOTHING, pages, arrivals, net)
    ensures CompleteWithItsLast(r, pages, arrivals, tunnel, net) <==> EndsWithItsPages(pages, arrivals, net)
  {
    hide At, Deliver, OwnCable, HeldList, EveryPage;
    if Valid(pages, arrivals) { DeliveredAt(r, pages, arrivals, tunnel, net); }
  }

  /** A list over Extended Replies is complete exactly when no page is missing, whatever
      the arrivals, if and only if it has at most 255 names or every page holds more
      names than the list has above 255. */
  lemma ListCompletesWithItsLastPage(r: Table, net: U16, list: seq<Name>)
    requires At(r.routes, net) != [] && net !in r.zones && list != [] && CaseDistinct(CutAll(list))
    ensures var pages := AllAsRead(Pages(PairsOf(net, list)));
            (forall arrivals: seq<nat> :: CompleteWithItsLast(r, pages, arrivals, false, net))
            <==> |list| <= MAX_TOTAL || EveryPageMatters(pages, |list| - MAX_TOTAL)
  {
    var pages := AllAsRead(Pages(PairsOf(net, list)));
    ExtendedRepliesAreOneList(net, list);
    ReadAsOneList(Pages(PairsOf(net, list)), net, list, Total(|list|));
    hide AllAsRead, Pages, CompleteWithItsLast, EndsWithItsPages, At, CaseDistinct;
    EndsExactly(pages, net, CutAll(list), Total(|list|));
    forall arrivals: seq<nat>
      ensures CompleteWithItsLast(r, pages, arrivals, false, net) <==> EndsWithItsPages(pages, arrivals, net)
    {
      TablesHoldLists(r, pages, arrivals, false, net);
    }
    if |list| <= MAX_TOTAL { assert EveryPageMatters(pages, 0); }
  }

  // ------------------------------------------------------------- a list that ends too soon

  /** Thirty-two digits, the last two of which count to 257. */
  function Numbered(i: nat): Name
    requires i < 257
  {
    seq(30, _ => 48) + [48 + i / 16, 48 + i % 16]
  }

  function LongList(n: nat): seq<Name>
    requires n <= 257
  {
    seq(n, i requires 0 <= i < n => Numbered(i))
  }

  lemma {:induction false} PlainLength(n: Name)
    requires forall i :: 0 <= i < |n| ==> n[i] < 0x80
    ensures StringLen(n) == |n|
  {
    if n != [] { PlainLength(n[..|n| - 1]); }
  }

  lemma NumbersDiffer(i: nat, j: nat)
    requires i < j < 257
    ensures Lower(Numbered(i)) != Lower(Numbered(j))
  {
    var a, b := Lower(Numbered(i)), Lower(Numbered(j));
    assert a[30] == 48 + i / 16 && a[31] == 48 + i % 16;
    assert b[30] == 48 + j / 16 && b[31] == 48 + j % 16;
  }

  lemma LongListIsDistinct(n: nat)
    requires n <= 257
    ensures CaseDistinct(LongList(n))
  {
    hide Lower, Numbered;
    forall i, j | 0 <= i < j < n ensures Lower(LongList(n)[i]) != Lower(LongList(n)[j]) { NumbersDiffer(i, j); }
  }

  lemma NumberedBytes(net: U16, i: nat)
    requires i < 257
    ensures EntryBytes((net, Numbered(i))) == 35
  {
    PlainLength(Numbered(i));
  }

  lemma {:induction false} UniformBytes(ps: seq<ZonePair>)
    requires forall i :: 0 <= i < |ps| ==> EntryBytes(ps[i]) == 35
    ensures EntriesBytes(ps) == 35 * |ps|
  {
    hide EntryBytes;
    if ps != [] { UniformBytes(ps[..|ps| - 1]); }
  }

  /** Entries of 35 bytes go sixteen to a page. */
  lemma {:induction false} SixteenToAPage(total: nat, ps: seq<ZonePair>)
    requires ps != [] && forall i :: 0 <= i < |ps| ==> EntryBytes(ps[i]) == 35
    ensures var (out, batch) := PageFold(total, ps);
            && |out| == (|ps| - 1) / 16 && |batch| == (|ps| - 1) % 16 + 1
            && forall i :: 0 <= i < |batch| ==> EntryBytes(batch[i]) == 35
  {
    hide EntryBytes, EntriesBytes;
    var n := |ps| - 1;
    if n == 0 {
      assert PageFold(total, ps[..0]) == ([], []);
    } else {
      SixteenToAPage(total, ps[..n]);
      UniformBytes(PageFold(total, ps[..n]).1);
    }
  }

  lemma SeventeenPages(net: U16)
    ensures var pages := Pages(PairsOf(net, LongList(257)));
            |pages| == 17 && |pages[16].zones| == 1
  {
    var pairs := PairsOf(net, LongList(257));
    hide PageFold, EntryBytes, Numbered;
    forall i | 0 <= i < |pairs| ensures EntryBytes(pairs[i]) == 35 { NumberedBytes(net, i); }
    SixteenToAPage(Total(257), pairs);
  }

  /** 257 zones: the last of seventeen pages holds one name, and without it the list
      counts as complete, one name short. */
  lemma CompleteWithAPageMissing(r: Table, net: U16)
    requires At(r.routes, net) != [] && net !in r.zones
    ensures var list := LongList(257);
            var pages := AllAsRead(Pages(PairsOf(net, list)));
            var arrivals := AllBut(17, 16);
            && CutAll(list) == list && CaseDistinct(list) && |pages| == 17 && 16 !in arrivals && Valid(pages, arrivals)
            && var z := ZonesOf(Deliver(r, pages, arrivals, false), net);
               z.Complete() && |z.names| < |list| && Folded(z.names) != Folded(list)
  {
    var list := LongList(257);
    var pages := AllAsRead(Pages(PairsOf(net, list)));
    SeventeenPages(net);
    LongListIsDistinct(257);
    ExtendedRepliesAreOneList(net, list);
    ReadAsOneList(Pages(PairsOf(net, list)), net, list, Total(257));
    AllButOne(17, 16, 16);
    assert CutAll(list) == list;
    hide AllAsRead, CutAll, Pages, LongList, CaseDistinct, At, AllBut, HeldList, Folded, OneList;
    EndsTooSoon(pages, net, list, Total(257), 16);
    var arrivals := AllBut(17, 16);
    TablesHoldLists(r, pages, arrivals, false, net);
    HeldUnites(NOTHING, pages, arrivals, net) by { EmptyIsDistinct(); }
    CaseDistinctCount(HeldList(NOTHING, pages, arrivals, net).names);
    CaseDistinctCount(list);
    WithoutAPart(pages, net, list, Total(257), 16);
  }

  // ------------------------------------------------------------- ZI-Rsp packets

  lemma {:induction false} ThreeBytesEach(ps: seq<ZonePair>)
    ensures PairsBytes(ps) >= 3 * |ps|
  {
    if ps != [] { ThreeBytesEach(ps[..|ps| - 1]); }
  }

  /** The same through a tunnel, where the count has sixteen bits: exactly when the
      list has fewer than 65536 names. */
  lemma PacketsCompleteWithTheLast(r: Table, net: U16, list: seq<Name>)
    requires At(r.routes, net) != [] && net !in r.zones && !OwnCable(r, net)
    requires list != [] && CaseDistinct(CutAll(list)) && NamesFit(PairsOf(net, list))
    ensures var pages := AllAsRead(Chunks(PairsOf(net, list)));
            (forall arrivals: seq<nat> :: CompleteWithItsLast(r, pages, arrivals, true, net)) <==> |list| < 0x1_0000
  {
    var pages := AllAsRead(Chunks(PairsOf(net, list)));
    PacketsAreOneList(net, list);
    ReadAsOneList(Chunks(PairsOf(net, list)), net, list, |list| % 0x1_0000);
    hide AllAsRead, Chunks, CompleteWithItsLast, EndsWithItsPages, At, CaseDistinct, OwnCable, OneList;
    PacketsEnd(pages, net, CutAll(list));
    forall arrivals: seq<nat>
      ensures CompleteWithItsLast(r, pages, arrivals, true, net) <==> EndsWithItsPages(pages, arrivals, net)
    {
      TablesHoldLists(r, pages, arrivals, true, net);
    }
  }

  lemma WhatSixteenBitsHold(n: nat)
    ensures n < 0x1_0000 ==> n % 0x1_0000 == n
    ensures n >= 0x1_0000 ==> n - n % 0x1_0000 >= 0x1_0000
  {
  }

  lemma PacketsEnd(pages: seq<ZiPage>, net: U16, list: seq<Name>)
    requires OneList(pages, net, list, |list| % 0x1_0000) && CaseDistinct(list) && list != [] && pages != []
    requires forall p :: 0 <= p < |pages| ==> 0 < |pages[p].zones| <= 466
    ensures (forall arrivals: seq<nat> :: EndsWithItsPages(pages, arrivals, net)) <==> |list| < 0x1_0000
  {
    hide EndsWithItsPages, OneList, CaseDistinct;
    WhatSixteenBitsHold(|list|);
    EndsExactly(pages, net, list, |list| % 0x1_0000);
    if |list| >= 0x1_0000 { assert |pages[0].zones| <= 466; }
  }

  lemma PacketsAreOneList(net: U16, list: seq<Name>)
    requires list != [] && NamesFit(PairsOf(net, list))
    ensures var pages := Chunks(PairsOf(net, list));
            && OneList(pages, net, list, |list| % 0x1_0000) && pages != []
            && forall p :: 0 <= p < |pages| ==> 0 < |pages[p].zones| <= 466
  {
    var pages := Chunks(PairsOf(net, list));
    ChunksMeaning(PairsOf(net, list));
    hide Chunks, ZonesIn, PairsBytes, WireBytes;
    forall p | 0 <= p < |pages| ensures 0 < |pages[p].zones| <= 466 {
      assert Fits(pages[p]);
      ThreeBytesEach(pages[p].zones);
    }
    NoPages();
    assert PairsOf(net, list)[0] == (net, list[0]);
  }

  lemma NoPages()
    ensures ZonesIn([]) == []
  {
  }
}
