/** The receiving side of zone distribution: what a router holds of every list after
    any Replies or ZI-Rsp packets, in any order and however often each arrives. */
module ZoneDistribution {
  import opened Wire
  import opened Table
  import opened Paging
  import opened Aurp
  import opened ZipReplies
  import RoutingTables
  import ZoneCodec

  // ------------------------------------------------------------- taking a Reply in

  /** The lists of one Reply, network by network. */
  function TakeReply(t: Table, nets: seq<U16>, page: ZiPage): (Table, seq<RouteChange>) {
    if nets == [] then (t, [])
    else
      var n := |nets| - 1;
      var (u, cs) := TakeReply(t, nets[..n], page);
      var (v, ds) := AddZones(u, nets[n], NamesFor(page.zones, nets[n]), page.extended);
      (v, cs + ds)
  }

  function LearnZones(t: Table, page: ZiPage): (Table, seq<RouteChange>) {
    TakeReply(t, NetsNamed(page.zones), page)
  }

  /** The names of a Reply by network, in the order the networks are first named. */
  ghost predicate Gathered(zones: seq<ZonePair>, byNet: seq<(U16, seq<Name>)>) {
    && |byNet| == |NetsNamed(zones)|
    && forall j :: 0 <= j < |byNet| ==> byNet[j] == (NetsNamed(zones)[j], NamesFor(zones, byNet[j].0))
  }

  lemma NamedSnoc(zones: seq<ZonePair>, net: U16, name: Name, n: U16)
    ensures var more, nets := zones + [(net, name)], NetsNamed(zones);
            && NetsNamed(more) == (if net in nets then nets else nets + [net])
            && NamesFor(more, n) == NamesFor(zones, n) + if n == net then [name] else []
  {
    assert (zones + [(net, name)])[..|zones|] == zones;
  }

  lemma GatheredSnoc(zones: seq<ZonePair>, byNet: seq<(U16, seq<Name>)>, net: U16, name: Name, k: nat)
    requires Gathered(zones, byNet) && k <= |byNet| && forall j :: 0 <= j < k ==> byNet[j].0 != net
    requires k < |byNet| ==> byNet[k].0 == net
    ensures Gathered(zones + [(net, name)],
                     if k < |byNet| then byNet[k := (net, byNet[k].1 + [name])] else byNet + [(net, [name])])
  {
    var more, nets := zones + [(net, name)], NetsNamed(zones);
    NamedOnce(zones);
    NamedSnoc(zones, net, name, net);
    hide NamesFor, NetsNamed;
    var out := if k < |byNet| then byNet[k := (net, byNet[k].1 + [name])] else byNet + [(net, [name])];
    forall j | 0 <= j < |byNet| ensures byNet[j].0 == nets[j] && (j != k ==> nets[j] != net) {
      assert byNet[j] == (nets[j], NamesFor(zones, byNet[j].0));
      if j != k && k < |byNet| { assert byNet[k].0 == nets[k]; }
    }
    assert k < |byNet| <==> net in nets by { if k < |byNet| { assert nets[k] == net; } }
    forall j | 0 <= j < |out| ensures out[j] == (NetsNamed(more)[j], NamesFor(more, out[j].0)) {
      NamedSnoc(zones, net, name, out[j].0);
      if j == k {
        assert out[j].0 == net;
        if k < |byNet| {
          assert byNet[k] == (nets[k], NamesFor(zones, byNet[k].0));
        } else {
          assert NamesFor(zones, net) == [];
          assert [] + [name] == [name];
        }
        assert NamesFor(more, net) == out[j].1 && NetsNamed(more)[j] == net;
      } else {
        assert out[j] == byNet[j] == (nets[j], NamesFor(zones, byNet[j].0));
        assert NamesFor(zones, byNet[j].0) + [] == NamesFor(zones, byNet[j].0);
      }
    }
  }

  method GatherZones(zones: seq<ZonePair>) returns (byNet: seq<(U16, seq<Name>)>)
    ensures Gathered(zones, byNet)
  {
    byNet := [];
    for i := 0 to |zones|
      invariant Gathered(zones[..i], byNet)
    {
      var (net, name) := zones[i];
      var k := 0;
      while k < |byNet| && byNet[k].0 != net
        invariant k <= |byNet| && forall j :: 0 <= j < k ==> byNet[j].0 != net
      {
        k := k + 1;
      }
      GatheredSnoc(zones[..i], byNet, net, name, k);
      assert zones[..i + 1] == zones[..i] + [(net, name)];
      if k < |byNet| {
        byNet := byNet[k := (net, byNet[k].1 + [name])];
      } else {
        byNet := byNet + [(net, [name])];
      }
    }
    assert zones[..|zones|] == zones;
  }

  method LearnZonesInPlace(page: ZiPage, tables: RoutingTables.Tables) returns (changes: seq<RouteChange>)
    modifies tables
    ensures (tables.View(), changes) == LearnZones(old(tables.View()), page)
  {
    var byNet := GatherZones(page.zones);
    ghost var nets := NetsNamed(page.zones);
    changes := [];
    for i := 0 to |byNet|
      invariant (tables.View(), changes) == TakeReply(old(tables.View()), nets[..i], page)
    {
      assert nets[..i + 1][..i] == nets[..i];
      var more := tables.AddZones(byNet[i].0, byNet[i].1, page.extended);
      changes := changes + more;
    }
    assert nets[..|byNet|] == nets;
  }

  /** A network is gathered once, and exactly when a name is given for it. */
  lemma {:induction false} NamedOnce(zones: seq<ZonePair>)
    ensures Distinct(NetsNamed(zones))
    ensures forall n: U16 :: n in NetsNamed(zones) <==> NamesFor(zones, n) != []
  {
    if zones != [] { NamedOnce(zones[..|zones| - 1]); }
  }

  // ------------------------------------------------------------- one list over many pages

  /** One page's part in one network's list. */
  function Extended(z: ZoneList, page: ZiPage, net: U16): ZoneList {
    var names := NamesFor(page.zones, net);
    if names == [] then z else MergedZones(z, names, page.extended)
  }

  ghost predicate Valid(pages: seq<ZiPage>, arrivals: seq<nat>) {
    forall i :: 0 <= i < |arrivals| ==> arrivals[i] < |pages|
  }

  ghost predicate EveryPage(pages: seq<ZiPage>, arrivals: seq<nat>) {
    forall p :: 0 <= p < |pages| ==> p in arrivals
  }

  /** A list after some arrivals, each naming a page by its number. */
  ghost function HeldList(z: ZoneList, pages: seq<ZiPage>, arrivals: seq<nat>, net: U16): ZoneList
    requires Valid(pages, arrivals)
  {
    if arrivals == [] then z
    else
      var n := |arrivals| - 1;
      Extended(HeldList(z, pages, arrivals[..n], net), pages[arrivals[n]], net)
  }

  /** A network whose best route is one of our own ports. */
  predicate OwnCable(t: Table, net: U16) {
    var b := BestForNet(t, net);
    b.Some? && b.value.target.Port?
  }

  /** A page off a cable, or through a tunnel. */
  function TakeIn(t: Table, page: ZiPage, tunnel: bool): Table {
    if tunnel then TakeZones(t, NetsNamed(page.zones), page).0 else LearnZones(t, page).0
  }

  ghost function Deliver(t: Table, pages: seq<ZiPage>, arrivals: seq<nat>, tunnel: bool): Table
    requires Valid(pages, arrivals)
  {
    if arrivals == [] then t
    else
      var n := |arrivals| - 1;
      TakeIn(Deliver(t, pages, arrivals[..n], tunnel), pages[arrivals[n]], tunnel)
  }

  lemma {:induction false} TakeReplyAt(t: Table, nets: seq<U16>, page: ZiPage, net: U16)
    requires Distinct(nets) && At(t.routes, net) != []
    ensures var u := TakeReply(t, nets, page).0;
            && u.routes == t.routes && u.best == t.best
            && ZonesOf(u, net) == if net in nets then MergedZones(ZonesOf(t, net), NamesFor(page.zones, net), page.extended)
                                  else ZonesOf(t, net)
  {
    hide NamesFor, MergedZones, BestFor, Exportable;
    if nets != [] {
      var n := |nets| - 1;
      TakeReplyAt(t, nets[..n], page, net);
      assert net in nets <==> net in nets[..n] || net == nets[n];
      assert nets[n] !in nets[..n];
    }
  }

  lemma {:induction false} TakeZonesAt(t: Table, nets: seq<U16>, page: ZiPage, net: U16)
    requires Distinct(nets) && At(t.routes, net) != []
    ensures var u := TakeZones(t, nets, page).0;
            && u.routes == t.routes && u.best == t.best
            && ZonesOf(u, net) == if net in nets && !OwnCable(t, net)
                                  then MergedZones(ZonesOf(t, net), NamesFor(page.zones, net), page.extended)
                                  else ZonesOf(t, net)
  {
    hide NamesFor, MergedZones, BestFor, Exportable, Pick;
    if nets != [] {
      var n := |nets| - 1;
      TakeZonesAt(t, nets[..n], page, net);
      assert net in nets <==> net in nets[..n] || net == nets[n];
      assert nets[n] !in nets[..n];
    }
  }

  /** One page, whatever networks it names: each list it may touch takes its part, and
      nothing else moves. */
  lemma TakenAt(t: Table, page: ZiPage, tunnel: bool, net: U16)
    requires At(t.routes, net) != []
    ensures var u := TakeIn(t, page, tunnel);
            && u.routes == t.routes && u.best == t.best
            && ZonesOf(u, net) == if tunnel && OwnCable(t, net) then ZonesOf(t, net) else Extended(ZonesOf(t, net), page, net)
  {
    hide NamesFor, MergedZones, OwnCable;
    NamedOnce(page.zones);
    if tunnel { TakeZonesAt(t, NetsNamed(page.zones), page, net); } else { TakeReplyAt(t, NetsNamed(page.zones), page, net); }
  }

  /** The table after any arrivals holds, of each list, what its pages make of it. */
  lemma {:induction false} DeliveredAt(t: Table, pages: seq<ZiPage>, arrivals: seq<nat>, tunnel: bool, net: U16)
    requires At(t.routes, net) != [] && Valid(pages, arrivals)
    ensures var u := Deliver(t, pages, arrivals, tunnel);
            && u.routes == t.routes && u.best == t.best
            && ZonesOf(u, net) == if tunnel && OwnCable(t, net) then ZonesOf(t, net)
                                  else HeldList(ZonesOf(t, net), pages, arrivals, net)
  {
    hide TakeIn, Extended, ZonesOf, Pick, At;
    if arrivals != [] {
      var n := |arrivals| - 1;
      DeliveredAt(t, pages, arrivals[..n], tunnel, net);
      TakenAt(Deliver(t, pages, arrivals[..n], tunnel), pages[arrivals[n]], tunnel, net);
    }
  }

  // ------------------------------------------------------------- names without case

  function Folded(ns: seq<Name>): set<Name> { set i | 0 <= i < |ns| :: Lower(ns[i]) }

  ghost predicate CaseDistinct(ns: seq<Name>) {
    forall i, j :: 0 <= i < j < |ns| ==> Lower(ns[i]) != Lower(ns[j])
  }

  lemma FoldedConcat(a: seq<Name>, b: seq<Name>)
    ensures Folded(a + b) == Folded(a) + Folded(b)
  {
    hide Lower;
    forall x | x in Folded(a + b) ensures x in Folded(a) + Folded(b) {
      var i :| 0 <= i < |a + b| && Lower((a + b)[i]) == x;
      if i < |a| { assert Lower(a[i]) == x; } else { assert Lower(b[i - |a|]) == x; }
    }
    forall x | x in Folded(a) ensures x in Folded(a + b) {
      var i :| 0 <= i < |a| && Lower(a[i]) == x;
      assert (a + b)[i] == a[i];
    }
    forall x | x in Folded(b) ensures x in Folded(a + b) {
      var i :| 0 <= i < |b| && Lower(b[i]) == x;
      assert (a + b)[|a| + i] == b[i];
    }
  }

  lemma FoldedSnoc(ns: seq<Name>, n: Name)
    ensures Folded(ns + [n]) == Folded(ns) + {Lower(n)}
  {
    FoldedConcat(ns, [n]);
    assert [n][0] == n;
  }

  lemma {:induction false} CaseDistinctCount(ns: seq<Name>)
    requires CaseDistinct(ns)
    ensures |Folded(ns)| == |ns|
  {
    if ns != [] {
      var n := |ns| - 1;
      CaseDistinctCount(ns[..n]);
      FoldedSnoc(ns[..n], ns[n]);
      assert ns[..n] + [ns[n]] == ns;
      assert Lower(ns[n]) !in Folded(ns[..n]);
    }
  }

  lemma HoldsFolded(ns: seq<Name>, n: Name)
    ensures HoldsName(ns, n) <==> Lower(n) in Folded(ns)
  {
    if HoldsName(ns, n) {
      var i :| 0 <= i < |ns| && SameName(ns[i], n);
      assert Lower(ns[i]) == Lower(n);
    }
    if Lower(n) in Folded(ns) {
      var i :| 0 <= i < |ns| && Lower(ns[i]) == Lower(n);
      assert SameName(ns[i], n);
    }
  }

  /** Extending a list takes the union of the two, case aside, and repeats nothing. */
  lemma {:induction false} AddNamesUnites(have: seq<Name>, names: seq<Name>)
    requires CaseDistinct(have)
    ensures CaseDistinct(AddNames(have, names)) && Folded(AddNames(have, names)) == Folded(have) + Folded(names)
  {
    if names != [] {
      var n := |names| - 1;
      AddNamesUnites(have, names[..n]);
      var out := AddNames(have, names[..n]);
      HoldsFolded(out, names[n]);
      FoldedSnoc(out, names[n]);
      FoldedSnoc(names[..n], names[n]);
      assert names[..n] + [names[n]] == names;
      if Lower(names[n]) !in Folded(out) {
        forall i | 0 <= i < |out| ensures Lower(out[i]) != Lower(names[n]) { assert Lower(out[i]) in Folded(out); }
      }
    }
  }

  lemma NonemptyFolds(ns: seq<Name>)
    ensures ns == [] <==> Folded(ns) == {}
  {
    if ns != [] { assert Lower(ns[0]) in Folded(ns); }
  }

  // ------------------------------------------------------------- what has come of one list

  /** The names that the pages that arrived give for a network. */
  ghost function Came(pages: seq<ZiPage>, arrivals: seq<nat>, net: U16): set<Name>
    requires Valid(pages, arrivals)
  {
    set i, x | 0 <= i < |arrivals| && x in Folded(NamesFor(pages[arrivals[i]].zones, net)) :: x
  }

  lemma CameSnoc(pages: seq<ZiPage>, arrivals: seq<nat>, net: U16)
    requires arrivals != [] && Valid(pages, arrivals)
    ensures var n := |arrivals| - 1;
            Came(pages, arrivals, net) == Came(pages, arrivals[..n], net) + Folded(NamesFor(pages[arrivals[n]].zones, net))
  {
    hide Folded, NamesFor;
    var n := |arrivals| - 1;
    forall x | x in Came(pages, arrivals[..n], net) ensures x in Came(pages, arrivals, net) {
      var i :| 0 <= i < n && x in Folded(NamesFor(pages[arrivals[..n][i]].zones, net));
      assert arrivals[i] == arrivals[..n][i];
    }
    forall x | x in Came(pages, arrivals, net)
      ensures x in Came(pages, arrivals[..n], net) + Folded(NamesFor(pages[arrivals[n]].zones, net))
    {
      var i :| 0 <= i < |arrivals| && x in Folded(NamesFor(pages[arrivals[i]].zones, net));
      if i < n { assert arrivals[..n][i] == arrivals[i]; }
    }
  }

  /** Any list after any pages: the union of what was there and what has come, case
      aside, each name once. */
  lemma {:induction false} HeldUnites(z: ZoneList, pages: seq<ZiPage>, arrivals: seq<nat>, net: U16)
    requires CaseDistinct(z.names) && Valid(pages, arrivals)
    ensures var h := HeldList(z, pages, arrivals, net);
            CaseDistinct(h.names) && Folded(h.names) == Folded(z.names) + Came(pages, arrivals, net)
  {
    hide NamesFor, AddNames, CaseDistinct;
    if arrivals != [] {
      var n := |arrivals| - 1;
      HeldUnites(z, pages, arrivals[..n], net);
      CameSnoc(pages, arrivals, net);
      var names := NamesFor(pages[arrivals[n]].zones, net);
      AddNamesUnites(HeldList(z, pages, arrivals[..n], net).names, names);
      NonemptyFolds(names);
    }
  }

  // ------------------------------------------------------------- what the pages give

  lemma {:induction false} NamesForConcat(a: seq<ZonePair>, b: seq<ZonePair>, net: U16)
    ensures NamesFor(a + b, net) == NamesFor(a, net) + NamesFor(b, net)
  {
    if b == [] {
      assert a + b == a;
    } else {
      assert (a + b)[..|a + b| - 1] == a + b[..|b| - 1];
      NamesForConcat(a, b[..|b| - 1], net);
    }
  }

  lemma {:induction false} PairsNames(from: U16, names: seq<Name>, net: U16)
    ensures NamesFor(PairsOf(from, names), net) == if from == net then names else []
  {
    if names != [] {
      var n := |names| - 1;
      PairsNames(from, names[..n], net);
      assert PairsOf(from, names)[..n] == PairsOf(from, names[..n]);
      assert names == names[..n] + [names[n]];
    }
  }

  lemma {:induction false} OwedNames(nets: seq<U16>, t: Table, net: U16)
    ensures Folded(NamesFor(Owed(nets, t), net)) == if net in nets then Folded(ZonesOf(t, net).names) else {}
  {
    hide NamesFor, ZonesOf;
    if nets == [] {
      NonemptyFolds([]);
      NoNames(net);
    } else {
      var n := |nets| - 1;
      OwedNames(nets[..n], t, net);
      NamesForConcat(Owed(nets[..n], t), ListOf(t, nets[n]), net);
      PairsNames(nets[n], ZonesOf(t, nets[n]).names, net);
      FoldedConcat(NamesFor(Owed(nets[..n], t), net), NamesFor(ListOf(t, nets[n]), net));
      NonemptyFolds([]);
      assert net in nets <==> net in nets[..n] || net == nets[n];
    }
  }

  lemma NoNames(net: U16)
    ensures NamesFor([], net) == []
  {
  }

  /** The names of all the pages together are those of the pages one by one. */
  lemma {:induction false} PagesName(pages: seq<ZiPage>, net: U16, x: Name)
    ensures x in Folded(NamesFor(ZonesIn(pages), net))
            <==> exists p :: 0 <= p < |pages| && x in Folded(NamesFor(pages[p].zones, net))
  {
    hide NamesFor, Folded;
    if pages == [] {
      NonemptyFolds([]);
      NoNames(net);
    } else {
      var n := |pages| - 1;
      PagesName(pages[..n], net, x);
      NamesForConcat(ZonesIn(pages[..n]), pages[n].zones, net);
      FoldedConcat(NamesFor(ZonesIn(pages[..n]), net), NamesFor(pages[n].zones, net));
      if x in Folded(NamesFor(ZonesIn(pages[..n]), net)) {
        var p :| 0 <= p < n && x in Folded(NamesFor(pages[..n][p].zones, net));
        assert x in Folded(NamesFor(pages[p].zones, net));
      }
      if p :| 0 <= p < |pages| && x in Folded(NamesFor(pages[p].zones, net)) {
        if p < n { assert pages[..n][p] == pages[p]; }
      }
    }
  }

  /** With every page in, all the names have come; and none ever comes from elsewhere. */
  lemma CameFromPages(pages: seq<ZiPage>, arrivals: seq<nat>, net: U16)
    requires Valid(pages, arrivals)
    ensures Came(pages, arrivals, net) <= Folded(NamesFor(ZonesIn(pages), net))
    ensures EveryPage(pages, arrivals) ==> Came(pages, arrivals, net) == Folded(NamesFor(ZonesIn(pages), net))
  {
    hide NamesFor, Folded, ZonesIn;
    forall x | x in Came(pages, arrivals, net) ensures x in Folded(NamesFor(ZonesIn(pages), net)) {
      var i :| 0 <= i < |arrivals| && x in Folded(NamesFor(pages[arrivals[i]].zones, net));
      PagesName(pages, net, x);
    }
    if EveryPage(pages, arrivals) {
      forall x | x in Folded(NamesFor(ZonesIn(pages), net)) ensures x in Came(pages, arrivals, net) {
        PagesName(pages, net, x);
        var p :| 0 <= p < |pages| && x in Folded(NamesFor(pages[p].zones, net));
        assert p in arrivals;
        var i :| 0 <= i < |arrivals| && arrivals[i] == p;
      }
    }
  }

  /** A page that names `net` gives the whole of its list; or, of a list too long for
      one page, a part and the announced size. */
  ghost predicate Gives(p: ZiPage, net: U16, list: seq<Name>, long: Option<nat>) {
    var names := NamesFor(p.zones, net);
    names != [] ==> p.extended == long && Folded(names) <= Folded(list) && (long.None? ==> Folded(names) == Folded(list))
  }

  ghost predicate AllGive(pages: seq<ZiPage>, net: U16, list: seq<Name>, long: Option<nat>) {
    forall i :: 0 <= i < |pages| ==> Gives(pages[i], net, list, long)
  }

  const NOTHING := ZoneList([], None)

  /** Pages of one kind only ever give that kind's expectation. */
  lemma {:induction false} HeldExpects(pages: seq<ZiPage>, arrivals: seq<nat>, net: U16, list: seq<Name>, long: Option<nat>)
    requires Valid(pages, arrivals) && AllGive(pages, net, list, long)
    ensures var h := HeldList(NOTHING, pages, arrivals, net);
            (h.names == [] ==> h == NOTHING) && (h.names != [] ==> h.expected == long)
    ensures var came := Came(pages, arrivals, net);
            came <= Folded(list) && (long.None? && came != {} ==> came == Folded(list))
  {
    hide NamesFor, AddNames, Folded;
    if arrivals != [] {
      var n := |arrivals| - 1;
      HeldExpects(pages, arrivals[..n], net, list, long);
      CameSnoc(pages, arrivals, net);
      var page := pages[arrivals[n]];
      assert Gives(page, net, list, long);
      var names := NamesFor(page.zones, net);
      NonemptyFolds(names);
      var had := HeldList(NOTHING, pages, arrivals[..n], net);
      if names != [] { AddNamesGrows(had.names, names); }
    }
  }

  lemma {:induction false} AddNamesGrows(have: seq<Name>, names: seq<Name>)
    requires names != []
    ensures AddNames(have, names) != []
  {
    hide HoldsName;
    if |names| > 1 {
      AddNamesGrows(have, names[..|names| - 1]);
    } else {
      assert AddNames(have, names[..0]) == have;
      if have == [] { NothingHeld(names[0]); }
    }
  }

  lemma NothingHeld(n: Name)
    ensures !HoldsName([], n)
  {
  }

  lemma SubsetOfSameSize(a: set<Name>, b: set<Name>)
    requires a <= b
    ensures |a| <= |b| && (|a| == |b| <==> a == b)
  {
    assert b == a + (b - a);
  }

  /** Some of a list, and when that counts as all of it. */
  ghost predicate Distributed(z: ZoneList, came: set<Name>, list: seq<Name>, long: Option<nat>) {
    && CaseDistinct(z.names) && Folded(z.names) == came <= Folded(list)
    // A list that fits a page is whole and complete as soon as it is named.
    && (long.None? && came != {} ==> z.Complete() && came == Folded(list))
    // A longer one is complete once as many names are there as were announced...
    && (long.Some? ==> (z.Complete() <==> came != {} && |came| >= long.value))
    // ...which is when all are there, if it was announced at its size.
    && (long == Some(|list|) && CaseDistinct(list) && list != [] ==> (z.Complete() <==> came == Folded(list)))
    && (CaseDistinct(list) && list != [] && came == Folded(list) && (long.Some? ==> long.value <= |list|) ==> z.Complete())
  }

  lemma HeldMeaning(pages: seq<ZiPage>, arrivals: seq<nat>, net: U16, list: seq<Name>, long: Option<nat>)
    requires Valid(pages, arrivals) && AllGive(pages, net, list, long)
    ensures Distributed(HeldList(NOTHING, pages, arrivals, net), Came(pages, arrivals, net), list, long)
  {
    hide HeldList, Came, AllGive, Folded, CaseDistinct;
    HeldExpects(pages, arrivals, net, list, long);
    assert CaseDistinct([]) && Folded([]) == {} by { NonemptyFolds([]); EmptyIsDistinct(); }
    HeldUnites(NOTHING, pages, arrivals, net);
    var h, came := HeldList(NOTHING, pages, arrivals, net), Came(pages, arrivals, net);
    NonemptyFolds(h.names);
    NonemptyFolds(list);
    CaseDistinctCount(h.names);
    if CaseDistinct(list) {
      CaseDistinctCount(list);
      SubsetOfSameSize(came, Folded(list));
    }
  }

  lemma EmptyIsDistinct()
    ensures CaseDistinct([])
  {
  }

  // ------------------------------------------------------------- names as the wire carries them

  /** A packet cuts each name to 32 bytes. */
  function CutAll(ns: seq<Name>): seq<Name> { seq(|ns|, i requires 0 <= i < |ns| => ZoneCodec.Cut(ns[i])) }

  function CutPairs(ps: seq<ZonePair>): seq<ZonePair> {
    seq(|ps|, i requires 0 <= i < |ps| => (ps[i].0, ZoneCodec.Cut(ps[i].1)))
  }

  /** A page as it is read at the other end. */
  function AsRead(p: ZiPage): ZiPage { p.(zones := CutPairs(p.zones)) }

  function AllAsRead(pages: seq<ZiPage>): seq<ZiPage> {
    seq(|pages|, i requires 0 <= i < |pages| => AsRead(pages[i]))
  }

  lemma {:induction false} CutNames(ps: seq<ZonePair>, net: U16)
    ensures NamesFor(CutPairs(ps), net) == CutAll(NamesFor(ps, net))
  {
    if ps != [] {
      var n := |ps| - 1;
      CutNames(ps[..n], net);
      assert CutPairs(ps)[..n] == CutPairs(ps[..n]);
    }
  }

  lemma {:induction false} CutZones(pages: seq<ZiPage>)
    ensures ZonesIn(AllAsRead(pages)) == CutPairs(ZonesIn(pages))
  {
    if pages != [] {
      var n := |pages| - 1;
      CutZones(pages[..n]);
      assert AllAsRead(pages)[..n] == AllAsRead(pages[..n]);
    }
  }

  lemma CutIgnoresCase(m: Name, n: Name)
    requires Lower(m) == Lower(n)
    ensures Lower(ZoneCodec.Cut(m)) == Lower(ZoneCodec.Cut(n))
  {
    assert |m| == |Lower(m)| == |n|;
    forall i | 0 <= i < |m| ensures LowerByte(m[i]) == LowerByte(n[i]) {
      assert Lower(m)[i] == Lower(n)[i];
    }
  }

  lemma CutFolded(a: seq<Name>, b: seq<Name>)
    requires Folded(a) <= Folded(b)
    ensures Folded(CutAll(a)) <= Folded(CutAll(b))
  {
    hide Lower, ZoneCodec.Cut;
    forall x | x in Folded(CutAll(a)) ensures x in Folded(CutAll(b)) {
      var i :| 0 <= i < |a| && Lower(CutAll(a)[i]) == x;
      assert Lower(a[i]) in Folded(a);
      var j :| 0 <= j < |b| && Lower(b[j]) == Lower(a[i]);
      CutIgnoresCase(a[i], b[j]);
      assert Lower(CutAll(b)[j]) == x;
    }
  }

  lemma CutGives(p: ZiPage, net: U16, list: seq<Name>, long: Option<nat>)
    requires Gives(p, net, list, long)
    ensures Gives(AsRead(p), net, CutAll(list), long)
  {
    hide NamesFor, Folded, CutPairs;
    CutNames(p.zones, net);
    var names := NamesFor(p.zones, net);
    if names != [] {
      CutFolded(names, list);
      if long.None? { CutFolded(list, names); }
    }
  }

  /** Everything owed, as it is read. */
  lemma CutOwed(nets: seq<U16>, t: Table, net: U16)
    ensures Folded(NamesFor(CutPairs(Owed(nets, t)), net)) ==
            if net in nets then Folded(CutAll(ZonesOf(t, net).names)) else {}
  {
    var owed := NamesFor(Owed(nets, t), net);
    OwedNames(nets, t, net);
    CutNames(Owed(nets, t), net);
    hide NamesFor, Folded, CutPairs, Owed, ZonesOf;
    NonemptyFolds(owed);
    NonemptyFolds([]);
    if net in nets {
      CutFolded(owed, ZonesOf(t, net).names);
      CutFolded(ZonesOf(t, net).names, owed);
    } else {
      assert CutAll([]) == [];
    }
  }

  // ------------------------------------------------------------- the packets of a whole answer

  lemma {:induction false} PartNames(ps: seq<ZonePair>, from: U16, names: seq<Name>, net: U16)
    requires forall i :: 0 <= i < |ps| ==> ps[i] in PairsOf(from, names)
    ensures if from == net then Folded(NamesFor(ps, net)) <= Folded(names) else NamesFor(ps, net) == []
  {
    hide Lower;
    if ps == [] {
      NonemptyFolds([]);
    } else {
      var n := |ps| - 1;
      PartNames(ps[..n], from, names, net);
      FoldedSnoc(NamesFor(ps[..n], net), ps[n].1);
      assert ps[n] in PairsOf(from, names);
      var k :| 0 <= k < |names| && PairsOf(from, names)[k] == ps[n];
      assert Lower(names[k]) in Folded(names);
    }
  }

  /** A plain page of whole lists gives every list it names. */
  lemma PlainGives(t: Table, nets: seq<U16>, net: U16)
    ensures Gives(ZiPage(None, Owed(nets, t)), net, ZonesOf(t, net).names, None)
    ensures NamesFor(Owed(nets, t), net) != [] ==> net in nets
  {
    OwedNames(nets, t, net);
    NonemptyFolds(NamesFor(Owed(nets, t), net));
  }

  lemma {:induction false} OwedIsLonger(nets: seq<U16>, t: Table, net: U16)
    requires net in nets
    ensures EntriesBytes(ListOf(t, net)) <= EntriesBytes(Owed(nets, t))
    ensures PairsBytes(ListOf(t, net)) <= PairsBytes(Owed(nets, t))
  {
    hide EntriesBytes, PairsBytes, ListOf;
    var n := |nets| - 1;
    EntriesConcat(Owed(nets[..n], t), ListOf(t, nets[n]));
    PairsBytesConcat(Owed(nets[..n], t), ListOf(t, nets[n]));
    if net != nets[n] { OwedIsLonger(nets[..n], t, net); }
  }

  /** How a list goes out in Replies, and how in ZI-Rsp packets. */
  function ReplyKind(t: Table, net: U16): Option<nat> {
    if Alone(ListOf(t, net)) then Some(Total(|ListOf(t, net)|)) else None
  }

  function PacketKind(t: Table, net: U16): Option<nat> {
    if PairsBytes(ListOf(t, net)) > MAX_BODY then Some(|ListOf(t, net)| % 0x1_0000) else None
  }

  lemma ReplyGives(t: Table, p: ZiPage, net: U16)
    requires ReplyFits(p) && WellReplied(t, p)
    ensures Gives(p, net, ZonesOf(t, net).names, ReplyKind(t, net))
  {
    hide NamesFor, Folded, EntriesBytes, Owed, ListOf;
    match p.extended
    case None =>
      var nets: seq<U16> :| p.zones == Owed(nets, t);
      PlainGives(t, nets, net);
      if net in nets { OwedIsLonger(nets, t, net); }
    case Some(total) =>
      var from: U16 :| PartOf(t, from, p, total);
      PartNames(p.zones, from, ZonesOf(t, from).names, net) by { ListIsPairs(t, from); }
  }

  lemma ListIsPairs(t: Table, net: U16)
    ensures ListOf(t, net) == PairsOf(net, ZonesOf(t, net).names)
  {
  }

  lemma PacketGives(t: Table, p: ZiPage, net: U16)
    requires Fits(p) && WellPaged(t, p)
    ensures Gives(p, net, ZonesOf(t, net).names, PacketKind(t, net))
  {
    hide NamesFor, Folded, PairsBytes, WireBytes, Owed, ListOf;
    match p.extended
    case None =>
      var nets: seq<U16> :| p.zones == Owed(nets, t);
      PlainGives(t, nets, net);
      if net in nets { OwedIsLonger(nets, t, net); }
    case Some(count) =>
      var from: U16 :| OverflowPage(t, from, p, count);
      PartNames(p.zones, from, ZonesOf(t, from).names, net) by { ListIsPairs(t, from); }
  }

  lemma {:induction false} KnownMeaning(nets: seq<U16>, t: Table, net: U16)
    ensures net in Known(nets, t) <==> net in nets && ZonesComplete(t, net)
  {
    hide ZonesComplete;
    if nets != [] {
      var n := |nets| - 1;
      KnownMeaning(nets[..n], t, net);
      assert net in nets <==> net in nets[..n] || net == nets[n];
    }
  }

  /** What a network's list comes to in packets. */
  function SentNames(t: Table, net: U16): seq<Name> { CutAll(ZonesOf(t, net).names) }

  /** Zone distribution on a cable. A router `r` that knew nothing of a network's list
      takes in any of the Replies to a Query, in any order and repeated at will, plain
      and Extended, each naming any networks. Of every network's list it then holds what
      has come, case aside, each name once; with every Reply in, the whole list, if it
      was complete at the router that answered and asked for; otherwise nothing. */
  lemma RepliesDistribute(t: Table, nets: seq<U16>, r: Table, arrivals: seq<nat>, net: U16)
    requires At(r.routes, net) != [] && net !in r.zones
    requires Valid(QueryReply(nets, t), arrivals)
    ensures var pages := AllAsRead(QueryReply(nets, t));
            var u, came := Deliver(r, pages, arrivals, false), Came(pages, arrivals, net);
            && u.routes == r.routes && u.best == r.best
            && Distributed(ZonesOf(u, net), came, SentNames(t, net), ReplyKind(t, net))
            && (came != {} ==> net in nets && ZonesComplete(t, net))
            && (EveryPage(pages, arrivals) ==>
                came == if net in nets && ZonesComplete(t, net) then Folded(SentNames(t, net)) else {})
  {
    var made, list := QueryReply(nets, t), ZonesOf(t, net).names;
    var pages := AllAsRead(made);
    QueryReplyIsExact(nets, t);
    DeliveredAt(r, pages, arrivals, false, net);
    hide QueryReply, Deliver, Came, HeldList, Folded, CaseDistinct, ReplyKind, ReplyFits, WellReplied, NamesFor, Owed, ZonesIn,
         At, Distributed, Gives, ZonesComplete, Known, AsRead, CutPairs, CutAll;
    forall i | 0 <= i < |pages| ensures Gives(pages[i], net, CutAll(list), ReplyKind(t, net)) {
      ReplyGives(t, made[i], net);
      CutGives(made[i], net, list, ReplyKind(t, net));
    }
    HeldMeaning(pages, arrivals, net, CutAll(list), ReplyKind(t, net));
    CameFromPages(pages, arrivals, net);
    CutZones(made);
    CutOwed(Known(nets, t), t, net);
    KnownMeaning(nets, t, net);
  }

  /** Zone distribution through a tunnel, the same for ZI-Rsp packets, except that a
      network reached through a port of our own learns nothing from a peer. */
  lemma PacketsDistribute(t: Table, nets: seq<U16>, r: Table, arrivals: seq<nat>, net: U16)
    requires ZonesFit(t) && At(r.routes, net) != [] && net !in r.zones
    requires Valid(ZiPages(nets, t), arrivals)
    ensures var pages := AllAsRead(ZiPages(nets, t));
            var u, came := Deliver(r, pages, arrivals, true), Came(pages, arrivals, net);
            && u.routes == r.routes && u.best == r.best
            && (OwnCable(r, net) ==> ZonesOf(u, net) == NOTHING)
            && (!OwnCable(r, net) ==> Distributed(ZonesOf(u, net), came, SentNames(t, net), PacketKind(t, net)))
            && (came != {} ==> net in nets)
            && (EveryPage(pages, arrivals) ==> came == if net in nets then Folded(SentNames(t, net)) else {})
  {
    var made, list := ZiPages(nets, t), ZonesOf(t, net).names;
    var pages := AllAsRead(made);
    ZiPagesAreExact(nets, t);
    DeliveredAt(r, pages, arrivals, true, net);
    hide ZiPages, Deliver, Came, HeldList, Folded, CaseDistinct, PacketKind, Fits, WellPaged, NamesFor, Owed, ZonesIn,
         At, Distributed, OwnCable, Gives, AsRead, CutPairs, CutAll;
    forall i | 0 <= i < |pages| ensures Gives(pages[i], net, CutAll(list), PacketKind(t, net)) {
      PacketGives(t, made[i], net);
      CutGives(made[i], net, list, PacketKind(t, net));
    }
    HeldMeaning(pages, arrivals, net, CutAll(list), PacketKind(t, net));
    CameFromPages(pages, arrivals, net);
    CutZones(made);
    CutOwed(nets, t, net);
  }
}
