/** Walking a router's zone list: the server answers with as many names as fit one
    ATP response, the client asks again from where the last page ended. */
module ZoneListing {
  import opened Wire
  import opened ZoneCodec

  const ATP_MAX: nat := 578
  const MAX_ZONE_PAGES: nat := 1000

  /** How often one page is asked for before the walk gives up. */
  const ZONE_TRIES: nat := 3

  datatype Reply = Reply(last: bool, zones: seq<Name>)

  /** A name behind its length byte, as the server measures it. */
  function NameBytes(n: Name): nat { 1 + if StringLen(n) < 32 then StringLen(n) else 32 }

  function NamesBytes(ns: seq<Name>): nat {
    if ns == [] then 0 else NamesBytes(ns[..|ns| - 1]) + NameBytes(ns[|ns| - 1])
  }

  /** How many names from the front fit one response, the first `tried` being known to. */
  function Fitting(rest: seq<Name>, tried: nat): (n: nat)
    requires tried <= |rest|
    ensures tried <= n <= |rest|
    decreases |rest| - tried
  {
    if tried < |rest| && NamesBytes(rest[..tried + 1]) <= ATP_MAX then Fitting(rest, tried + 1) else tried
  }

  /** The list from a 1-based index; past the end it is empty. */
  function From(all: seq<Name>, start: U16): seq<Name> {
    var i := if start == 0 then 0 else start - 1;
    if i <= |all| then all[i..] else []
  }

  function Serve(all: seq<Name>, start: U16): Reply {
    var rest := From(all, start);
    var n := Fitting(rest, 0);
    Reply(n == |rest|, rest[..n])
  }

  method ServeLoop(all: seq<Name>, start: U16) returns (r: Reply)
    ensures r == Serve(all, start)
  {
    var rest := From(all, start);
    var size, n := 0, 0;
    while n < |rest|
      invariant n <= |rest| && size == NamesBytes(rest[..n])
      invariant Fitting(rest, n) == Fitting(rest, 0)
    {
      assert rest[..n + 1][..n] == rest[..n];
      size := size + NameBytes(rest[n]);
      if size > ATP_MAX { break; }
      n := n + 1;
    }
    r := Reply(n == |rest|, rest[..n]);
  }

  // ------------------------------------------------------------- one reply as bytes

  /** The names, each behind its length. */
  function ReplyData(zones: seq<Name>): Bytes {
    if zones == [] then [] else PString(zones[0]) + ReplyData(zones[1..])
  }

  /** The user bytes: whether this page is the last, and how many names it has. */
  function ReplyUser(r: Reply): Bytes {
    [if r.last then 1 else 0, 0] + BigEndian(|r.zones| % 0x1_0000)
  }

  function ParseNames(p: Bytes, count: nat): Option<seq<Name>>
    decreases count
  {
    if count == 0 then Some([])
    else
      match ParsePString(p)
      case None => None
      case Some((name, used)) =>
        match ParseNames(p[used..], count - 1)
        case None => None
        case Some(names) => Some([name] + names)
  }

  function ParseReply(user: Bytes, data: Bytes): Option<Reply> {
    if |user| < 4 then None
    else
      match ParseNames(data, FromBigEndian(user[2], user[3]))
      case None => None
      case Some(zones) => Some(Reply(user[0] != 0, zones))
  }

  /** What the client makes of the answer to one request. */
  function Fetched(all: seq<Name>, start: U16): Option<Reply> {
    var r := Serve(all, start);
    ParseReply(ReplyUser(r), ReplyData(r.zones))
  }

  method ReplyDataLoop(zones: seq<Name>) returns (data: Bytes)
    ensures data == ReplyData(zones)
  {
    data := [];
    for i := 0 to |zones|
      invariant data + ReplyData(zones[i..]) == ReplyData(zones)
    {
      assert zones[i..][1..] == zones[i + 1..];
      assert data + PString(zones[i]) + ReplyData(zones[i + 1..]) == data + (PString(zones[i]) + ReplyData(zones[i + 1..]));
      data := data + PString(zones[i]);
    }
    assert ReplyData(zones[|zones|..]) == [];
  }

  method ParseReplyLoop(user: Bytes, data: Bytes) returns (r: Option<Reply>)
    ensures r == ParseReply(user, data)
  {
    if |user| < 4 { return None; }
    var count: nat := FromBigEndian(user[2], user[3]);
    var rest, zones := data, [];
    assert forall more: seq<Name> :: [] + more == more;
    for i := 0 to count
      invariant ParseNames(data, count) ==
                (match ParseNames(rest, count - i) case None => None case Some(more) => Some(zones + more))
    {
      match ParsePString(rest)
      case None => return None;
      case Some((name, used)) =>
        ghost var more := ParseNames(rest[used..], count - i - 1);
        assert more.Some? ==> zones + ([name] + more.value) == zones + [name] + more.value;
        zones := zones + [name];
        rest := rest[used..];
    }
    assert zones + [] == zones;
    return Some(Reply(user[0] != 0, zones));
  }

  lemma NameReadsBack(n: Name, rest: Bytes)
    requires |n| <= MAX_NAME
    ensures ParsePString(PString(n) + rest) == Some((n, |PString(n)|))
    ensures (PString(n) + rest)[|PString(n)|..] == rest
  {
    var p := PString(n) + rest;
    assert p[0] == |n| && p[1..1 + |n|] == n;
  }

  lemma DataHead(zones: seq<Name>)
    requires zones != []
    ensures ReplyData(zones) == PString(zones[0]) + ReplyData(zones[1..])
  {
    hide PString;
  }

  lemma OneMoreName(p: Bytes, count: nat, name: Name, used: nat, more: seq<Name>)
    requires used <= |p| && ParsePString(p) == Some((name, used)) && ParseNames(p[used..], count) == Some(more)
    ensures ParseNames(p, count + 1) == Some([name] + more)
  {
    hide ParsePString;
  }

  lemma {:induction false} NamesReadBack(zones: seq<Name>)
    requires forall i :: 0 <= i < |zones| ==> |zones[i]| <= MAX_NAME
    ensures ParseNames(ReplyData(zones), |zones|) == Some(zones)
  {
    if zones != [] {
      NamesReadBack(zones[1..]);
      NameReadsBack(zones[0], ReplyData(zones[1..]));
      DataHead(zones);
      hide PString, ParsePString, ParseNames, ReplyData;
      var p, used := ReplyData(zones), |PString(zones[0])|;
      assert p[used..] == ReplyData(zones[1..]);
      assert zones == [zones[0]] + zones[1..];
      OneMoreName(p, |zones| - 1, zones[0], used, zones[1..]);
    }
  }

  lemma {:induction false} DataIsWithinMeasure(zones: seq<Name>)
    ensures |ReplyData(zones)| <= NamesBytes(zones)
  {
    if zones != [] {
      DataIsWithinMeasure(zones[1..]);
      EntriesHead(zones);
      StringLenBounds(zones[0]);
    }
  }

  lemma {:induction false} EntriesHead(ns: seq<Name>)
    requires ns != []
    ensures NamesBytes(ns) == NameBytes(ns[0]) + NamesBytes(ns[1..])
  {
    if |ns| > 1 {
      EntriesHead(ns[..|ns| - 1]);
      assert ns[..|ns| - 1][1..] == ns[1..][..|ns| - 2];
    } else {
      assert NamesBytes(ns[..0]) == 0 && NamesBytes(ns[1..]) == 0;
    }
  }

  lemma ServedNames(all: seq<Name>, start: U16)
    requires LegalNames(all) && |all| < 0x1_0000
    ensures |Serve(all, start).zones| < 0x1_0000
    ensures forall i :: 0 <= i < |Serve(all, start).zones| ==> |Serve(all, start).zones[i]| <= MAX_NAME
  {
    hide Fitting;
    assert forall i :: 0 <= i < |Serve(all, start).zones| ==> Serve(all, start).zones[i] in all;
  }

  lemma ReplyReadsBack(r: Reply)
    requires |r.zones| < 0x1_0000 && forall i :: 0 <= i < |r.zones| ==> |r.zones[i]| <= MAX_NAME
    ensures ParseReply(ReplyUser(r), ReplyData(r.zones)) == Some(r)
  {
    hide ParseNames, ReplyData;
    NamesReadBack(r.zones);
    CountReadsBack(|r.zones|);
    var user := ReplyUser(r);
    assert user[0] == if r.last then 1 else 0;
    assert user[2] == BigEndian(|r.zones|)[0] && user[3] == BigEndian(|r.zones|)[1];
  }

  /** A page of legal names reaches the client as the server meant it, inside one ATP
      response. */
  lemma PageSurvives(all: seq<Name>, start: U16)
    requires LegalNames(all) && |all| < 0x1_0000
    ensures Fetched(all, start) == Some(Serve(all, start)) && |ReplyData(Serve(all, start).zones)| <= ATP_MAX
  {
    hide Serve, ReplyData, NamesBytes, ParseReply, ReplyUser, LegalNames;
    ServedNames(all, start);
    PagesMakeProgress(all, start);
    DataIsWithinMeasure(Serve(all, start).zones);
    ReplyReadsBack(Serve(all, start));
  }

  lemma CountReadsBack(n: nat)
    requires n < 0x1_0000
    ensures n % 0x1_0000 == n && FromBigEndian(BigEndian(n)[0], BigEndian(n)[1]) == n
  {
  }

  // ------------------------------------------------------------- the client's loop

  /** Where the next request starts, or None when the list is complete, the page is
      empty, or the index has run out. */
  function NextStart(start: U16, r: Reply): Option<U16> {
    if !r.last && r.zones != [] && start + |r.zones| % 0x1_0000 < 0x1_0000 then
      Some(start + |r.zones| % 0x1_0000)
    else None
  }

  /** Names the list does not hold yet, in order. */
  function Collected(zones: seq<Name>, names: seq<Name>): seq<Name> {
    if names == [] then zones
    else
      var n := |names| - 1;
      var out := Collected(zones, names[..n]);
      if names[n] in out then out else out + [names[n]]
  }

  /** Collecting takes the union, keeps what was held in front, and holds no name twice. */
  lemma {:induction false} CollectedMeaning(zones: seq<Name>, names: seq<Name>, name: Name)
    ensures zones <= Collected(zones, names)
    ensures name in Collected(zones, names) <==> name in zones || name in names
    ensures Distinct(zones) ==> Distinct(Collected(zones, names))
  {
    if names != [] {
      var n := |names| - 1;
      CollectedMeaning(zones, names[..n], name);
      CollectedMeaning(zones, names[..n], names[n]);
      assert names == names[..n] + [names[n]];
    }
  }

  /** Which requests are answered in time: try `k` of the request made with `left` pages
      still allowed. */
  type Answers = (nat, nat) -> bool

  /** One page, asked for until an answer arrives that parses. */
  function Asked(all: seq<Name>, start: U16, left: nat, heard: Answers, tries: nat): Option<Reply> {
    if tries == 0 then None
    else
      var r := Asked(all, start, left, heard, tries - 1);
      if r.Some? then r else if heard(left, tries - 1) then Fetched(all, start) else None
  }

  /** The client's loop against a router whose list does not change; None when a page
      is never answered. */
  function Walk(all: seq<Name>, zones: seq<Name>, start: U16, left: nat, heard: Answers): Option<seq<Name>>
    decreases left
  {
    if left == 0 then Some(zones)
    else
      match Asked(all, start, left, heard, ZONE_TRIES)
      case None => None
      case Some(r) =>
        var got := Collected(zones, r.zones);
        match NextStart(start, r)
        case None => Some(got)
        case Some(next) => Walk(all, got, next, left - 1, heard)
  }

  method Collect(zones: seq<Name>, names: seq<Name>) returns (out: seq<Name>)
    ensures out == Collected(zones, names)
  {
    out := zones;
    for i := 0 to |names|
      invariant out == Collected(zones, names[..i])
    {
      assert names[..i + 1][..i] == names[..i];
      if names[i] !in out { out := out + [names[i]]; }
    }
    assert names[..|names|] == names;
  }

  method AskForPage(all: seq<Name>, start: U16, left: nat, heard: Answers) returns (r: Option<Reply>)
    ensures r == Asked(all, start, left, heard, ZONE_TRIES)
  {
    hide Serve, ReplyUser, ReplyData, ParseReply;
    r := None;
    for k := 0 to ZONE_TRIES
      invariant r == None && r == Asked(all, start, left, heard, k)
    {
      if heard(left, k) {
        var page := ServeLoop(all, start);
        var data := ReplyDataLoop(page.zones);
        r := ParseReplyLoop(ReplyUser(page), data);
      }
      if r.Some? {
        AnsweredOnce(all, start, left, heard, k);
        return;
      }
    }
  }

  /** Once a page is answered it is not asked for again. */
  lemma {:induction false} AnsweredOnce(all: seq<Name>, start: U16, left: nat, heard: Answers, k: nat)
    requires k < ZONE_TRIES && Asked(all, start, left, heard, k + 1).Some?
    ensures Asked(all, start, left, heard, ZONE_TRIES) == Asked(all, start, left, heard, k + 1)
    decreases ZONE_TRIES - k
  {
    hide Fetched;
    if k + 1 < ZONE_TRIES { AnsweredOnce(all, start, left, heard, k + 1); }
  }

  method ZoneList(all: seq<Name>, heard: Answers) returns (found: Option<seq<Name>>)
    ensures found == Walk(all, [], 1, MAX_ZONE_PAGES, heard)
  {
    hide Asked, Collected;
    var zones: seq<Name> := [];
    var start: U16 := 1;
    var done := 0;
    while done < MAX_ZONE_PAGES
      invariant done <= MAX_ZONE_PAGES
      invariant Walk(all, [], 1, MAX_ZONE_PAGES, heard) == Walk(all, zones, start, MAX_ZONE_PAGES - done, heard)
    {
      var answer := AskForPage(all, start, MAX_ZONE_PAGES - done, heard);
      if answer.None? { return None; }
      var r := answer.value;
      zones := Collect(zones, r.zones);
      match NextStart(start, r)
      case None => return Some(zones);
      case Some(next) => start := next;
      done := done + 1;
    }
    return Some(zones);
  }

  // ------------------------------------------------------------- one page

  ghost predicate LegalNames(all: seq<Name>) {
    && (forall i :: 0 <= i < |all| ==> 1 <= |all[i]| <= 32)
    && (forall i, j :: 0 <= i < j < |all| ==> all[i] != all[j])
  }

  lemma {:induction false} FittingMeaning(rest: seq<Name>, tried: nat)
    requires tried <= |rest| && NamesBytes(rest[..tried]) <= ATP_MAX
    ensures var n := Fitting(rest, tried);
            NamesBytes(rest[..n]) <= ATP_MAX && (n < |rest| ==> NamesBytes(rest[..n + 1]) > ATP_MAX)
    decreases |rest| - tried
  {
    if tried < |rest| && NamesBytes(rest[..tried + 1]) <= ATP_MAX { FittingMeaning(rest, tried + 1); }
  }

  lemma {:induction false} EntriesAreShort(ns: seq<Name>)
    ensures NamesBytes(ns) <= 33 * |ns|
  {
    if ns != [] { EntriesAreShort(ns[..|ns| - 1]); }
  }

  /** Every response fits, and one that is not the last brings at least
      seventeen names. */
  lemma PagesMakeProgress(all: seq<Name>, start: U16)
    ensures var r := Serve(all, start);
            NamesBytes(r.zones) <= ATP_MAX && (!r.last ==> |r.zones| >= 17)
  {
    var rest := From(all, start);
    FittingMeaning(rest, 0);
    var n := Fitting(rest, 0);
    if n < |rest| { EntriesAreShort(rest[..n + 1]); }
  }

  // ------------------------------------------------------------- the walk

  /** How many names the first `pages` pages from index `done` reach. */
  function Reached(all: seq<Name>, done: nat, pages: nat): (n: nat)
    requires done <= |all| < 0xffff
    ensures done <= n <= |all|
    decreases pages
  {
    if pages == 0 then done
    else
      var next := done + Fitting(all[done..], 0);
      if next == |all| || next == done then next else Reached(all, next, pages - 1)
  }

  lemma {:induction false} CollectingNewNames(zones: seq<Name>, names: seq<Name>)
    requires forall i :: 0 <= i < |names| ==> names[i] !in zones
    requires forall i, j :: 0 <= i < j < |names| ==> names[i] != names[j]
    ensures Collected(zones, names) == zones + names
  {
    if names != [] {
      var n := |names| - 1;
      CollectingNewNames(zones, names[..n]);
      assert zones + names[..n] + [names[n]] == zones + names;
    } else {
      assert zones + names == zones;
    }
  }

  /** One page of the walk, `done` names in. */
  lemma OnePage(all: seq<Name>, done: nat)
    requires LegalNames(all) && done <= |all| < 0xffff
    ensures var n, r := Fitting(all[done..], 0), Serve(all, done + 1);
            && Collected(all[..done], r.zones) == all[..done + n]
            && NextStart(done + 1, r) == if 0 < n < |all| - done then Some(done + 1 + n) else None
  {
    hide Fitting, Collected;
    var rest, r := all[done..], Serve(all, done + 1);
    var n := Fitting(rest, 0);
    assert From(all, done + 1) == rest;
    assert r.zones == rest[..n] == all[done..done + n];
    CollectingNewNames(all[..done], r.zones);
    assert all[..done] + all[done..done + n] == all[..done + n];
  }

  /** Every page the walk asks for is answered on one of its tries. */
  ghost predicate AllAnswered(all: seq<Name>, done: nat, left: nat, heard: Answers)
    requires done <= |all| < 0xffff
    decreases left
  {
    left == 0 ||
    ((exists k :: 0 <= k < ZONE_TRIES && heard(left, k)) &&
     var next := done + Fitting(all[done..], 0);
     (next == |all| || next == done || AllAnswered(all, next, left - 1, heard)))
  }

  /** Only an answer that arrives counts, and which try it comes on does not matter. */
  lemma {:induction false} AskedMeaning(all: seq<Name>, start: U16, left: nat, heard: Answers, tries: nat)
    requires Fetched(all, start).Some?
    ensures Asked(all, start, left, heard, tries) ==
            if exists k :: 0 <= k < tries && heard(left, k) then Fetched(all, start) else None
  {
    hide Fetched;
    if tries > 0 { AskedMeaning(all, start, left, heard, tries - 1); }
  }

  /** The walk collects exactly the names its pages reach, in order, each once, if every
      page is answered; otherwise it fails. */
  lemma {:induction false} WalkCollects(all: seq<Name>, done: nat, left: nat, heard: Answers)
    requires LegalNames(all) && done <= |all| < 0xffff
    ensures Walk(all, all[..done], done + 1, left, heard) ==
            if AllAnswered(all, done, left, heard) then Some(all[..Reached(all, done, left)]) else None
    decreases left
  {
    hide Fitting, Collected, Serve, NextStart, LegalNames, Fetched, Asked;
    if left > 0 {
      OnePage(all, done);
      PageSurvives(all, done + 1);
      AskedMeaning(all, done + 1, left, heard, ZONE_TRIES);
      var n := Fitting(all[done..], 0);
      if 0 < n < |all| - done { WalkCollects(all, done + n, left - 1, heard); }
    }
  }

  /** The page after `done` names brings at least seventeen, or all that are left. */
  lemma PageAdvances(all: seq<Name>, done: nat)
    requires done <= |all| < 0xffff
    ensures var n := Fitting(all[done..], 0); done + n == |all| || n >= 17
  {
    PagesMakeProgress(all, done + 1);
    assert From(all, done + 1) == all[done..];
    hide Fitting;
  }

  lemma {:induction false} PagesReach(all: seq<Name>, done: nat, pages: nat)
    requires done <= |all| < 0xffff && |all| - done <= 17 * pages
    ensures Reached(all, done, pages) == |all|
    decreases pages
  {
    hide Fitting;
    if pages > 0 {
      PageAdvances(all, done);
      var n := Fitting(all[done..], 0);
      if n > 0 && done + n < |all| { PagesReach(all, done + n, pages - 1); }
    }
  }

  /** The round trip: the client ends up with the router's list, in order and each name
      once, exactly when every page it asks for is answered within its tries and a
      thousand pages reach the end. */
  lemma ZoneListIsComplete(all: seq<Name>, heard: Answers)
    requires LegalNames(all) && |all| < 0xffff
    ensures Walk(all, [], 1, MAX_ZONE_PAGES, heard) == Some(all)
            <==> AllAnswered(all, 0, MAX_ZONE_PAGES, heard) && Reached(all, 0, MAX_ZONE_PAGES) == |all|
    ensures |all| <= 17 * MAX_ZONE_PAGES ==> Reached(all, 0, MAX_ZONE_PAGES) == |all|
  {
    hide Walk, Reached, LegalNames, AllAnswered;
    WalkCollects(all, 0, MAX_ZONE_PAGES, heard);
    if |all| <= 17 * MAX_ZONE_PAGES { PagesReach(all, 0, MAX_ZONE_PAGES); }
    assert all[..0] == [];
    assert all[..|all|] == all;
    var n := Reached(all, 0, MAX_ZONE_PAGES);
    if n < |all| { assert |all[..n]| < |all|; }
  }
}
