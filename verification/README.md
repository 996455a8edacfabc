# AppleTalk router: models and proofs

The repository is an AppleTalk stack: a router with RTMP, ZIP and AURP tunnels, a bridge between
EtherTalk and LocalTalk, a TashTalk link and the wire formats they share. Its decision-making code
takes decoded frames and a clock and returns actions. This project models that code in Dafny and
proves what it promises, for every input, every run and every interleaving of the modelled steps.

`dafny verify dfyconfig.toml` checks the whole project.

## How it is laid out

Where the repository changes an object in place there are two layers. A *value* module gives each
operation as a function from old state to new state and carries the theorems; a *class* module has
the fields, methods and loops of the original, and every method's `ensures` equates the object's new
value (and what it returns) with that function of the old value. So each theorem about the functions
is a theorem about the object.

| part of the repository | value and theorems | object |
|---|---|---|
| routing and zone tables (`src/router/table.rs`) | `Table`, `TableTheorems`, `TableMeaning` | `RoutingTables` |
| AURP peer (`src/router/aurp.rs`) | `Aurp`, `Paging`, `PeerTheorems`, `PeerMeaning`, `ExportSync`, `TunnelView`, `RangeView`, `TwoRouters`, `Delivery`, `SenderSteps`, `Opening`, `Synchrony`, `Convergence`, `RouterRuns` | `PeerLink` |
| bridge (`src/bridge.rs`) | `Bridge`, `BridgeTheorems`, `BridgeContests`, `BridgeAnswers` | `BridgeBox` |
| TashTalk link (`src/tashtalk.rs`) | `Fcs`, `Tashtalk` | `Tashtalk.Decoder` |
| ATP reassembly (`src/session.rs`) | `Session` | `Session.Transactions` |
| wire formats (`src/wire/`) | `ZoneCodec`, `TupleCodec`, `Ddp`, `KnownPackets` | loops in the same modules |
| zone distribution, zone-list walk, forwarding | `ZipReplies`, `ZoneDistribution`, `ListCompletion`, `ZoneListing`, `Packing`, `Forwarding` | loops in the same modules |

Time is a natural number of milliseconds, addresses are small datatypes, and a zone name is a
sequence of bytes, one per Latin-1 character. Sixteen-bit numbers wrap or skip 0 explicitly, and
every truncation to a byte, to ten bits or to fifteen bits is written out.

## The main results

* **What a peer is told stays in step with what the table exports.** `TwoRouters` and `Delivery` put
  two routers and two channels together. The channels lose and repeat packets but keep their order. At
  every moment of every run that starts from a served RI-Req, while the sender's connection stands, what
  has been sent, then the pages in hand, then the pending events, tell the peer exactly the export
  (`NothingIsLost`); each numbered command is taken
  once and in order across the wrap at 65535, and the receiver is never driven out of its connection
  (`DeliveredOnceInOrder`); the receiver waits for the export exactly until the page marked last has come
  (`ConnectedWithTheLastPage`), and the ack of whatever names new networks brings their zone lists
  (`FirstAckAsks`, `AckBringsZones`). When nothing is outstanding or pending, the receiver is connected and the
  *receiving routing table* holds through that peer exactly the exported networks, one good route each, of the
  whole range, one hop further (`QuietMeansSynchronised`), for every network whose range did not change while
  its withdrawal was pending (`RangeView.FlushKeepsRange` has that condition exactly).
  `Convergence` shows that such a moment is reached from any other, in a number of steps bounded by what is
  in flight, in hand and pending (`SynchronisationIsReached`), if and only if the sender has not given up
  (`QuietIsPossible`).
  Between them stand the collapse of events (`CollapseRefinesStream`), batches of table operations
  judged by the tables at their end (`RouteOpsKeepStep`), and the paged export (`ServingPutsInStep`).
  `RouterRuns` follows one router through everything else that moves its tables: what is queued for a peer
  is true of them at every moment, so an export can be served whenever no addition is pending
  (`AnyRunMayServe`).
* **A peer's timers.** Each request goes out five times, ten seconds apart, and a tickle ten times after
  ninety seconds of silence; what follows the last is exact, down to the routes that go and the connection
  that is never used again (`OpeningGivesUp`, `SilenceEndsTheConnection`, `UnackedClosesTheSender`,
  `OldConnectionIsDead`).
* **The table.** One invariant kept by every operation, with the exact inputs that break it; what
  "best route" means; and the stream of reported changes replays the table over every run. A route nobody
  confirms stands exactly as many levels down as validity periods went by, is not used after two and is gone
  after four (`AgingIsExact`, `UnconfirmedIsNotUsed`). An export has one tuple for each network a peer may
  learn, the whole range, flag and distance of a shortest usable route (`ExportIsExact`).
* **The bridge.** Entries and questions stay consistent and young over every run; a node changes sides
  only after two seconds in which the side first believed was silent, or after its entry aged out; no
  contest outlives thirty seconds. A node heard on the other side is doubted and the side believed is asked
  (`ContestBegins`); the contest is then decided by whichever comes first, that side speaking or two seconds
  of its silence (`ContestIsDecided`). Every denial of an ID answers one enquiry made less than two seconds
  earlier, and every enquiry answered in time from the cable is denied (`EnquiryIsAnswered`); the bridge
  answers for a node only on evidence; and a datagram only ever crosses to the other side, verbatim, when
  nothing known or doubted says otherwise.
* **Codecs.** ZI-Rsp name compression, network tuples, events, options, RTMP Data, DDP headers and
  GetZoneList replies: each round trip is stated with the exact condition under which it holds.
* **CRC-16/X-25.** A frame checks out with two bytes at its end if and only if they are its check
  sequence; every burst of up to sixteen bits, anywhere in a frame, and every odd number of flipped bits is
  detected. The decoder gives back a legal frame at its last byte and is resynchronised by two terminators.
* **Zone distribution.** Feed a router any Replies to a Query, plain and Extended, each naming any networks,
  in any order and repeated at will: of every network's list it holds exactly the names that came, and with
  every Reply in, exactly the complete lists asked for (`RepliesDistribute`); the same for ZI-Rsp packets
  (`PacketsDistribute`). When a list counts as complete, and when that is exactly with its last page, has an
  exact condition for either kind (`ListCompletesWithItsLastPage`, `PacketsCompleteWithTheLast`).
* **Zone-list walk, reassembly, forwarding.** The walk collects exactly the router's list, if every page is
  answered; reassembly is independent of order, repetition, interleaving and the expiry of other
  transactions. A datagram is forwarded if and only if it has made under 15 hops, a usable route covers its
  network and the chosen one does not lead back (`ForwardMeaning`); along routers whose distance falls by one
  at each it reaches the node it is for if and only if it still has room for the hops charged
  (`ChainDelivers`); and one that arrived with *h* hops is forwarded at most 2·(15 − *h*) more times whatever
  the tables do meanwhile.

## Where the code does not keep the property

The code is modelled as it is. Each of the first six is proved with the exact condition and a concrete input.

* `AddZones` on an exported network can announce a longer list than is held. The network leaves the
  export and no change is reported, so no peer is told (`ExportSync.UnfinishedListIsSilent`). Peers stay
  in step exactly when no list of an exported network is unfinished this way (`ExportSync.ZonesKeepStep`).
* An RI-Req served while an addition is pending puts the peer out of step: the addition and a later
  deletion cancel, and the peer keeps a network nobody withdraws (`ExportSync.AdditionAcrossExportIsLost`,
  with the input in `ExportSync.ServedThenWithdrawn`).
  Serving puts the peer in step exactly when no addition is pending and the peer holds no stray network
  (`ExportSync.ServingPutsInStep`).
* A network withdrawn and added back with another range before the update goes out is told as a change of
  distance, and the peer keeps the old range (`TunnelView.ReaddedRange`, `TunnelView.RangeGrowsUnheard`).
  An update brings the peer to the range exported exactly when this is not so (`RangeView.FlushKeepsRange`).
* A tuple whose range is inverted breaks the table's invariant exactly when the table stores it
  (`TableTheorems.LearnKeepsInv`, `TableTheorems.InvertedRangeBreaks`); `NetworkTuple::parse` does not
  refuse one.
* A network that the receiving table has no room for is lost to it, exactly when something in the table
  blocks its range (`TunnelView.BlockedIsLost`, `TunnelView.BlockedByACable`).
* A ZIP list of more than 255 zones announces 255 and is taken for complete once 255 names have come, as the
  comment in the code says. It is still complete exactly with its last page if and only if every page holds
  more names than the list has above 255 (`ListCompletion.ListCompletesWithItsLastPage`); a list of 257 zones
  whose last page holds one is complete without it (`ListCompletion.CompleteWithAPageMissing`). Through a
  tunnel the count has sixteen bits and the limit is 65535 (`ListCompletion.PacketsCompleteWithTheLast`).
* LocalTalk's short header carries no hop count, so a datagram's count restarts there. It does not
  break the bound on forwarding, because such a datagram is already on its own cable
  (`Forwarding.ShortHeaderEnds`, `Forwarding.AttachedIsBest`).

Where the code and its comments differ, the code is followed: the comment on `MAX_BODY` speaks of body
bytes, while the four bytes of a ZI-Rsp's subcode and count are not in what the splitter measures, so its
body can reach 1404 bytes. `Paging.ZiPagesAreExact` bounds the tuples, as the code does.

## Model

| member | source | states |
|---|---|---|
| TableTheorems.PickMeaning | src/router/table.rs:489-506 | the choice is a usable match of least distance; on a tie it is the incumbent if the incumbent ties, and otherwise the first one found; none only when nothing usable matches |
| TableTheorems.BestIsLocal | src/router/table.rs:508-514 | the best route of a start depends only on that start's routes and its own incumbent |
| TableTheorems.BestIsStable | src/router/table.rs:529-538 | recording the winner as incumbent does not change the winner |
| TableTheorems.SettleMeaning | src/router/table.rs:529-541 | settling records the best of exactly the given starts, drops a zone list exactly where no route is left, and touches nothing else |
| TableTheorems.SettleReports | src/router/table.rs:542-551 | one change at most per start; reported exactly when target, distance or existence changed; it names the old and the new best |
| TableTheorems.SettledTable | src/router/table.rs:522-552 | replacing the routes of some starts and settling those starts restores the invariant and reports what became of every start |
| TableTheorems.LearnKeepsInv | src/router/table.rs:173-233 | learning a tuple keeps the invariant if and only if its range is in order, or it is blocked, or it is out of reach |
| TableTheorems.InvertedRangeBreaks | src/wire/rtmp.rs:29-41 | a concrete tuple, 5 to 3, that breaks it |
| TableTheorems.LearnKeepsRoutesOk | src/router/table.rs:184-231 | ranges stay pairwise equal or disjoint, (range, target, next) stays unique, distances stay at most 15 |
| TableTheorems.LearnTouchesOneStart | src/router/table.rs:189-232 | a tuple changes no route of any other start |
| TableTheorems.SweepKeepsInv | src/router/table.rs:242-290 | aging, dropping a target, dropping one network and changing a distance keep the invariant and report what became of every start |
| TableTheorems.SweepTouchesItsStarts | src/router/table.rs:264-290 | a sweep changes only the starts it settles |
| TableTheorems.ZonesKeepInv | src/router/table.rs:343-369 | zone lists never move a best route, and at most one change is reported, for that start |
| TableTheorems.PortKeepsInv | src/router/table.rs:149-168 | a configured port on a clear range keeps the invariant, is the best route of its range and disturbs no other |
| TableTheorems.StepKeepsInv | src/router/table.rs:173-369 | every operation keeps the invariant and reports exactly what changed |
| TableTheorems.HeardAt | src/router/table.rs:94-101 | replaying changes leaves a start at the last change reported for it |
| TableTheorems.ChangesTrackOneStep | src/router/table.rs:529-552 | a listener that applies what one operation reports keeps the best target and distance of every start |
| TableTheorems.ChangesTrackEveryRun | src/router/table.rs:173-369 | over any run of operations, replaying every reported change reproduces the best target and distance of every start |
| TableTheorems.BestForNetIsBestOfItsRange | src/router/table.rs:235-237 | looking a network number up gives the best route of the one range that holds it, incumbent included |
| TableTheorems.UnroutedNetHasNoBest | src/router/table.rs:235-237 | a network in no range has no best route |
| TableTheorems.StartsMeaning | src/router/table.rs:475-487 | the starts are distinct and are exactly those with a route |
| TableTheorems.ExportMeaning | src/router/table.rs:324-330 | the export names exactly the exportable starts, each at its best distance, all below 15; ranges and flags are in TableMeaning.ExportIsExact |
| TableTheorems.AnnouncedMeaning | src/router/table.rs:297-317 | how one start is announced on a cable: never back the way its best route goes, its distance while below 15, 31 when no usable route is left |
| TableTheorems.BeaconMeaning | src/router/table.rs:295-319 | a beacon announces every start so, and no other |
| TableTheorems.StepKeepsTunnels | src/router/aurp.rs:269-287 | an operation such as a tunnel asks for keeps every tunnel route good, without a next router, at distance 1 to 15; RouterRuns.PeersKeepTunnels has that peers ask for no other |
| TableTheorems.StepRoutes | src/router/table.rs:173-369 | the routes each operation leaves, settling aside |
| TableTheorems.AgingTakesItsTime | src/router/table.rs:37-44 | under any ticks each level costs a full validity period; nothing is deleted before four of them; that it then goes is TableMeaning.AgingIsExact |
| TableTheorems.ConfirmedRouteLasts | src/router/table.rs:242-262 | a route confirmed good stays usable for 40 s and present for 80 s, whatever else the table does, unless refreshed or removed |
| TableMeaning.LearnMeaning | src/router/table.rs:189-231 | the one route of a tuple's range, target and next router becomes what was heard: condemned where it stands by 31, deleted from 15 on otherwise, replaced below 15; every other route stays |
| TableMeaning.LearnedRoutes | src/router/table.rs:173-233 | so on the whole table, unless a route with a network in common, or a cable of our own, forbids the tuple |
| TableMeaning.TargetGone | src/router/table.rs:264-269 | a target that goes takes all its routes and no other |
| TableMeaning.StartGone | src/router/table.rs:271-275 | a network of a target that goes takes its routes and no other |
| TableMeaning.DistanceSet | src/router/table.rs:277-290 | a changed distance: the same routes, those of that network of that target at the new distance and confirmed now |
| TableMeaning.AgesExactly | src/router/table.rs:37-44 | under any ticks a port's route is exactly as many levels down as 20 s periods went by, each counted from the one before |
| TableMeaning.AgingIsExact | src/router/table.rs:242-262 | so over any run of operations that does not confirm it; gone after four periods, and sooner only when removed |
| TableMeaning.OneLevelATick | src/router/table.rs:242-262 | left alone, after k ticks at least 20 s apart it stands exactly k levels down |
| TableMeaning.UnconfirmedIsNotUsed | src/router/table.rs:242-262 | after two such ticks it is never chosen, by start or by number; after four it is not there |
| TableMeaning.BestIsShortest | src/router/table.rs:489-506 | the best route of a start is a shortest usable one, and there is none only when all are bad or worst |
| TableMeaning.ExportIsExact | src/router/table.rs:324-330 | one tuple for each start a peer may learn, and each the whole range, the flag and the distance of a shortest usable route |
| TableMeaning.AnnouncedIsExact | src/router/table.rs:297-317 | what a cable is told of a start, whole: its best route unless that leads there or is 15 hops off; the first unusable one at 31 when no other is left |
| TableMeaning.BeaconIsExact | src/router/table.rs:295-319 | a beacon has one tuple for each start there is something to say about, and no other |
| RoutingTables.Tables.constructor | src/router/table.rs:143-145 | an empty table |
| RoutingTables.Tables.Choose | src/router/table.rs:491-506 | the loop over the routes makes the choice described above |
| RoutingTables.Tables.ListStarts | src/router/table.rs:475-477 | distinct starts in the order learned |
| RoutingTables.Tables.StartsThrough | src/router/table.rs:479-487 | distinct starts reached through one target |
| RoutingTables.Tables.TakeSnapshot | src/router/table.rs:522-524 | the best route of each start |
| RoutingTables.Tables.ListExport | src/router/table.rs:324-330 | the export, which TableMeaning.ExportIsExact gives tuple by tuple |
| RoutingTables.Tables.ListBeacon | src/router/table.rs:295-319 | the tuples for one port |
| RoutingTables.Tables.HasRouteAt | src/router/table.rs:538-538 | whether a start still has a route |
| RoutingTables.Tables.SettleStart | src/router/table.rs:532-541 | one start settled, every other left alone |
| RoutingTables.Tables.SettleStarts | src/router/table.rs:529-552 | settling in place, with the changes reported |
| RoutingTables.Tables.AddPort | src/router/table.rs:149-168 | the new state of all three fields |
| RoutingTables.Tables.Learn | src/router/table.rs:173-233 | the table and the changes after one tuple |
| RoutingTables.Tables.Age | src/router/table.rs:242-262 | the table and the changes after a validity tick, which TableMeaning.AgingIsExact follows over any run |
| RoutingTables.Tables.RemoveTarget | src/router/table.rs:264-269 | the table and the changes after a target goes |
| RoutingTables.Tables.Remove | src/router/table.rs:271-275 | the table and the changes after one network of a target goes |
| RoutingTables.Tables.SetDistance | src/router/table.rs:277-290 | the table and the changes after a distance moves, updated in place |
| RoutingTables.Tables.AddZones | src/router/table.rs:343-369 | the zone list extended, and an addition exactly when the network has just become exportable |
| Paging.SplitTuplesLoop | src/router/aurp.rs:1000-1013 | the page-splitting loop |
| Paging.SplitIsExact | src/router/aurp.rs:998-1013 | the pages join back to the export, each within 1400 bytes, none empty unless the export is |
| Paging.ChunksLoop | src/router/aurp.rs:1042-1056 | the loop that splits one long list |
| Paging.ZiPagesLoop | src/router/aurp.rs:1021-1067 | the loop that fills ZI-Rsp packets |
| Paging.ChunksMeaning | src/router/aurp.rs:1036-1056 | an overflowing list goes out whole, in order, every page within the limit and announcing the whole list's size modulo 2^16 |
| Paging.ZiPagesAreExact | src/router/aurp.rs:1015-1067 | the packets carry exactly the lists of the networks asked for, in order; each fits; a plain packet holds whole lists, a counted one part of a list that overflows |
| Packing.PagesAreFull | src/router/aurp.rs:1000-1013 | every page of an export but the last had no room at 1400 bytes for the next tuple |
| Packing.ChunksAreFull | src/router/aurp.rs:1042-1056 | nor had any packet of an overflowing list for the next name |
| Packing.PlainPacketsAreFull | src/router/aurp.rs:1021-1067 | of two plain ZI-Rsp packets in a row the first had no room for the list the second begins with |
| Packing.BeaconsAreFull | src/router/local.rs:563-581 | every packet of a beacon but the last had no room at 586 bytes for the next tuple |
| Packing.ExtendedRepliesAreFull | src/router/local.rs:353-371 | nor had any Extended Reply for the next zone |
| Packing.PlainRepliesAreFull | src/router/local.rs:313-344 | of two plain Replies in a row the first had no room for the list the second begins with |
| Aurp.FindStart | src/router/aurp.rs:246-251 | the pending event of a network, if there is one |
| ExportSync.QueuedMeaning | src/router/aurp.rs:246-265 | queueing keeps one event per network, collapses at its own network and leaves every other alone |
| ExportSync.LastWordStands | src/router/aurp.rs:246-265 | what is pending for a network after a newer event: nothing when an addition is withdrawn, the addition at its new distance when it moved, a change of distance when a withdrawn one is back, else the newer event itself |
| ExportSync.CollapseAgrees | src/router/aurp.rs:246-265 | network by network, the collapsed queue agrees with having heard every event |
| ExportSync.CollapseRefinesStream | src/router/aurp.rs:244-265 | the collapsed queue holds one event per network and tells a peer what the whole stream would have, when additions are only of networks the peer lacks |
| ExportSync.InStepMeansExport | src/router/aurp.rs:269-287 | in step means: after the pending events the peer knows exactly the exported networks at their distances |
| ExportSync.EventSaysWhatBecame | src/router/aurp.rs:671-705 | the event a change gives rise to follows from what was and is exported: NA, NDC with the new distance, NRC when a tunnel now hides the network, ND when it is gone, nothing when nothing changed; it names the whole range and the extended flag |
| ExportSync.OneChangeAgrees | src/router/aurp.rs:671-711 | one reported change, turned into an event and collapsed, leaves its network agreeing with what it is now worth |
| ExportSync.QueuedAllAt | src/router/aurp.rs:671-712 | queueing what one operation reports touches each network at most once |
| ExportSync.BatchAt | src/router/aurp.rs:671-712 | one network part of the way through a batch judged by the tables at its end |
| ExportSync.RouteOpsKeepStep | src/router/aurp.rs:671-712 | any batch of route operations, then their changes queued together, keeps the peer in step |
| ExportSync.ZonesAt | src/router/table.rs:343-369 | filling in a list reports an addition exactly when the network becomes exported, and is silent when it stops being so |
| ExportSync.ZonesKeepStep | src/router/table.rs:343-369 | filling in a list keeps the peer in step if and only if it does not unfinish the list of an exported network |
| ExportSync.ZoneOpsKeepStep | src/router/local.rs:382-395 | the lists of one ZIP Reply, then their changes queued together, keep the peer in step when none unfinishes |
| ExportSync.UnfinishedListIsSilent | src/router/table.rs:353-368 | a concrete Extended Reply, repeating the one zone held and announcing two, after which the network is no longer exported and nothing was reported |
| ExportSync.PeerZonesChangeNoExport | src/router/aurp.rs:496-515 | what a peer says about zones changes no export and reports nothing |
| ExportSync.HearExport | src/router/aurp.rs:355-367 | hearing a whole export sets every exported network to its distance and no other |
| ExportSync.ServingPutsInStep | src/router/aurp.rs:299-311 | serving an RI-Req with truthful events pending puts the peer in step if and only if no addition is pending and it holds no stray network |
| ExportSync.RefreshKeepsStep | src/router/aurp.rs:299-311 | a refresh keeps a peer in step if and only if no addition is pending |
| ExportSync.AdditionAcrossExportIsLost | src/router/aurp.rs:253-256 | an addition pending across an export, whatever else is pending, then withdrawn, leaves the peer a network that nothing pending will withdraw |
| ExportSync.ServedThenWithdrawn | src/router/aurp.rs:253-256 | a concrete table, zone list and withdrawal that do so |
| ExportSync.FlushKeepsStep | src/router/aurp.rs:922-933 | sending everything pending leaves the peer in step with nothing pending |
| ExportSync.SendPageKeepsStep | src/router/aurp.rs:485-494 | sending a page moves it from hand to heard and loses nothing |
| ExportSync.ServeKeepsStep | src/router/aurp.rs:299-311 | after an RI-Req is served, the first page heard and the pages in hand put the peer in step |
| ExportSync.SenderTimersKeepStep | src/router/aurp.rs:907-934 | the sender's timer keeps the peer in step |
| ExportSync.ChangesKeepSenderInStep | src/router/aurp.rs:671-712 | table operations followed by the report to a peer keep its sender in step |
| TunnelView.LearnVia | src/router/table.rs:173-233 | learning a tuple through a tunnel leaves exactly one route at its start, one hop further, and the others as they were |
| TunnelView.ApplyMirrors | src/router/aurp.rs:269-287 | applying an event changes the routes held through the peer as hearing it changes the peer's view, when the table has room |
| TunnelView.BlockedIsLost | src/router/table.rs:184-188 | a network the table did not hold is mirrored if and only if nothing blocks its range |
| TunnelView.BlockedByACable | src/router/table.rs:184-188 | a concrete cable and a concrete addition that is lost to it |
| TunnelView.ReaddedRange | src/router/aurp.rs:257-262 | a network withdrawn and added back collapses to a change of distance, and the peer holds its new range if and only if it is the old one |
| TunnelView.RangeGrowsUnheard | src/router/aurp.rs:257-262 | a concrete network that comes back wider, and the peer that does not hear it |
| TunnelView.EventsMirror | src/router/aurp.rs:374-383 | a whole update, event by event |
| TunnelView.TuplesMirror | src/router/aurp.rs:355-362 | a whole RI-Rsp page, tuple by tuple |
| TunnelView.ForeignKeepsMirror | src/router/table.rs:173-369 | whatever the router does with its ports and other peers leaves the routes through this one as they were |
| RangeView.LearnSpans | src/router/table.rs:173-233 | a tuple learned through a tunnel leaves every route of its start through that peer at its range, and the others as they were |
| RangeView.ApplySpans | src/router/aurp.rs:269-287 | an event does to the range of what is held through the peer what it says: an addition gives it, a change of distance only to a table that lacked the network |
| RangeView.EventsSpan | src/router/aurp.rs:374-383 | a whole update, event by event |
| RangeView.TuplesSpan | src/router/aurp.rs:355-362 | a whole page, tuple by tuple |
| RangeView.ForeignSpans | src/router/table.rs:173-369 | ports and other peers leave it alone |
| RangeView.FlushKeepsRange | src/router/aurp.rs:922-933 | an update brings the range told to the range exported, unless and only unless the peer was told another and pending is a change of distance |
| RangeView.OpKeepsRange | src/router/table.rs:173-369 | no single operation moves the range of a network that has a best route before and after it |
| RangeView.RouteOpsKeepRange | src/router/aurp.rs:671-712 | any batch of operations, its changes queued together, keeps told and exported range agreeing |
| RangeView.ZoneOpsKeepRange | src/router/local.rs:382-395 | so do the lists of one ZIP Reply |
| RangeView.ExportGivesRanges | src/router/aurp.rs:355-367 | hearing a whole export gives every exported network its range, and no other one |
| PeerTheorems.RoutingKeepsSenderInv | src/router/aurp.rs:291-421 | every packet keeps the sender's invariant |
| PeerTheorems.StepKeepsSenderInv | src/router/aurp.rs:850-934 | so does every timer, reconnect, shutdown and route change |
| PeerTheorems.SenderInvAlways | src/router/aurp.rs:423-494 | over every run: a packet is outstanding exactly in the three waiting states, numbered as the last sent and not 0; pages wait only during an export; a closed sender holds nothing |
| PeerTheorems.ReceivingKeepsSender | src/router/aurp.rs:338-419 | taking data as receiver leaves the sender's half alone |
| PeerTheorems.RoutingCounts | src/router/aurp.rs:291-494 | a packet puts out nothing numbered, or one new outstanding packet on its first try |
| PeerTheorems.StepCountsTries | src/router/aurp.rs:907-922 | at most one numbered packet at a time; a timer repeats the outstanding one and counts it |
| PeerTheorems.AtMostFiveTransmissions | src/router/aurp.rs:907-922 | over every run no packet is transmitted more than five times before it is acked, superseded or the sender closes |
| PeerMeaning.OtherConnectionsAreIgnored | src/router/aurp.rs:291-421 | a packet on any connection but the one it is meant for changes nothing |
| PeerMeaning.OldConnectionIsDead | src/router/aurp.rs:219-226 | once the receiver closed, nothing on its old connection is taken again, closed or reopened |
| PeerMeaning.NumbersDecide | src/router/aurp.rs:355-397 | pages and updates by number: the one awaited is taken, the one before is acked again, the one after closes the receiver, any other is passed over |
| PeerMeaning.RouterDownClosesBoth | src/router/aurp.rs:400-406 | router-down is acked, takes every route through the peer and no other, and closes both halves |
| PeerMeaning.OpenRequestsDecide | src/router/aurp.rs:423-455 | an Open-Req refused by version, then by options; a stranger probed once and not answered; any other granted, the sender begun afresh and a closed receiver opened |
| PeerMeaning.OpenAnswersDecide | src/router/aurp.rs:338-354 | a refusal closes the receiver, anything else brings the request for the export |
| PeerMeaning.QuestionsAreAnswered | src/router/aurp.rs:313-335 | a sender that is up answers every question at once, a request for zones with exactly the lists asked for |
| PeerMeaning.TooSoonToAsk | src/router/aurp.rs:860-904 | a receiver's tick that comes too soon does nothing |
| PeerMeaning.OpeningGivesUp | src/router/aurp.rs:862-880 | an opening request goes out five times in all, ten seconds apart; then the receiver closes for good on that connection |
| PeerMeaning.SilenceEndsTheConnection | src/router/aurp.rs:881-903 | after more than 90 s of silence ten tickles, ten seconds apart; then the receiver closes, the routes through the peer go and no other, and an idle sender is probed |
| PeerMeaning.HearingPutsOff | src/router/aurp.rs:411-418 | whatever is heard on the connection starts the 90 s again, and an answer ends the tickling |
| PeerMeaning.UnackedClosesTheSender | src/router/aurp.rs:907-921 | a packet never acked goes out five times in all, the same each time; then the sender closes and holds nothing |
| PeerMeaning.UpdatesAreDue | src/router/aurp.rs:922-933 | an update goes out exactly when the sender is idle, something is pending and 10 s went by, and says all of it |
| PeerMeaning.ReconnectsWhenDue | src/router/aurp.rs:850-858 | a peer is tried again exactly when configured, closed and more than 600 s past the last try |
| PeerMeaning.ShutdownIsSaid | src/router/aurp.rs:722-734 | shutting down sends one RD in place of anything unsaid; no export is served then, and its ack closes the sender |
| PeerMeaning.AddedMeaning | src/router/aurp.rs:928-929 | the networks an update adds are the starts of its additions and no other |
| PeerMeaning.NamedByAPage | src/router/aurp.rs:485-493 | the networks a page names are the starts of its tuples, in order |
| TwoRouters.Numbering | src/router/aurp.rs:954-966 | numbers follow one another, skip 0 and wrap from 65535 to 1; neighbours differ |
| TwoRouters.ChannelKeepsNet | src/router/aurp.rs:355-399 | losing or repeating a packet keeps the invariant of the two routers |
| TwoRouters.FreshPacket | src/router/aurp.rs:197-203 | a new numbered packet goes out only once the one before is settled, and extends the log |
| TwoRouters.RetryKeepsNet | src/router/aurp.rs:907-922 | repeating the outstanding packet, or giving up, keeps the invariant |
| TwoRouters.FlushKeepsNet | src/router/aurp.rs:923-933 | so does sending what is pending |
| TwoRouters.StrangerKeepsNet | src/router/aurp.rs:432-442 | so does the probe that a conflicting Open-Req sets off |
| TwoRouters.AckKeepsNet | src/router/aurp.rs:461-482 | so does an ack, whatever it acknowledges |
| TwoRouters.AckIgnored | src/router/aurp.rs:461-466 | an ack of anything but the outstanding packet changes nothing |
| TwoRouters.AckBringsPage | src/router/aurp.rs:473-494 | the ack of a page that is not the last brings the next one, after the zones it asked for |
| TwoRouters.AckIsLast | src/router/aurp.rs:475-478 | any other ack of the outstanding packet leaves the sender connected |
| Delivery.DuplicateAcked | src/router/aurp.rs:369-369 | a copy of the packet before the one expected is acked and applied to nothing |
| Delivery.ExpectedTaken | src/router/aurp.rs:358-368 | the expected packet is taken, acked and counted |
| Delivery.TakenMirrors | src/router/aurp.rs:355-399 | what is taken is applied to the receiving table as it is to the view |
| Delivery.LocalKeepsNet | src/router/aurp.rs:671-712 | any operations of the sending table keep the invariant |
| Delivery.RemoteKeepsNet | src/router/table.rs:173-369 | so does anything the receiving router does with its ports and other peers |
| Delivery.WaitingKeepsNet | src/router/aurp.rs:880-904 | so do the receiver's tickles while they are answered |
| Delivery.AskedKeepsNet | src/router/aurp.rs:313-338 | questions that need no number change nothing |
| Delivery.StepKeepsNet | src/router/aurp.rs:291-494 | every step of the two routers and the channels keeps the invariant |
| Delivery.HandshakeServes | src/router/aurp.rs:206-217 | from two new peers, Open-Req, Open-Rsp and RI-Req bring about a served export, which is where a run begins |
| Delivery.ServedBegins | src/router/aurp.rs:299-311 | so a run of the two routers begins wherever an export was just served |
| Delivery.ServingStartsNet | src/router/aurp.rs:299-311 | a served RI-Req establishes the invariant |
| Delivery.RunKeepsNet | src/router/aurp.rs:291-934 | the invariant holds at every moment of every run |
| Delivery.DeliveredOnceInOrder | src/router/aurp.rs:519-531 | the receiver takes a prefix of the commands sent, each once and in order, lags by at most one and is never driven out of its connection |
| Delivery.NothingIsLost | src/router/aurp.rs:246-311 | at every moment, sent, in hand and pending together tell exactly the export |
| Delivery.QuietTellsDistances | src/router/aurp.rs:269-311 | with nothing outstanding or pending, the receiving table holds through the peer exactly the exported starts, each at one hop more than exported |
| SenderSteps.TickOutcome | src/router/aurp.rs:907-934 | the sender's timer comes to nothing, the outstanding packet again, the end of the connection, or one new packet that says everything pending |
| SenderSteps.StrangerOutcome | src/router/aurp.rs:432-442 | a stranger's Open-Req comes to nothing or one probe |
| SenderSteps.AckOutcome | src/router/aurp.rs:461-482 | an ack comes to nothing, the next page in hand, marked last when it is, or the end of the wait |
| Opening.ArrivalIsAcked | src/router/aurp.rs:355-389 | what the ack of an arriving packet says: the first ack asks for zones exactly when the packet names new networks, and the page marked last connects the receiver |
| Opening.ArrivalKeepsOpen | src/router/aurp.rs:355-389 | an arriving packet keeps the invariant of the opening: the receiver waits exactly until the last page, acks ask where they should |
| Opening.SenderKeepsOpen | src/router/aurp.rs:461-494 | so does every step of the sender, whose pages in hand are gone exactly when the last was sent |
| Opening.StepKeepsOpen | src/router/aurp.rs:291-494 | so does every step of the two routers and the channels |
| Opening.ServingOpens | src/router/aurp.rs:299-311 | a served RI-Req establishes it |
| Opening.ConnectedWithTheLastPage | src/router/aurp.rs:366-368 | over every run the receiver waits for the export exactly while no page marked last was heard, and is connected, or awaits a tickle, from then on |
| Opening.QuietIsConnected | src/router/aurp.rs:366-368 | once the sender is connected, the receiver is |
| Opening.FirstAckAsks | src/router/aurp.rs:364-388 | over every run the first ack of a page, and of an update that adds a network, asks for zones; of any other update it does not |
| Opening.AckBringsZones | src/router/aurp.rs:466-472 | over every run such an ack, delivered while its packet is outstanding, brings the lists of exactly the networks named, in order, before anything numbered |
| Synchrony.ArrivalKeepsHeld | src/router/aurp.rs:355-389 | an arriving packet leaves what the receiving table holds at the range told |
| Synchrony.HeldAsTold | src/router/aurp.rs:269-287 | over every run the receiving table holds each network through the peer at the range it was told |
| Synchrony.FreshKeepsRange | src/router/aurp.rs:197-203 | a new packet leaves the range offered alone, or is the update that brings it to what is exported |
| Synchrony.StepKeepsRange | src/router/aurp.rs:291-934 | every step that does not part them keeps the range offered agreeing with the range exported |
| Synchrony.OfferedAsExported | src/router/aurp.rs:246-311 | so at every moment of every run in which they were never about to part |
| Synchrony.SteadyNeverParts | src/router/aurp.rs:257-262 | a network whose exported range never changes never parts them |
| Synchrony.QuietMeansSynchronised | src/router/aurp.rs:269-311 | with nothing outstanding or pending the receiver is past waiting for the export, and its table holds through the peer exactly the exported networks, one hop further, at the range told; each is one good route of the whole range unless it parted before |
| Synchrony.SteadyNetworksAreHeldWhole | src/router/aurp.rs:269-311 | so for every network that never changed its range |
| Convergence.DataIsAnswered | src/router/aurp.rs:355-389 | whatever numbered packet arrives is acked with its own number, whether taken or not |
| Convergence.NextComesNearer | src/router/aurp.rs:907-934 | the next delivery, or the sender's timer when nothing is in flight, leaves less to do and loses nothing |
| Convergence.QuietIsReached | src/router/aurp.rs:907-934 | while the channels deliver and the tables stand still, the two routers fall quiet within the work left: two steps for each packet in flight and page in hand, one for each ack, three for a packet to be sent again and three for an update |
| Convergence.LostStays | src/router/aurp.rs:907-923 | a sender that has closed, or has tried five times with nothing on its way, never gets through |
| Convergence.QuietIsPossible | src/router/aurp.rs:907-934 | from any moment a quiet one can be reached if and only if the transfer is not lost so |
| Convergence.SynchronisationIsReached | src/router/aurp.rs:907-934 | from any moment of any run not lost so, the channels and the timer alone bring the two routers, within that work, to where the receiver is connected and its table holds exactly the export, one hop further, each network whole unless its range was parting already, if it had room |
| RouterRuns.UpdateIsARun | src/router/aurp.rs:374-386 | an update applied event by event is a run of table operations such as a tunnel asks for, whatever the events and the table |
| RouterRuns.ExportIsARun | src/router/aurp.rs:355-363 | so is a page of an export |
| RouterRuns.PeersKeepTunnels | src/router/aurp.rs:269-404 | whatever arrives from a peer or runs out, for any tables, the routes through tunnels stay good, without a next router, at distance 1 to 15 |
| RouterRuns.TruthHasAView | src/router/aurp.rs:245-265 | events are true of the tables exactly when some peer could be in step with them |
| RouterRuns.RouteOpsKeepTruth | src/router/aurp.rs:671-712 | a batch of route operations, reported together, keeps what is queued true |
| RouterRuns.InputKeepsTruth | src/router/aurp.rs:671-712 | so does whatever any peer sends or any timer does, once reported |
| RouterRuns.ReplyKeepsTruth | src/router/local.rs:382-395 | so does a ZIP Reply that unfinishes no exported list |
| RouterRuns.DeedIsOk | src/router/mod.rs:336-343 | everything that moves the tables or the peer keeps the tables' invariants and the queue true |
| RouterRuns.QueueAlwaysTellsTheTruth | src/router/aurp.rs:671-712 | so at every moment of every run from a new peer |
| RouterRuns.ServingAtAnyMoment | src/router/aurp.rs:299-311 | an export served at any moment of any run to a peer that knows nothing puts it in step if and only if no addition is pending |
| RouterRuns.AnyRunMayServe | src/router/aurp.rs:299-311 | so a run of the two routers begins wherever any run of one serves an export with no addition pending |
| PeerLink.Link.constructor | src/router/aurp.rs:159-183 | a new peer |
| PeerLink.Link.SendSequenced | src/router/aurp.rs:197-203 | the peer and the packet afterwards |
| PeerLink.Link.Open | src/router/aurp.rs:206-217 | the peer and the Open-Req afterwards |
| PeerLink.Link.CloseReceiver | src/router/aurp.rs:221-226 | the receiver's half closed, with a new connection ID |
| PeerLink.Link.CloseSender | src/router/aurp.rs:228-236 | the sender's half closed, holding nothing |
| PeerLink.Link.Queue | src/router/aurp.rs:246-265 | the pending events afterwards |
| PeerLink.Link.RouteChanged | src/router/aurp.rs:671-712 | every change turned into its event and queued, unless the peer is not listening |
| PeerLink.Link.SendPage | src/router/aurp.rs:485-494 | the next page out, marked last when it is |
| PeerLink.Link.ServeRiReq | src/router/aurp.rs:299-311 | the sequence restarted over the whole export |
| PeerLink.Link.GetOpenReq | src/router/aurp.rs:423-454 | the answers to an Open-Req in every case |
| PeerLink.Link.SendZones | src/router/aurp.rs:320-324 | one packet per ZI-Rsp page |
| PeerLink.Link.GetRiAck | src/router/aurp.rs:461-482 | the peer and the packets after an ack |
| PeerLink.Link.ApplyEvent | src/router/aurp.rs:269-287 | the tables and the changes after one event |
| PeerLink.Link.ApplyEvents | src/router/aurp.rs:378-384 | after a whole update, and whether it asks for zones |
| PeerLink.Link.LearnTuples | src/router/aurp.rs:358-362 | after a whole page, tuples out of reach passed over |
| PeerLink.Link.GetRiRsp | src/router/aurp.rs:355-376 | peer, tables, packets and changes after an RI-Rsp, by where its number stands; the receiver is connected once the page marked last has come, which Opening.ConnectedWithTheLastPage has over every run |
| PeerLink.Link.GetRiUpd | src/router/aurp.rs:377-399 | the same after an RI-Upd |
| PeerLink.Link.GroupZones | src/router/aurp.rs:499-506 | the networks in order, and the names given for each |
| PeerLink.Link.GetZiRsp | src/router/aurp.rs:496-515 | the tables after a ZI-Rsp, our own cables skipped |
| PeerLink.Link.GetOpenRsp | src/router/aurp.rs:338-354 | the receiver's half after an Open-Rsp |
| PeerLink.Link.GetRd | src/router/aurp.rs:400-406 | both halves closed and the peer's routes gone |
| PeerLink.Link.AsSender | src/router/aurp.rs:293-335 | the commands of the data sender |
| PeerLink.Link.AsReceiver | src/router/aurp.rs:337-421 | the commands of the data receiver |
| PeerLink.Link.Routing | src/router/aurp.rs:291-421 | peer, tables, packets and changes after any routing packet |
| PeerLink.Link.Reconnect | src/router/aurp.rs:850-858 | whether and how a configured peer is opened again |
| PeerLink.Link.GiveUp | src/router/aurp.rs:885-898 | ten tickles unanswered: routes gone, receiver closed, a connected sender probed |
| PeerLink.Link.ReceiverTimers | src/router/aurp.rs:860-905 | the receiver's retries, tickles and giving up |
| PeerLink.Link.AddedIn | src/router/aurp.rs:929-929 | the networks an update adds |
| PeerLink.Link.SenderTimers | src/router/aurp.rs:907-934 | the retransmission, the giving up or the update |
| PeerLink.Link.Shutdown | src/router/aurp.rs:722-734 | RD on a sender that is up and not already going down |
| BridgeTheorems.StepIsGood | src/bridge.rs:359-367 | every step leaves entries younger than 30 s, questions younger than 2 s, nothing about nodes 0, 255 or our own, and every move-check over a doubted entry believed on the other side with the same stamp |
| BridgeTheorems.RunIsGood | src/bridge.rs:359-367 | so does every run from the start |
| BridgeTheorems.ExpireIsGood | src/bridge.rs:331-348 | expiry restores it at any later time |
| BridgeTheorems.ConfirmIsGood | src/bridge.rs:198-241 | hearing from a node keeps it, and keeps every known node's side and every doubted entry as it was |
| BridgeTheorems.SideChangesBySilence | src/bridge.rs:331-348 | a known node changes side only by a reported move whose check stood 2 s, or after its entry aged out |
| BridgeTheorems.DoubtStandsStill | src/bridge.rs:217-240 | a doubted entry is never refreshed: it stands until a move is reported or 30 s pass |
| BridgeTheorems.NodesChangeByHearing | src/bridge.rs:359-568 | within a step what is known of the nodes changes only by what was heard, as hearing it does |
| BridgeTheorems.ContestsEnd | src/bridge.rs:216-241 | over every run a doubted node came into doubt less than 30 s before, and its entry has stood untouched since |
| BridgeTheorems.ContestStep | src/bridge.rs:206-230 | a move-check that stands after a step is new, or stood before it while the believed side was silent |
| BridgeTheorems.ContestBegan | src/bridge.rs:206-230 | a standing move-check began at one step and stood unchanged since |
| BridgeTheorems.MoveOnlyAfterSilence | src/bridge.rs:339-346 | over every run a move is reported only after 2 s in which the side first believed never spoke |
| BridgeTheorems.DebtsComeFromEnquiries | src/bridge.rs:502-513 | a debt to a LocalTalk claimant is created only by its enquiry |
| BridgeTheorems.SettleDebts | src/bridge.rs:289-327 | paying gives at most one answer and removes the question |
| BridgeTheorems.AckOnlyOnAnswer | src/bridge.rs:299-305 | another node's ID is denied only in the step that receives an AARP Response for it, less than 2 s after the question, once, and the question is gone |
| BridgeTheorems.AckAnswersOneEnquiry | src/bridge.rs:289-305 | over every run each denial answers one LocalTalk ENQ of the last 2 s, and none was given for it in between |
| BridgeTheorems.EtherDdpCrosses | src/bridge.rs:434-500 | a datagram crosses to LocalTalk verbatim, with an honest legal length, never from a doubted sender or to a node known elsewhere |
| BridgeTheorems.LocalDdpLifts | src/bridge.rs:525-568 | a datagram goes onto the cable in the extended form, to the right MAC, never from a doubted sender or to a node known on LocalTalk |
| BridgeTheorems.EtherDdpCrossesWhenItMay | src/bridge.rs:434-500 | and every datagram that meets those conditions crosses |
| BridgeTheorems.LocalDdpLiftsWhenItMay | src/bridge.rs:525-568 | the same towards the cable |
| BridgeTheorems.DatagramsCrossOnce | src/bridge.rs:359-568 | over a whole step a datagram is only ever put on the other side than it came from, under those conditions |
| BridgeTheorems.ProxyOnlyOnEvidence | src/bridge.rs:306-327 | an AARP answer for another node is given only when the resulting table has it live on LocalTalk |
| BridgeContests.ExpiryMeaning | src/bridge.rs:331-348 | what a node is after expiry: moved when a move-check went 2 s unanswered, kept while under 30 s old, else forgotten |
| BridgeContests.ContestBegins | src/bridge.rs:206-222 | a known, undoubted node heard on the other side is doubted, with a move-check to that side stamped now, and one question goes to the side believed: an ENQ or an AARP Request |
| BridgeContests.HearingConfirms | src/bridge.rs:239-240 | an undoubted node heard on its own side is stamped anew with the MAC it was heard from |
| BridgeContests.HearingLearns | src/bridge.rs:201-204 | a node not known is learned where it is heard |
| BridgeContests.UnheardStays | src/bridge.rs:198-241 | a node not heard is what expiry leaves of it |
| BridgeContests.DuplicateIsReported | src/bridge.rs:225-232 | the side believed speaking before silence is reported as a duplicate, and the move-check is gone |
| BridgeContests.ContestStands | src/bridge.rs:206-241 | while the side believed is silent and 2 s have not gone by, the move-check stands |
| BridgeContests.SilenceMoves | src/bridge.rs:342-345 | the first step 2 s later reports the move, and the node is live on the new side unless that step hears the old one |
| BridgeContests.ContestIsDecided | src/bridge.rs:206-348 | over runs: a contest begun is decided by the side believed speaking, or by the first step after 2 s of its silence |
| BridgeAnswers.EnquiryIsAsked | src/bridge.rs:502-523 | an ENQ for our own ID is denied; for an ID nobody asks about yet it is put to the cable as a probe, and an ACK is owed |
| BridgeAnswers.RequestIsAsked | src/bridge.rs:392-432 | an AARP Request for a node believed on LocalTalk is answered at once, one for a node on the cable not at all; any other, and every probe, is put to LocalTalk as an ENQ, one at a time, and a Response is owed |
| BridgeAnswers.UnknownIsAskedOnBoth | src/bridge.rs:434-500 | a datagram for a node nobody has heard of crosses, and both links are asked for it |
| BridgeAnswers.DebtStands | src/bridge.rs:245-348 | a debt stands until its node is heard or 2 s go by |
| BridgeAnswers.ResponseDenies | src/bridge.rs:289-304 | an AARP Response pays an enquiry with the ACK that denies it |
| BridgeAnswers.AckAnswers | src/bridge.rs:305-325 | an ACK from LocalTalk pays a request exactly when nothing known stands against it |
| BridgeAnswers.EnquiryIsAnswered | src/bridge.rs:245-304 | over runs: an enquiry whose ID answers from the cable within 2 s is denied |
| BridgeAnswers.RequestIsAnswered | src/bridge.rs:245-325 | over runs: a request whose node answers from LocalTalk within 2 s is answered to the asker, unless the node is by then believed elsewhere or doubted |
| BridgeAnswers.OurAddressIsKept | src/bridge.rs:392-398 | whoever asks for our address, or probes for it from another MAC, is told that it is ours |
| BridgeAnswers.NeighboursBeginOnEther | src/bridge.rs:174-188 | a new bridge has the gleaned neighbours of its network live on the cable and no other node, and the MACs gleaned for other networks |
| BridgeAnswers.OffNetIsRemembered | src/bridge.rs:398-447 | addresses of other networks are remembered as last heard, and no others |
| BridgeAnswers.MacIsLastHeard | src/bridge.rs:398-575 | over any run a datagram for another network goes to the MAC last heard for its destination, and to everybody when there is none |
| BridgeBox.Box.constructor | src/bridge.rs:174-188 | gleaned addresses on our network start as Ethernet residents |
| BridgeBox.Box.LiveSide | src/bridge.rs:192-195 | the side of a node that is known and not doubted |
| BridgeBox.Box.Ask | src/bridge.rs:245-286 | the question recorded and what goes out, in every case |
| BridgeBox.Box.Confirm | src/bridge.rs:198-241 | the table, the questions and the actions after hearing from a node; what hearing a node brings about is in BridgeContests |
| BridgeBox.Box.SettleDebt | src/bridge.rs:289-327 | what is paid |
| BridgeBox.Box.Expire | src/bridge.rs:331-348 | what is forgotten and which moves silence decides |
| BridgeBox.Box.EtherAarp | src/bridge.rs:392-432 | AARP off the cable |
| BridgeBox.Box.EtherDdp | src/bridge.rs:434-500 | datagrams off the cable |
| BridgeBox.Box.EtherFrame | src/bridge.rs:372-390 | which frames count |
| BridgeBox.Box.LocalDdp | src/bridge.rs:525-568 | datagrams off LocalTalk |
| BridgeBox.Box.LocalFrame | src/bridge.rs:502-523 | frames off LocalTalk |
| BridgeBox.Box.Step | src/bridge.rs:359-367 | one whole step |
| ZoneCodec.ParsePString | src/wire/mod.rs:80-84 | how many bytes a length-prefixed name takes |
| ZoneCodec.WriteTuple | src/wire/aurp.rs:391-404 | one tuple appended behind any prefix, offsets measured from the body |
| ZoneCodec.EncodeInto | src/wire/aurp.rs:382-406 | the whole body appended behind any prefix |
| ZoneCodec.ParseLoop | src/wire/aurp.rs:352-380 | the reading loop |
| ZoneCodec.TupleKeepsSeen | src/wire/aurp.rs:392-404 | every remembered offset points at a spelled-out copy of its name and has not wrapped |
| ZoneCodec.SeenAlwaysOk | src/wire/aurp.rs:389-405 | so throughout a body of at most 64 KiB |
| ZoneCodec.TupleReadsBack | src/wire/aurp.rs:357-375 | a tuple just written reads back, spelled out or by offset, wherever the body goes on |
| ZoneCodec.ShortBodiesAreInReach | src/wire/aurp.rs:394-394 | up to 32774 bytes every offset fits fifteen bits |
| ZoneCodec.ReadsBack | src/wire/aurp.rs:352-406 | such a body reads back as every pair in order, repeats included, names cut to 32 |
| ZoneCodec.RoundTrip | src/wire/aurp.rs:352-406 | the round trip is exact if and only if no name exceeds 32 characters |
| ZoneCodec.EachNameIsSpelledOnce | src/wire/aurp.rs:382-406 | a name is spelled out once in a packet and is two bytes wherever it comes again: the body's length is exactly that |
| TupleCodec.TupleReadsBack | src/wire/rtmp.rs:29-54 | what a tuple reads back as and how many bytes it takes, whatever follows it |
| TupleCodec.EncodeTuplesLoop | src/wire/aurp.rs:218-223 | the writing loop |
| TupleCodec.ParseTuplesLoop | src/wire/aurp.rs:303-311 | the reading loop |
| TupleCodec.TuplesReadBack | src/wire/rtmp.rs:29-54 | what a list of tuples reads back as, with either trailer |
| TupleCodec.TuplesRoundTrip | src/wire/rtmp.rs:29-54 | it is the list if and only if every distance is below 128 and every plain tuple names one network |
| TupleCodec.ParsedIsCarriable | src/wire/rtmp.rs:29-41 | whatever is read could be written back |
| TupleCodec.ParseEventsLoop | src/wire/aurp.rs:119-128 | the reading loop for events |
| TupleCodec.EventsReadBack | src/wire/aurp.rs:316-348 | what a list of events reads back as |
| TupleCodec.EventsRoundTrip | src/wire/aurp.rs:316-348 | it is the list if and only if every event fits the wire and null events carry nothing |
| TupleCodec.OptionsRoundTrip | src/wire/aurp.rs:408-433 | options come back if and only if there are at most 255, none over 254 bytes |
| TupleCodec.RtmpReadsBack | src/wire/rtmp.rs:89-173 | an RTMP Data packet reads back with its sender and range, on extended networks and others |
| TupleCodec.RtmpRoundTrip | src/wire/rtmp.rs:89-173 | it is the packet if and only if its tuples fit the wire |
| TupleCodec.ChunkLoop | src/router/local.rs:563-581 | the splitting loop |
| TupleCodec.ChunksAreExact | src/router/local.rs:560-581 | the packets of a beacon carry its tuples once and in order, each within 586 bytes as encoded, none empty unless the beacon is |
| TupleCodec.StepKeepsCarriable | src/router/table.rs:173-369 | a table fed from the wire holds only what the wire can carry |
| TupleCodec.ExportSurvivesTheWire | src/router/aurp.rs:1000-1013 | every page of such a table's export is read exactly as written |
| TupleCodec.UpdatesSurviveTheWire | src/router/aurp.rs:671-712 | so is every update, whatever collapsed in the queue |
| Ddp.ComesBack | src/wire/ddp.rs:42-152 | an encoded datagram parses to itself with hops cut to four bits and the length field made the true length modulo 1024, so it comes back as it went exactly when both already were |
| Ddp.ShortComesBack | src/wire/ddp.rs:98-109 | a short header read on its own network gives everything back but hops, checksum and the source network, if and only if its length fits ten bits |
| KnownPackets.KnownDatagram | src/wire/ddp.rs:257-265 | a datagram of known bytes reads as it should and is written back byte for byte |
| KnownPackets.KnownShortHeader | src/wire/ddp.rs:286-300 | a short header of known bytes reads as it should, on its own network |
| KnownPackets.KnownRoutingPacket | src/wire/rtmp.rs:181-199 | an RTMP packet of known bytes on an extended network reads as it should and is written back byte for byte |
| KnownPackets.KnownPlainRoutingPacket | src/wire/rtmp.rs:200-209 | so does one with the version marker |
| Fcs.UpdateLoop | src/tashtalk.rs:43-49 | the eight-step loop is the polynomial register |
| Fcs.RegisterLoop | src/tashtalk.rs:56-67 | the fold over a frame |
| Fcs.UpdateIsLinear | src/tashtalk.rs:43-49 | the register is linear over exclusive or |
| Fcs.DifferenceOfRegisters | src/tashtalk.rs:43-67 | the difference of two registers is the register of the differences |
| Fcs.CheckChecksOut | src/tashtalk.rs:56-67 | a frame followed by its check sequence leaves the fixed residue |
| Fcs.OnlyTheCheckChecksOut | src/tashtalk.rs:52-67 | a frame followed by two bytes checks out if and only if they are its check sequence |
| Fcs.BurstsAreDetected | src/tashtalk.rs:62-67 | two different frames of one length whose damage lies within sixteen consecutive bits, at any bit up to the very end, cannot both check out |
| Fcs.DamagedBytesAreDetected | src/tashtalk.rs:62-67 | so damage to one byte or to two adjacent bytes is detected wherever it falls |
| Fcs.OddFlipsAreDetected | src/tashtalk.rs:62-67 | any odd number of flipped bits is detected |
| Tashtalk.Decoder.constructor | src/tashtalk.rs:120-122 | a clean decoder |
| Tashtalk.Decoder.FeedByte | src/tashtalk.rs:129-164 | buffer, flag and frame after one byte, the buffer never over 605 |
| Tashtalk.BufferIsBounded | src/tashtalk.rs:129-164 | so over any stream |
| Tashtalk.EscapedBytesAreKept | src/tashtalk.rs:84-90 | escaped bytes go into the buffer as they were and nothing comes out |
| Tashtalk.LegalIsLlap | src/wire/llap.rs:43-100 | the legal frames are exactly the four control frames without data and data frames of 2 to 600 bytes that begin with their own length |
| Tashtalk.ParseIsExact | src/wire/llap.rs:43-100 | bytes read as a frame exactly when they are a legal frame's own |
| Tashtalk.EncodedParses | src/wire/llap.rs:43-100 | a legal frame parses back from its bytes |
| Tashtalk.FrameComesThrough | src/tashtalk.rs:106-164 | from a clean decoder a legal frame with its check comes out at the very last byte and leaves it clean |
| Tashtalk.TwoTerminatorsResynchronise | src/tashtalk.rs:129-164 | two terminators clean any decoder |
| Tashtalk.FrameComesThroughAfterNoise | src/tashtalk.rs:129-164 | after any noise and two terminators a legal frame still comes through |
| Tashtalk.OnlyCheckedFramesComeOut | src/tashtalk.rs:150-162 | whatever comes out is a legal frame whose own check sequence was received |
| ZipReplies.PagesLoop | src/router/local.rs:353-371 | the loop that splits a list over Extended Replies |
| ZipReplies.PagesAreExact | src/router/local.rs:346-371 | one list over Extended Replies: whole, in order, each within a datagram, each announcing the list's size up to 255 |
| ZipReplies.WireFits | src/router/local.rs:374-376 | the server's measure is never less than what goes on the wire |
| ZipReplies.QueryReplyLoop | src/router/local.rs:313-344 | the loop that answers a Query |
| ZipReplies.QueryReplyIsExact | src/router/local.rs:311-344 | the Replies carry exactly the complete lists asked for, in order; each fits; plain ones hold whole lists, Extended ones part of a list that needs more than one |
| ZoneDistribution.GatherZones | src/router/local.rs:382-390 | the gathering loop: each network once, in the order first named, with all its names in order |
| ZoneDistribution.LearnZonesInPlace | src/router/local.rs:382-395 | the tables and the changes after a Reply that names any networks |
| ZoneDistribution.AddNamesUnites | src/router/table.rs:358-362 | extending a list takes the union, case aside, and repeats nothing |
| ZoneDistribution.TakenAt | src/router/local.rs:382-395 | one page off a cable or through a tunnel extends each list it names, but through a tunnel none of our own cables, and moves nothing else |
| ZoneDistribution.DeliveredAt | src/router/aurp.rs:496-515 | the tables after any arrivals hold, of each list, what the pages make of it one by one |
| ZoneDistribution.HeldUnites | src/router/table.rs:343-369 | that is the union of what was held and what has come, case aside, each name once |
| ZoneDistribution.RepliesDistribute | src/router/local.rs:313-395 | any Replies to a Query, plain and Extended, names cut as packets cut them, in any order and repeated: of every network the names held are those that came; a plain Reply leaves each of its lists whole and complete at once; an Extended one is complete once as many names are there as announced, which up to 255 is when all are; with every Reply in, every complete list asked for is there and no other |
| ZoneDistribution.PacketsDistribute | src/router/aurp.rs:496-515 | the same for the ZI-Rsp packets of a peer, except that a cable of our own learns nothing |
| ListCompletion.MissingPageIsMissed | src/router/local.rs:353-371 | while a page is missing, none of its names has come |
| ListCompletion.EndsExactly | src/router/table.rs:112-118 | a list over several pages is complete exactly with its last page, whatever the arrivals, if and only if every page holds more names than the announced count leaves out |
| ListCompletion.ListCompletesWithItsLastPage | src/router/local.rs:346-371 | for Extended Replies: if and only if the list has at most 255 names or every page holds more names than the list has above 255 |
| ListCompletion.CompleteWithAPageMissing | src/router/local.rs:350-352 | a concrete list of 257 zones that counts as complete without its last page, one name short |
| ListCompletion.PacketsCompleteWithTheLast | src/router/aurp.rs:496-515 | for ZI-Rsp packets: if and only if the list has fewer than 65536 names |
| ZoneListing.ServeLoop | src/router/local.rs:456-464 | as many names as fit, counted by the loop |
| ZoneListing.ReplyDataLoop | src/wire/zip.rs:211-218 | the names as bytes |
| ZoneListing.ParseReplyLoop | src/wire/zip.rs:192-203 | the reading loop |
| ZoneListing.PageSurvives | src/wire/zip.rs:192-218 | a page of legal names reaches the client as meant, within 578 bytes |
| ZoneListing.PagesMakeProgress | src/router/local.rs:454-464 | every response fits, and one that is not the last brings at least seventeen names |
| ZoneListing.FittingMeaning | src/router/local.rs:456-463 | the names served fit one response, and one more would not |
| ZoneListing.Collect | src/node.rs:570-577 | names not held yet, in order |
| ZoneListing.CollectedMeaning | src/node.rs:570-577 | collecting takes the union, keeps what was held in front and holds no name twice |
| ZoneListing.AskForPage | src/node.rs:549-568 | one page asked for up to three times, until an answer arrives that parses |
| ZoneListing.ZoneList | src/node.rs:540-587 | the client's loop, which fails when a page is never answered |
| ZoneListing.AskedMeaning | src/node.rs:549-571 | a page is had exactly when one of its tries is answered, whichever |
| ZoneListing.WalkCollects | src/node.rs:540-587 | if every page asked for is answered the walk collects exactly what its pages reach, in order, each name once; otherwise it fails |
| ZoneListing.PagesReach | src/node.rs:736-746 | seventeen names a page: a thousand pages reach the end of any list of up to 17000 |
| ZoneListing.ZoneListIsComplete | src/node.rs:540-587 | the walk gives the router's list if and only if every page it asks for is answered and a thousand pages reach the end |
| Session.Transactions.constructor | src/session.rs:92-94 | nothing open |
| Session.Transactions.Oldest | src/session.rs:162-167 | an open transaction seen no later than any other |
| Session.Transactions.Expire | src/session.rs:158-169 | what is over 30 s old goes, then the oldest until one slot is free |
| Session.Transactions.Accept | src/session.rs:117-133 | what is open and what is completed after one packet |
| Session.Transactions.Push | src/session.rs:98-134 | expiry, then the packet; never more than 512 open; the packet alone when nothing is over 30 s old and a slot is free |
| Session.CompleteWhenWhole | src/session.rs:67-74 | complete exactly when nothing is missing, and then it is the fragments in order |
| Session.TakeHolds | src/session.rs:117-133 | one packet moves its own transaction on and no other |
| Session.NothingIsDropped | src/session.rs:158-169 | expiry drops nothing that is under 30 s old while a slot is free |
| Session.StaleIsForgotten | src/session.rs:158-161 | a transaction over 30 s old is forgotten: no other packet brings it back, and one of its own begins it afresh |
| Session.ReassemblyIsOrderFree | src/session.rs:98-134 | in any order, repeated and interleaved, a packet brings the message back exactly when it is the last one missing |
| Session.ReassemblyInTime | src/session.rs:98-169 | the same over runs of Push in which other transactions expire, while the message's own is under 30 s old and fewer than 512 such are open |
| Forwarding.HopsFitTheHeader | src/router/mod.rs:285-304 | the hop count put out survives its four bits |
| Forwarding.BestLeads | src/router/table.rs:235-237 | there is a best route to a network exactly when a usable one covers it, and it is a shortest such |
| Forwarding.ForwardMeaning | src/router/mod.rs:285-304 | a datagram is passed on if and only if it made under 15 hops, a usable route covers its network and the chosen one does not lead back; it is charged a hop unless made here or leaving a tunnel for a cable, and nothing else of it changes |
| Forwarding.ChainDelivers | src/router/mod.rs:285-320 | along routers whose distance falls by one at each, each handed the datagram the way the one before sends, it reaches the node it is for if and only if it has under 15 hops at the last |
| Forwarding.OwnCableIsBest | src/router/mod.rs:132-141 | whatever a router has heard since it was configured, well-formed or not, the best way to a network of its own is its own port |
| Forwarding.ShortHeaderEnds | src/router/ports.rs:234-239 | a datagram that arrives under the short header is forwarded no further, by any running router |
| Forwarding.JourneysEnd | src/router/mod.rs:285-320 | however the tables of running routers change, every chain of forwardings ends within its bound, no two consecutive steps being free; that datagrams do go on is Forwarding.ForwardMeaning and Forwarding.ChainDelivers |
| Forwarding.ArrivedDatagramsDie | src/router/mod.rs:285-320 | a datagram that arrived with h hops is forwarded at most 2(15 - h) more times |
| Forwarding.AttachedStays | src/router/table.rs:184-188 | a port's own network keeps its one route, with nothing across it, through everything RTMP and the tunnels do |
| Forwarding.AttachedIsBest | src/router/table.rs:90-92 | so a router never forwards what a cable hands it for that same cable |

## Left out

- Sockets, threads, serial lines, DNS, signals and the clock: they become parameters, and the run loops are not modelled.
- Logging, dumps, `Display` texts and the operator's ping and its report.
- Domain identifiers: every packet to a peer is taken to be addressed and signed as the code does it.
- `Peers` as a map: one peer is modelled; admission, eviction and re-resolution of names are not, so nothing is claimed about routes through a peer that was dropped.
- The periodic ZI re-request, and how data packets refresh `last_heard`.
- `Delivery` assumes channels that do not reorder, and starts from one served RI-Req: an RI-Req repeated in the middle of a transfer restarts the sequence, and an RD overtakes an outstanding packet, so both are outside its runs, as are the receiver's retries while the export is still coming.
- QuietMeansSynchronised: assumes that the receiving table had room for everything taken, and for whole ranges that none was parting; BlockedIsLost and FlushKeepsRange say exactly when these fail. The extended flag of a route at the peer is as it was when the network was last added, since a changed flag is no change of route.
- QueueAlwaysTellsTheTruth: over runs in which no Reply unfinishes an exported list and no peer sends a reachable tuple with an inverted range; ZonesKeepStep and LearnKeepsInv say exactly when those break things.
- RTMP's own timers, RDR and Request handling, GetNetInfo, NBP and AEP: small or single-branch.
- `nets_in_zone`, `zoneless` and `all_zones`: read-only listings that would only add easy members.
- Framing of the extended header inside Ethernet, Phase 1 frames, AARP address claiming, zone multicast addresses and checksums.
- The reports of moves in one bridge step are a map rather than a list, since the original's order is that of a hash map; the eviction of equally old transactions is left open in the same way.
- ZoneList: the list does not change during the walk, and which tries are answered in time is a parameter; the case that no router is known is left out.
- The bytes of a ZIP Reply: its pages are taken in as they were made, each name cut to 32 bytes as a packet cuts it. The bytes of a ZI-Rsp are modelled (`ZoneCodec`).
- PacketsDistribute: takes names of at most 255 bytes, which is all that a length byte can bring in.
- Names are Latin-1 bytes; their length in memory, which some measures use, is modelled, their decoding is not.
