# Verified models of BIRD's data structures and protocol engines, and of the poisoning search

The repository contains the BIRD 1.6.4 routing daemon and an experiment that drives it. This project
models the parts of both whose correctness rests on invariants rather than on any single function, and
proves what they are for. `dafny verify dfyconfig.toml` checks everything.

Objects whose fields are updated in place are classes (the trie and its nodes, the forwarding table, a
Babel entry, the host cache, attribute lists, the source id map, the BFD protocol, the lock manager,
the protocol core, the search). Algorithms that work on arrays work on arrays. What a class promises
is stated as functions and relations on values, and the theorems about all runs are proved on those.
What such a function does to the fields is stated once more without it, as the effect that RFCs and the
source's documentation describe (members named `...Effect` and `...Means`).

- **Prefix sets** (`Addr`, `TrieModel`, `Trie`): the compressed trie with its packed masks, on linked
  nodes. It decides membership in the set of inserted patterns for every prefix and depends on the set
  only.
- **AS path masks** (`AsPath`): the automaton simulated with in-place marks. One asymmetry of the code is
  part of the specification: a set stands for any word over its numbers, possibly the empty one, unless
  it is the first position, where the word must not be empty, because only the first position is marked
  at the start.
- **Babel** (`Babel`, `BabelNet`): the handlers of one entry, then a network of nodes with channels that
  lose, reorder and duplicate. Loop freedom holds in every reachable state, for any link costs; distances
  decrease strictly along next hops when links cost at least 1.
- **Forwarding tables** (`Fib`, `FibTable`, `FibWalk`, `FibRun`, `Roa`): chains sorted by the primary hash, rehashing,
  suspended iterators that survive insertions, deletions and rehashes, longest match, and origin checks
  on top.
- **Routing table** (`RtLists`, `RtTable`, `HostCache`): best-route maintenance, the shortcut that announces
  changes of the first accepted route, limits and counters, and the recursive next-hop cache invalidated
  through the trie.
- **Attributes** (`EaModel`, `EaList`, `SrcIds`): the natural mergesort, pruning, bisection, override chains,
  and the id allocator. `ea_do_sort` is shown to terminate because each pass removes a descent.
- **Babel packets** (`BabelPackets`, `BabelPeers`): writer and parser state, framing, the round trip of a whole
  queue, and what other implementations may write.
- **BFD notifications** (`Bfd`): atomic sections of two threads in any order; no state change is lost and the
  threads settle.
- **Protocol life cycles** (`ProtoCore`): every ASSERT of the state machine is the precondition of a method, so
  verifying the callers shows that it cannot fail, in any run over any number of instances.
- **Object locks** (`Locks`): one holder per object, first come, first served.
- **Poisoning search** (`Frrp`): termination for arbitrary answers, and what may be announced.
- `Options`, `Numbers`, `Lists` and `Sets` hold what the others share.

Inputs from outside are parameters: hash values, filter decisions, the protocol's own comparison of
routes, answers of measurements, what the core table exports, results of protocol hooks.

## Model

| member | source | states |
|---|---|---|
| `TrieModel.MatchMeaning` | peering/bird-1.6.4/filter/trie.c:12-70 | The packed masks mean what the comment promises: the walk (one common mask M1 on passed nodes, M2 at the final or skipped-to node) accepts a nonzero prefix exactly when some inserted pattern agrees on the first min(plen, pplen) bits and allows the length. |
| `TrieModel.MeetIsNode` | peering/bird-1.6.4/filter/trie.c:143-190 | Path compression: wherever two nodes diverge, their longest common prefix is a node itself, found from any node above it. |
| `TrieModel.NodesAreForced` | peering/bird-1.6.4/filter/trie.c:143-197 | A prefix is a node exactly when it is the key of an inserted pattern or the point where two keys diverge; nothing superfluous is kept. |
| `TrieModel.Canonical` | peering/bird-1.6.4/filter/trie.c:126-197 | The trie is a function of the set of patterns: two tries over the same patterns are identical, whatever the order of insertion. |
| `TrieModel.FinishLeaf` | peering/bird-1.6.4/filter/trie.c:192-196 | Attaching a tail node completes an insertion: all mask and shape invariants hold for the old patterns and the new one. |
| `Trie.BranchPoint` | peering/bird-1.6.4/filter/trie.c:147-165 | The branching node computed with ipa_pxlen lies strictly between the cursor and both its children. |
| `Trie.TrieNode.Attach` | peering/bird-1.6.4/filter/trie.c:103-107 | attach_node hangs the child on the side its own next bit says and leaves the other side alone. |
| `Trie.Trie.constructor` | peering/bird-1.6.4/filter/trie.c:82-90 | A new trie holds no pattern. |
| `Trie.Trie.AddPrefix` | peering/bird-1.6.4/filter/trie.c:126-197 | trie_add_prefix on linked nodes: the set of patterns grows by exactly the given one, all invariants are kept, and the node of the pattern is returned. |
| `Trie.Trie.MatchPrefix` | peering/bird-1.6.4/filter/trie.c:209-242 | trie_match_prefix answers true exactly when some inserted pattern matches the prefix, for every length including zero. |
| `Trie.NodeSame` | peering/bird-1.6.4/filter/trie.c:244-259 | trie_node_same decides equality of the two subtries: keys, masks, accepted lengths and children. |
| `Trie.Trie.Same` | peering/bird-1.6.4/filter/trie.c:268-272 | trie_same holds for tries with equal pattern sets, decides equality of the structures, and when it holds both tries give the same answer for every prefix. |
| `Trie.SamePatterns` | peering/bird-1.6.4/filter/trie.c:244-272 | Equal pattern sets give equal tries; equal tries (and equal zero flags) give equal answers. |
| `AsPath.ParsePath` | peering/bird-1.6.4/nest/a-path.c:396-434 | The position array built from the bytes of a path stands for the positions of its segments: one per element of a sequence, one per set. |
| `AsPath.PmMatch` | peering/bird-1.6.4/nest/a-path.c:437-457 | A position meets an interval exactly when one of the numbers it may stand for lies in it. |
| `AsPath.PmMark` | peering/bird-1.6.4/nest/a-path.c:459-478 | Marking from a position marks exactly where the automaton goes from it, including the sets that may be skipped, and updates the window bounds accordingly. |
| `AsPath.SpellsSet` | peering/bird-1.6.4/nest/a-path.c:480-501 | What a set stands for: after the first position, nothing or one of its numbers followed by the set again. |
| `AsPath.SetStandsFor` | peering/bird-1.6.4/nest/a-path.c:480-501 | A path of one set stands exactly for the nonempty words over its numbers. |
| `AsPath.SequenceStandsFor` | peering/bird-1.6.4/nest/a-path.c:480-501 | A path of one sequence stands exactly for itself. |
| `AsPath.PositionsJoin` | peering/bird-1.6.4/nest/a-path.c:396-434 | The positions of a path are those of its parts, one part after the other. |
| `AsPath.ReachesFinal` | peering/bird-1.6.4/nest/a-path.c:480-501 | The final automaton state is reached over a word exactly when the path can stand for that word. |
| `AsPath.FinalMarkMeaning` | peering/bird-1.6.4/nest/a-path.c:480-501 | The final mark after a whole mask is set exactly when some word the path can stand for is matched by the mask. |
| `AsPath.StepMarks` | peering/bird-1.6.4/nest/a-path.c:543-559 | One consuming mask item, executed in place from the highest mark down: afterwards the marks are exactly the successor states, all inside the new window. |
| `AsPath.MarkFrom` | peering/bird-1.6.4/nest/a-path.c:528-532 | An asterisk marks everything from the lower window bound to the final position and nothing else. |
| `AsPath.ApplyItem` | peering/bird-1.6.4/nest/a-path.c:521-564 | Each mask item turns the marks into exactly the successor states, inside [l, h]; an empty window is reported exactly when no state is left. |
| `AsPath.AsPathMatch` | peering/bird-1.6.4/nest/a-path.c:503-566 | as_path_match is true exactly when some word the path can stand for is matched by the mask, for every valid path and every mask of numbers, ranges, ? and *. |
| `Babel.Entry.FindRoute` | peering/bird-1.6.4/proto/babel/babel.c:142-152 | The route of a neighbour is found, or there is none. |
| `Babel.BestIsBest` | peering/bird-1.6.4/proto/babel/babel.c:533-549 | The loop over the routes ends with the feasible route of least metric that beats the selected one, or there is no such candidate. |
| `Babel.Entry.RtNotify` | peering/bird-1.6.4/proto/babel/babel.c:1966-2032 | babel_rt_notify: when the core exports our selected route, that is what is advertised from then on; a route of another protocol makes our own route, with the current sequence number and metric 0, the advertised one; a withdrawal makes our own route infinite or ends the advertising. Neighbours' routes and the selection stay, and nothing happens without a call. |
| `Babel.Entry.SelectRoute` | peering/bird-1.6.4/proto/babel/babel.c:527-586 | In the fields: if any neighbour's route that may be used is better than the selected one, one of least metric is selected and exported as the core says; otherwise a finite selected route stays and an infinite one is deselected after it was announced. No route of a neighbour changes. |
| `Babel.Entry.HandleUpdate` | peering/bird-1.6.4/proto/babel/babel.c:1063-1216 | In the fields (RFC 6126, sections 3.5.1 and 3.5.4): a usable update, or one for a route that is not selected, becomes the route of its neighbour at the advertised metric plus the cost, or infinite; a retraction or an unusable update of another router-id for the selected route makes it infinite; our own router-id, a retraction or unusable update of nothing, and an unusable one of the same router-id are ignored. Other neighbours' routes stay, and without a selection a usable finite route is selected. |
| `Babel.HandledMeans` | peering/bird-1.6.4/proto/babel/babel.c:1063-1216 | The same of the relation that the network model uses. |
| `Babel.RetractAll` | peering/bird-1.6.4/proto/babel/babel.c:1126-1141 | A wildcard retraction does to every entry with a route of the neighbour what a retraction of its prefix does: the route becomes infinite and the selection is made again. |
| `Babel.Entry.FlushRoute` | peering/bird-1.6.4/proto/babel/babel.c:178-198 | One route of the neighbour is gone, and with it its selection and export; all other routes are found as before. |
| `Babel.Entry.ExpireRoute` | peering/bird-1.6.4/proto/babel/babel.c:200-218 | A finite route becomes infinite and nothing else changes; an infinite one is flushed. |
| `Babel.Entry.SendUpdate` | peering/bird-1.6.4/proto/babel/babel.c:754-808 | An exported route is advertised with its router-id, sequence number (our own with the current one) and metric unless skipped, nothing else is; for another's route the source keeps the better of the distance known and the one advertised. |
| `BabelNet.StoredProvenance` | peering/bird-1.6.4/proto/babel/babel.c:1063-1216 | Every route stored by an update either was there or carries exactly what the update advertised. |
| `BabelNet.SentOk` | peering/bird-1.6.4/proto/babel/babel.c:754-808 | An update sent for somebody else's router-id leaves the feasibility distance at most what was advertised, and never raises one. |
| `BabelNet.NodeStepOk` | peering/bird-1.6.4/proto/babel/babel.c:527-1216 | Each handler keeps the invariants of a node: sources never go up, selections are feasible when made, advertisements are covered by sources. |
| `BabelNet.DistancesStep` | peering/bird-1.6.4/proto/babel/babel.c:393-400 | FD(next hop) <= stored advertised distance <= own FD is kept by every step of a network with losing, reordering, duplicating channels; where all links cost at least 1 the second comparison is strict, which is kept too. |
| `BabelNet.StrictDecrease` | peering/bird-1.6.4/proto/babel/babel.c:393-400 | With links that cost at least 1: in every state of every run, along every next hop that does not originate the router-id, FD(next hop) <= stored advertised distance < own FD. |
| `BabelNet.NewEdge` | peering/bird-1.6.4/proto/babel/babel.c:527-586 | A step adds next-hop edges only at the node that takes it, and only strictly feasible ones. |
| `BabelNet.NoCycleStep` | peering/bird-1.6.4/proto/babel/babel.c:527-586 | No step closes a cycle of next hops that all selected the same prefix and router-id. |
| `BabelNet.LoopFree` | peering/bird-1.6.4/proto/babel/babel.c:393-400 | Loop freedom (section 3.5.1 of RFC 6126): in every state of every run of every network there is no such cycle, for any link costs. |
| `BabelNet.HeardIsSelected` | peering/bird-1.6.4/proto/babel/babel.c:1167-1216 | A usable update of finite metric that reaches a node without a selection is its neighbour's route afterwards, and the node has a selection. |
| `BabelNet.RouteSpreads` | peering/bird-1.6.4/proto/babel/babel.c:754-1216 | Runs bring next hops about: for every finite cost there is a run of two nodes in which one originates the prefix and the other selects it as next hop. |
| `FibTable.ForwardingTable.constructor` | peering/bird-1.6.4/nest/rt-fib.c:116-129 | fib_init gives an empty table without waiting iterators. |
| `FibTable.Place` | peering/bird-1.6.4/nest/rt-fib.c:151-163 | A node moved by a rehash goes to the end of the chain of its bucket; the reading order is the order of the moves. |
| `FibTable.Redistribute` | peering/bird-1.6.4/nest/rt-fib.c:148-170 | One pass over the old chains builds correctly bucketed, strictly sorted new ones with the same concatenation. |
| `FibTable.ForwardingTable.Rehash` | peering/bird-1.6.4/nest/rt-fib.c:131-172 | fib_rehash changes neither the entries nor the reading order. |
| `FibTable.ForwardingTable.Find` | peering/bird-1.6.4/nest/rt-fib.c:183-191 | fib_find returns the node of exactly this prefix, or there is none. |
| `FibTable.Slot` | peering/bird-1.6.4/nest/rt-fib.c:241-260 | The chain position and the id of a new node: larger than all before, smaller than all after, with the node's hash in the upper half. |
| `Fib.FreeId` | peering/bird-1.6.4/nest/rt-fib.c:241-250 | With fewer than 65536 nodes of one hash the search for an id ends at a free one that still carries the hash. |
| `FibTable.ForwardingTable.Get` | peering/bird-1.6.4/nest/rt-fib.c:224-266 | fib_get refines a finite map: an existing prefix changes nothing, a new one is added with an unused id; parked readers keep their nodes. The table grows by two orders exactly when a new node comes to more than the upper limit. |
| `FibTable.ForwardingTable.Delete` | peering/bird-1.6.4/nest/rt-fib.c:338-372 | fib_delete removes exactly one node and moves its readers to the next node in reading order, or to the end; the table shrinks by two orders exactly below the lower limit. |
| `FibTable.ForwardingTable.HtAlloc` | peering/bird-1.6.4/nest/rt-fib.c:69-85 | The limits of a size: four entries a chain, and one in five chains, with no upper limit from order 15 on and no lower one below order 12. |
| `FibTable.ForwardingTable.MergeReaders` | peering/bird-1.6.4/nest/rt-fib.c:295-327 | The readers of one node join those of another, nobody is lost and everybody else stays. |
| `FibTable.ForwardingTable.Next` | peering/bird-1.6.4/nest/rt-fib.c:351-364 | The node after a given one in reading order, across empty chains. |
| `FibTable.ForwardingTable.Route` | peering/bird-1.6.4/nest/rt-fib.c:278-293 | fib_route is longest-prefix match: it finds a covering entry, and no longer one exists. |
| `FibTable.ForwardingTable.FitInit` | peering/bird-1.6.4/nest/rt-fib.c:388-408 | A new iterator waits at the first node of the table, or at the end. |
| `FibTable.ForwardingTable.FitPut` | peering/bird-1.6.4/nest/rt-fib.c:438-449 | A suspended iterator waits at the node given. |
| `FibTable.ForwardingTable.FitPutNext` | peering/bird-1.6.4/nest/rt-fib.c:451-468 | It waits at the next node in reading order, or at the end. |
| `FibTable.ForwardingTable.FitGet` | peering/bird-1.6.4/nest/rt-fib.c:410-436 | Resuming returns the node where the iterator waits and unlinks it; all others stay. |
| `FibWalk.StepOk` | peering/bird-1.6.4/nest/route.h:90-111 | Insertions, deletions, rehashes, parking and resuming keep all walks forward, complete and linked to live nodes. |
| `FibWalk.RunOk` | peering/bird-1.6.4/nest/route.h:90-111 | The same in every state of every run. |
| `FibWalk.WalksComplete` | peering/bird-1.6.4/nest/route.h:90-111 | A finished walk has visited every entry that was there for the whole walk; no walk goes backwards or sees an entry twice, unless it was parked at it after reading it. |
| `FibWalk.VisitsWhatStays` | peering/bird-1.6.4/nest/route.h:90-111 | In terms of the run alone: an entry that was there when the walk started and that no event has deleted since has been visited when the walk is over. |
| `FibWalk.VisitedWasRead` | peering/bird-1.6.4/nest/route.h:90-111 | Whatever a walk has visited it was reading in some state of the run. |
| `FibWalk.TableSteps` | peering/bird-1.6.4/nest/rt-fib.c:295-468 | The waiting iterators change with each event as fib_delete, fit_init, fit_get, fit_put and fit_put_next change them; the classes below rest on it. |
| `FibRun.WalkedTable.Get` | peering/bird-1.6.4/nest/rt-fib.c:224-266 | Looking up or inserting an entry in the table, with any rehash, is no event or the insertion of its id in the run of the walks. |
| `FibRun.WalkedTable.Delete` | peering/bird-1.6.4/nest/rt-fib.c:338-372 | Deleting an entry, with any rehash, is the deletion of its id, and the parked walks are where the table put their iterators. |
| `FibRun.WalkedTable.Init` | peering/bird-1.6.4/nest/route.h:90-90 | FIB_ITERATE_INIT starts a walk at the first entry of the table; all entries present count as lasting until deleted. |
| `FibRun.WalkedTable.Resume` | peering/bird-1.6.4/nest/route.h:92-103 | FIB_ITERATE_START reads the entry where the walk waits, which is in the table, or ends the walk. |
| `FibRun.WalkedTable.Step` | peering/bird-1.6.4/nest/route.h:96-105 | FIB_ITERATE_END goes to the next entry of the table, across chains, or ends the walk. |
| `FibRun.WalkedTable.Put` | peering/bird-1.6.4/nest/route.h:107-107 | FIB_ITERATE_PUT suspends the walk at the entry it has read. |
| `FibRun.WalkedTable.PutNext` | peering/bird-1.6.4/nest/route.h:109-109 | FIB_ITERATE_PUT_NEXT suspends the walk at the next entry, or at the end. |
| `FibRun.WalkedTable.Complete` | peering/bird-1.6.4/nest/route.h:90-111 | A walk over the table that is over has visited every entry that was there at its start and was not deleted since, in reading order and no others, whatever was inserted, deleted and rehashed in between. |
| `Roa.RoaTable.AddItem` | peering/bird-1.6.4/nest/rt-roa.c:42-61 | An authorisation is added once. |
| `Roa.RoaTable.DeleteItem` | peering/bird-1.6.4/nest/rt-roa.c:76-97 | The first matching authorisation goes, everything else stays. |
| `Roa.RoaTable.Flush` | peering/bird-1.6.4/nest/rt-roa.c:109-132 | Afterwards exactly the authorisations of other sources are left, under every prefix. |
| `Roa.RoaTable.Check` | peering/bird-1.6.4/nest/rt-roa.c:183-209 | The outcomes of section 2 of RFC 6483: valid exactly when a covering item has the origin and allows the length, unknown exactly when nothing covers. |
| `HostCache.MissedChange` | peering/bird-1.6.4/nest/rt-table.c:2201-2211 | A change of a net that misses the recorded range of an address cannot alter the address's longest match. |
| `HostCache.MissedStaysCoherent` | peering/bird-1.6.4/nest/rt-table.c:2201-2211 | A change that misses the trie leaves all entries coherent. |
| `HostCache.Table.NetRoute` | peering/bird-1.6.4/nest/rt-table.c:64-79 | net_route: the longest prefix of the address whose best route is valid. |
| `HostCache.ResolveMeans` | peering/bird-1.6.4/nest/rt-table.c:2254-2312 | Resolution by the longest covering net: the attributes and metric of its route are recorded exactly when the route is not recursive and not a device route with a local address; the gateway is the link for a device route and the route's own otherwise; in all other cases, and when no net covers the address, it is unreachable without source. |
| `HostCache.Table.UpdateHostEntry` | peering/bird-1.6.4/nest/rt-table.c:2254-2312 | The entry becomes what the longest covering net says, in the terms above; the range below that net joins the trie; the answer says whether the recorded source changed. |
| `HostCache.Table.NotifyHostCache` | peering/bird-1.6.4/nest/rt-table.c:2201-2211 | An update is scheduled exactly when one is already or the trie matches the net. |
| `HostCache.Table.ChangeBest` | peering/bird-1.6.4/nest/rt-table.c:741-769 | The best route of one net is set or removed, the others stay; afterwards an update is scheduled or every entry is what a fresh lookup would give. |
| `HostCache.Table.CacheMeans` | peering/bird-1.6.4/nest/rt-table.c:2254-2339 | With no update scheduled, every entry is what the longest net that covers its address says. |
| `HostCache.Table.UpdateHostCache` | peering/bird-1.6.4/nest/rt-table.c:2314-2339 | The update drops unused entries, resolves the others by the longest net, and leaves nothing scheduled; exactly the dependents of entries whose source changed are scheduled for new next hops. |
| `HostCache.Table.GetHostEntry` | peering/bird-1.6.4/nest/rt-table.c:2341-2358 | The entry of an address: the one there is, or a new resolved one; the cache stays coherent. |
| `RtLists.BeatsIsOrder` | peering/bird-1.6.4/nest/rt-table.c:171-197 | Preference, protocol and the protocol hook make rte_better a strict weak order on valid routes. |
| `RtLists.ListMeans` | peering/bird-1.6.4/nest/rt-table.c:171-197 | The order in the fields: the head precedes all other routes, in sorted lists everyone those behind it, where a filtered route precedes only filtered ones, then preference, then protocol, then the hook decides. |
| `RtLists.InsertSorted` | peering/bird-1.6.4/nest/rt-table.c:987-1003 | Inserting before the first route that is beaten keeps a sorted list sorted. |
| `RtLists.Insert` | peering/bird-1.6.4/nest/rt-table.c:987-1003 | The shortcut of starting at before_old finds a place that keeps the list sorted. |
| `RtLists.Elect` | peering/bird-1.6.4/nest/rt-table.c:1037-1050 | The election moves a route that nothing beats to the head and keeps all the others. |
| `RtLists.Relink` | peering/bird-1.6.4/nest/rt-table.c:1005-1063 | The cases of unsorted tables: nothing beats the head afterwards, and the routes are the old ones without the replaced one, with the new one. |
| `RtLists.InsertAccepted` | peering/bird-1.6.4/nest/rt-table.c:494-503 | Where the first accepted route is, after a route has been put in. |
| `RtLists.FindNewBest` | peering/bird-1.6.4/nest/rt-table.c:494-503 | The first pass finds the first accepted route and knows whether the place of the old route came before it. |
| `RtLists.FindOldBest` | peering/bird-1.6.4/nest/rt-table.c:563-574 | The second pass finds the next accepted route, or the old route if its place comes first. |
| `RtLists.OtherCases` | peering/bird-1.6.4/nest/rt-table.c:525-561 | Cases one to three decide correctly what the old list accepted first. |
| `RtLists.FourthCase` | peering/bird-1.6.4/nest/rt-table.c:563-574 | In case four the second pass finds what the old list accepted first. |
| `RtLists.NotifyAccepted` | peering/bird-1.6.4/nest/rt-table.c:468-584 | rt_notify_accepted announces exactly when the first accepted route of the old list differs from that of the new one, and announces exactly those two: the shortcut equals recomputing both. Feeding announces the first accepted route, refeeding always announces something if there is a valid route. |
| `RtTable.Ask` | peering/bird-1.6.4/nest/proto.c:1200-1232 | One limit: another route never exceeds a limit that blocks; a limit that is hit becomes active after a warning and blocked otherwise, and a blocked one stays so. |
| `RtTable.Counted` | peering/bird-1.6.4/nest/rt-table.c:982-985 | An update changes the numbers of imported and filtered routes of each hook by the old and the new route. |
| `RtTable.UpdateMeans` | peering/bird-1.6.4/nest/rt-table.c:916-985 | What limits do to an update, over their fields: the new route is taken unchanged if each limit that is asked is absent or lets it through; it is dropped exactly when a full or blocked receive limit meets a new source, or such an import limit one without keeping filtered routes; otherwise the import limit keeps it as filtered, or withdraws the old route. |
| `RtTable.LimitsMean` | peering/bird-1.6.4/nest/rt-table.c:919-971 | The limits after an update: only those asked take note, the import limit only after the receive limit has let the route through. |
| `RtTable.Account` | peering/bird-1.6.4/nest/rt-table.c:916-985 | The counters follow the verdict, both limits are asked in turn, and neither is exceeded. |
| `RtTable.SortedChange` | peering/bird-1.6.4/nest/rt-table.c:862-908 | The change rte_recalculate makes to a sorted list is one that the announcement of accepted routes can be told of through old, new and before_old. |
| `RtTable.HooksUpdated` | peering/bird-1.6.4/nest/rt-table.c:982-985 | Counters equal the actual numbers of routes after the update, for all hooks. |
| `RtTable.Table.Recalculate` | peering/bird-1.6.4/nest/rt-table.c:850-1064 | One route per source, the head preceding all (all in order in sorted tables), counters and limits right for every hook; the new route is in the list, kept as filtered, or dropped, or the old one withdrawn, exactly as sender, sameness and the two limits decide in terms of their fields; other sources' routes stay. |
| `RtTable.Table.UpdateSorted` | peering/bird-1.6.4/nest/rt-table.c:850-1105 | Update and announcement together: a protocol hears exactly of changes of the first route its filter accepts. |
| `EaModel.MergeRuns` | peering/bird-1.6.4/nest/rt-attr.c:521-563 | Merging two adjacent runs is a stable permutation of them and sorted. |
| `EaModel.PairShrinks` | peering/bird-1.6.4/nest/rt-attr.c:521-563 | Each merge of two maximal runs removes a descent, whatever happens at its borders. |
| `EaModel.PruneNormal` | peering/bird-1.6.4/nest/rt-attr.c:565-589 | Pruning a sorted list leaves strictly increasing ids. |
| `EaModel.PruneKeeps` | peering/bird-1.6.4/nest/rt-attr.c:565-589 | Of each id pruning keeps what overrides the rest, and nothing of ids whose first attribute is undefined. |
| `EaModel.MergedFirst` | peering/bird-1.6.4/nest/rt-attr.c:652-667 | The merged list gives each id the value the override chain gives it. |
| `EaModel.NormalisedFinds` | peering/bird-1.6.4/nest/rt-attr.c:601-616 | Stable sorting and pruning keep the value of every id, up to the ORIGINATED flag. |
| `EaModel.NormalisedBits` | peering/bird-1.6.4/nest/rt-attr.c:565-589 | And that flag becomes the one of the last attribute of the id. |
| `EaList.CopyRun` | peering/bird-1.6.4/nest/rt-attr.c:521-563 | A maximal run is copied, and the next element starts a new one. |
| `EaList.MergeBack` | peering/bird-1.6.4/nest/rt-attr.c:521-563 | Two runs are merged back in place, the elements around them are untouched. |
| `EaList.Pass` | peering/bird-1.6.4/nest/rt-attr.c:521-563 | A pass is a stable permutation; it either ends sorted or has fewer descents. |
| `EaList.DoSort` | peering/bird-1.6.4/nest/rt-attr.c:521-563 | ea_do_sort terminates and is a stable sort of the array. |
| `EaList.DoPrune` | peering/bird-1.6.4/nest/rt-attr.c:565-589 | The array is pruned in place. |
| `EaList.EaList.Sort` | peering/bird-1.6.4/nest/rt-attr.c:601-616 | ea_sort on one list: every id keeps its value, and lists flagged for bisection are strictly sorted. |
| `EaList.EaList.Find` | peering/bird-1.6.4/nest/rt-attr.c:373-404 | ea__find, by bisection or one by one, returns the first attribute of the id. |
| `EaList.Merge` | peering/bird-1.6.4/nest/rt-attr.c:652-667 | ea_merge joins the segments of a chain in order. |
| `EaList.Normalise` | peering/bird-1.6.4/nest/rt-attr.c:1133-1148 | Merge, sort and prune as rta_lookup does them: every id has the value it had in the override chain. |
| `SrcIds.FirstFree` | peering/bird-1.6.4/nest/rt-attr.c:101-130 | The lowest clear bit of a word that is not full. |
| `SrcIds.SrcIdMap.FreeWord` | peering/bird-1.6.4/nest/rt-attr.c:107-122 | The scan finds the first word that is not full. |
| `SrcIds.SrcIdMap.AllocId` | peering/bird-1.6.4/nest/rt-attr.c:103-135 | An id that was not in use is handed out, no other changes, the counter is the number of set bits, the map is doubled when 7/8 full; the end of the scan without result is unreachable. |
| `SrcIds.SrcIdMap.FreeId` | peering/bird-1.6.4/nest/rt-attr.c:137-146 | Exactly this id becomes free and the counter follows. |
| `BabelPackets.ReadBody` | peering/bird-1.6.4/proto/babel/packets.c:279-713 | The reader of each TLV type inverts its writer, given the router-id and next hop of the parse state. |
| `BabelPackets.ParseOne` | peering/bird-1.6.4/proto/babel/packets.c:755-771 | A message as written, with a router-id TLV before it or without, is parsed back and leaves writer and parser synchronised. |
| `BabelPackets.ParseEncoded` | peering/bird-1.6.4/proto/babel/packets.c:928-1015 | All messages of a packet are parsed back in order. |
| `BabelPackets.WriteTlv` | peering/bird-1.6.4/proto/babel/packets.c:755-771 | A message is written as a whole with its router-id, or not at all when it does not fit. |
| `BabelPackets.WriteQueue` | peering/bird-1.6.4/proto/babel/packets.c:803-841 | A packet is a valid encoding of a prefix of the queue with at least one message, within the length limit, and the next message would not fit. |
| `BabelPackets.ProcessPacket` | peering/bird-1.6.4/proto/babel/packets.c:928-1015 | The loop over the TLVs of a packet computes the messages received, skipping what it must skip. |
| `BabelPackets.PacketHeader` | peering/bird-1.6.4/proto/babel/packets.c:935-957 | Packets of another protocol or version, or shorter than they claim, carry nothing; what follows the claimed length does not matter. |
| `BabelPeers.ReadRoute` | peering/bird-1.6.4/proto/babel/packets.c:465-545 | An update of a peer that omits bytes of the saved prefix, saves its own, or derives the router-id from it, is read as meant, and the state for the TLVs after it is right. |
| `BabelPeers.ParseItems` | peering/bird-1.6.4/proto/babel/packets.c:928-1015 | Whatever a peer writes by the rules of sections 4.4 and 4.5 of RFC 6126 (padding, unknown and ignored TLVs, router-ids, next hops, hellos, compressed updates) is received as meant, in order, and the rest of the packet is read after it. |
| `BabelPeers.ParseStops` | peering/bird-1.6.4/proto/babel/packets.c:465-545 | An update that omits bytes no update has saved, or is finite without any router-id, ends the packet. |
| `BabelPackets.SendQueue` | peering/bird-1.6.4/proto/babel/packets.c:843-849 | Draining a queue and parsing all packets gives the same messages in order, none lost, none twice. |
| `Bfd.StepOk` | peering/bird-1.6.4/proto/bfd/bfd.c:132-162 | Every atomic section of either thread keeps the invariant of sessions, requests and lists, also between the release of the lock and the kick. |
| `Bfd.StatesAreGiven` | peering/bird-1.6.4/proto/bfd/bfd.c:132-162 | In every run every live session has the state that the events gave it last, creation counting as down. |
| `Bfd.RunOk` | peering/bird-1.6.4/proto/bfd/bfd.c:132-162 | In every state of every run of sections, a request is up to date or pending, a nonempty notify list has a pipe byte, a kick or a taking to come, and every session has the state the events gave it last. |
| `Bfd.NothingLost` | peering/bird-1.6.4/proto/bfd/bfd.c:132-162 | A request whose state differs from its session's belongs to a linked session or is still to be told that very state, and a nonempty notify list has a pipe byte, a kick or a taking to come. |
| `Bfd.Settled` | peering/bird-1.6.4/proto/bfd/bfd.c:857-896 | When both threads are idle and the pipe is empty, all requests have the latest state of their session. |
| `Bfd.Progress` | peering/bird-1.6.4/proto/bfd/bfd.c:857-902 | Until all is quiet some thread can step, and every such step decreases a rank. |
| `Bfd.Settles` | peering/bird-1.6.4/proto/bfd/bfd.c:857-902 | Wherever the invariant holds the threads can run to quiet, with all requests told. |
| `Bfd.RunSettles` | peering/bird-1.6.4/proto/bfd/bfd.c:857-902 | Every run from the start can go on, by the threads' own sections, to a quiet state in which all requests know the state that the events gave their session last. |
| `Bfd.BfdProto.SetState` | peering/bird-1.6.4/proto/bfd/bfd.c:132-162 | bfd_session_update_state: the session has the new state, requests and what they know stay; a changed session is linked once, with a kick if it was not linked. |
| `Bfd.BfdProto.KickPipe` | peering/bird-1.6.4/proto/bfd/bfd.c:898-902 | The kick puts a byte into the pipe. |
| `Bfd.BfdProto.AddRequestTo` | peering/bird-1.6.4/proto/bfd/bfd.c:625-641 | bfd_add_request: the request joins the session, which is created if need be, and the state is read. |
| `Bfd.BfdProto.FreeRequestOf` | peering/bird-1.6.4/proto/bfd/bfd.c:709-721 | bfd_request_free: this request is gone and no other; the session goes with its last request, unless its requests are being told. |
| `Bfd.BfdProto.TellSession` | peering/bird-1.6.4/proto/bfd/bfd.c:874-893 | The first session of the list is left with its requests told or itself linked again, and it is gone if it has no request, whatever the other thread and the hooks do meanwhile. |
| `Bfd.BfdProto.NotifyHook` | peering/bird-1.6.4/proto/bfd/bfd.c:857-896 | The hook, with any turns of the other thread and of request hooks between its sections, continues the run and ends with all requests knowing the state last given to their session unless that has been linked again; undisturbed, it changes no session that has requests and leaves nothing pending. |
| `Locks.AcquireOk` | peering/bird-1.6.4/nest/locks.c:137-158 | A new lock joins the end of the queue of its object; no other queue and no holder changes. |
| `Locks.FreeOk` | peering/bird-1.6.4/nest/locks.c:54-86 | Only the freed lock leaves its queue, the first waiter becomes holder; the others keep their places. |
| `Locks.GrantOk` | peering/bird-1.6.4/nest/locks.c:160-181 | One round of the event grants the holder of one object and changes nobody's place. |
| `Locks.RunOk` | peering/bird-1.6.4/nest/locks.c:137-181 | In every state of every run: one holder and at most one granted lock per object, EVENT entries before LOCKED ones, waiters behind the holder of their object, a pending grant is scheduled. |
| `Locks.FirstComeFirstServed` | peering/bird-1.6.4/nest/locks.c:54-181 | Who asked first is granted first, however hooks acquire and free in between. |
| `Locks.AllGranted` | peering/bird-1.6.4/nest/locks.c:160-181 | When no event is scheduled the head of every queue holds its object. |
| `Locks.LockManager.Acquire` | peering/bird-1.6.4/nest/locks.c:137-158 | olock_acquire appends to the queue of the object. |
| `Locks.LockManager.Free` | peering/bird-1.6.4/nest/locks.c:54-86 | olock_free takes exactly this lock out. |
| `Locks.LockManager.RunHook` | peering/bird-1.6.4/nest/locks.c:137-181 | A hook that acquires and frees locks continues the run and adds at most one holder to be told per call. |
| `Locks.LockManager.RunEvent` | peering/bird-1.6.4/nest/locks.c:160-181 | With hooks that acquire and free locks after every grant, the event ends, continues the run, and leaves every queue's head granted. |
| `ProtoCore.WantCoreUp` | peering/bird-1.6.4/nest/proto.c:1255-1281 | Core goes up, the main source is taken unless the protocol is multitable; the ASSERT is the precondition. |
| `ProtoCore.WantExportUp` | peering/bird-1.6.4/nest/proto.c:1283-1291 | Hooks are linked and feeding starts; both ASSERTs are preconditions. |
| `ProtoCore.WantExportDown` | peering/bird-1.6.4/nest/proto.c:1293-1305 | Exports end and the hooks are unlinked. |
| `ProtoCore.WantCoreDown` | peering/bird-1.6.4/nest/proto.c:1307-1322 | Flushing starts and the main source is given back; both ASSERTs are preconditions. |
| `ProtoCore.ReportStart` | peering/bird-1.6.4/nest/proto.c:1383-1391 | PS_START from up or at the start of a life cycle: exports end, the instance stays legal. |
| `ProtoCore.ReportUp` | peering/bird-1.6.4/nest/proto.c:1393-1402 | PS_UP: core and exports come up, exports only when not postponed; none of the three ASSERTs can fail. |
| `ProtoCore.GoDown` | peering/bird-1.6.4/nest/proto.c:1404-1427 | What PS_STOP and PS_DOWN do to the export and core states. |
| `ProtoCore.Core.LockRestart` | peering/bird-1.6.4/nest/proto.c:786-797 | The lock is taken once, and the counter stays the number of holders. |
| `ProtoCore.Core.UnlockRestart` | peering/bird-1.6.4/nest/proto.c:806-817 | The lock is released once; when the last one goes in an active recovery the timer is due. |
| `ProtoCore.Core.FallingDown` | peering/bird-1.6.4/nest/proto.c:1324-1331 | An instance that goes down leaves the recovery and its lock. |
| `ProtoCore.Core.ScheduleFlushLoop` | peering/bird-1.6.4/nest/proto.c:1002-1020 | A round starts with all instances waiting to be flushed; a running round is left alone. |
| `ProtoCore.WentDownMeans` | peering/bird-1.6.4/nest/proto.c:1404-1427 | In the fields: an instance that stops or goes down no longer exports, is flushing if it had a core state, is marked if that starts a round, and has left the recovery; nothing else of it changes. |
| `ProtoCore.Core.ReportDown` | peering/bird-1.6.4/nest/proto.c:1404-1441 | PS_STOP and PS_DOWN from any state that may report them: the effect above, or the end of the life cycle; the flush loop runs if something has to be flushed; all instances stay legal. |
| `ProtoCore.Core.FellDown` | peering/bird-1.6.4/nest/proto.c:1333-1352 | The table is unlocked exactly once, and the instance restarts, stays down or disappears as configured. |
| `ProtoCore.Core.RethinkGoal` | peering/bird-1.6.4/nest/proto.c:599-646 | The instance is afterwards where its configuration wants it or on its way: replaced, started, stopped or left alone. |
| `ProtoCore.Core.StartUp` | peering/bird-1.6.4/nest/proto.c:628-635 | A life cycle starts with one table lock, and with a part in the recovery exactly when one is being prepared. |
| `ProtoCore.Core.FlushOne` | peering/bird-1.6.4/nest/proto.c:1038-1053 | A flushed instance becomes hungry; if it is down its life cycle ends. |
| `ProtoCore.Core.FlushLoop` | peering/bird-1.6.4/nest/proto.c:1022-1059 | A round flushes exactly the instances marked at its start; it goes on exactly when something has to be flushed since. |
| `ProtoCore.Core.RecoveryStarts` | peering/bird-1.6.4/nest/proto.c:702-720 | The recovery becomes active, or is done at once when nobody holds a lock. |
| `ProtoCore.Core.RecoveryDone` | peering/bird-1.6.4/nest/proto.c:732-760 | Exactly the instances that are up and waited start being fed and are linked; flags and locks are cleared, nothing else changes. |
| `ProtoCore.AllExportAfterRecovery` | peering/bird-1.6.4/nest/proto.c:732-760 | After a recovery every instance that is up exports. |
| `ProtoCore.RoundGoesOn` | peering/bird-1.6.4/nest/proto.c:1038-1052 | Flushing one instance brings the round nearer to its end and touches no other instance. |
| `ProtoCore.Core.Notify` | peering/bird-1.6.4/nest/proto.c:1369-1444 | Reports of protocols: every permitted report leaves all instances legal and changes only the reporting one. |
| `ProtoCore.Core.Configure` | peering/bird-1.6.4/nest/proto.c:1573-1623 | Disabling, enabling, restarting and reconfiguring: flags are set and the goal rethought. |
| `ProtoCore.Core.Feed` | peering/bird-1.6.4/nest/proto.c:937-989 | Feeding starts again or ends; instances that do not export are left alone. |
| `ProtoCore.Core.Run` | peering/bird-1.6.4/nest/proto.c:1369-1444 | In every run over any number of instances: legal state combinations, graceful_restart_locks equal to the number of holders, one table lock per life cycle, the flush loop running while something waits, and every instance on the way to its goal; no ASSERT fails. |
| `Frrp.Fewer` | framework/experiments/frrp_and_default_routes/frrp.py:425-434 | A new edge strictly decreases the number of edges still unknown, the measure of the recursion. |
| `Frrp.Search.AddPath` | framework/experiments/frrp_and_default_routes/frrp.py:403-438 | The edges of the path join the graph; the answer is true exactly when one was not there. |
| `Frrp.Search.TryPoison` | framework/experiments/frrp_and_default_routes/frrp.py:489-553 | One AS: skipped exactly when its set may not be announced or is cached; otherwise announced and measured. A new edge makes the path a record, caches the set, and unless a measurement fails every AS of that path and of all paths found from it is tried in turn; the caller stops exactly on a failed measurement of its own. |
| `Frrp.Search.Follow` | framework/experiments/frrp_and_default_routes/frrp.py:516-553 | The recursive call: unless a measurement fails, every AS of the path found is tried, and so for all paths found while doing so. |
| `Frrp.Search.TryAll` | framework/experiments/frrp_and_default_routes/frrp.py:489-553 | Every AS of the path has been tried unless a measurement failed. |
| `Frrp.Search.Measure` | framework/experiments/frrp_and_default_routes/frrp.py:441-553 | The recursion ends for arbitrary answers, with strictly growing poison sets and at least one new edge per recursive call; unless a measurement fails, the ASes of its path and of all paths found are tried. |
| `Frrp.Run` | framework/experiments/frrp_and_default_routes/frrp.py:441-553 | A whole search: calls bounded by the edges found, no announced set with the source, 3450 or both 12083 and 3356, no announcement repeated that led to a new path, every useful announcement recorded with the path measured after it, and unless a measurement fails every AS of every path found tried on top of its poisons. |

## Left out

- Sockets, timers, real time, memory pools, logging, the command line and all printing. Allocation gives fresh objects; timers fire as events.
- The filter interpreter: a filter is a deterministic function from routes to acceptance.
- AsPath.AsPathMatch: paths are valid ones with nonempty sets and at most 2048 positions, which is the size of the array in the code; PM_ASN_EXPR is resolved before matching and has an ASSERT(0) in the code.
- `as_path_prepend`, `as_path_filter` and the conversions between old and new paths: list edits that would only add easier members.
- Trie.Trie.AddPrefix: patterns satisfy low <= high <= 32 and length <= 32, the bounds the configuration grammar enforces; IPv4 addresses are sequences of 32 bits.
- FibTable.ForwardingTable.Get: requires fewer than 65536 nodes of one 16-bit hash; beyond that the code logs an error and continues.
- Linked lists (FIB chains and reader lists, routes of a net or a Babel entry, notify and request lists, lock queues) are sequences in the fields of their owner, and protocol instances and host entries are records in a map of theirs: relinking step by step and aliasing between elements are not captured. The nodes of the trie are linked objects.
- The address hash: any function into 16 bits.
- Babel source expiry, restarts that lose sources, sequence number requests and their forwarding, Hello and IHU handling and the cost computation. Loop freedom is a safety claim and holds for any costs.
- The core table as seen by Babel answers without delay. Its part in `BabelNet.Step` is the assumption `CoreFollows`: it makes no call only when it does not export a route of ours that has been replaced as the selected one.
- Babel packets carry IPv6 only: the parser ignores IPv4 encodings. Acknowledgment requests are parsed but have no writer in the code, so they are not among the messages of the round trip. Which neighbour a packet is sent to is not modelled.
- BabelPackets.SendQueue: messages are well-formed (intervals 1 to 655 seconds, prefixes zero past their length, IHU addresses link-local) and the packet length leaves room for the longest message; with less room the code would send empty packets forever.
- The export counters that `rt_notify_accepted` updates.
- Announcements RA_ANY and RA_MERGED, `rt_notify_basic` and `rt_notify_merged`, and export limits.
- RtTable.Table.Recalculate: `rte_same` and the protocol's own `rte_recalculate` hook are given as booleans; tables sorted by a protocol hook assume it is a strict weak order.
- HostCache.Table.UpdateHostEntry: interface addresses stay fixed; the use count of an entry is part of its state but its increments by attributes are not modelled.
- Nested attribute lookups with `ea_walk`, the hash table of shared attributes (`rta_lookup` beyond normalisation), multipath next-hop merging.
- SrcIds.SrcIdMap.AllocId: the map may be doubled at most up to 2^27 words, the bound of the second ASSERT.
- BFD control packets, timers, detection and poll sequences. Sections under the session lock are atomic; effects of weak memory inside them are not modelled. The lock of the BFD loop, which keeps that thread out while sessions are created and removed, is not modelled: the results hold without it.
- Protocol reconfiguration in place, the device protocol, delayed shutdowns and limits that trigger them: they reach the state machine as changes of flags followed by `proto_rethink_goal`.
- ProtoCore.Core.FlushLoop: whether the tables have been pruned is an input; removal of routes is part of the table, not of this model.
- ProtoCore.Core.StartUp: the start hook ends in PS_START or PS_UP and the shutdown hook in PS_STOP or PS_DOWN, as all protocols here do.
- The experiment's messaging, measurement platform, graph drawing and files. The cache of poison sets is keyed by the set itself instead of by its printed form.
- Frrp.Search.Measure: recursion depth and waiting times are not bounded separately from the number of calls.
