/**
 * A network of Babel nodes exchanging updates for one prefix over channels that lose, reorder and
 * duplicate: a message once sent may be received at any later time, any number of times.
 *
 * Main result: in every reachable state the selected next hops have no cycle whose hops all
 * selected the same router-id (LoopFree; RFC 6126, section 2.4 and section 3.5.1).
 */
module BabelNet {

  import opened Babel
  import opened Options
  import opened Numbers

  datatype NodeState = NodeState(self: Self, entry: EntryState)

  datatype Msg = Msg(sender: nat, update: Update)

  datatype Net = Net(nodes: map<nat, NodeState>, sent: set<Msg>)

  // One atomic step of one node.
  datatype Event =
    | Receive(node: nat, neigh: Neigh, msg: Msg, cost: u16, core: CoreChoice)
    | Send(node: nat, skip: bool)
    | SendRetraction(node: nat, rid: RouterId, seqno: u16)
    | Expire(node: nat, k: Option<Neigh>)
    | Flush(node: nat, k: Option<Neigh>)
    | Select(node: nat, core: CoreChoice)
    | CoreUpdate(node: nat, core: CoreChoice)
    | NewSeqno(node: nat)

  // Only the selected route or our own is exported while a route is selected.
  predicate ExportOk(e: EntryState) {
    e.selOut.Via? && e.selOut.neigh.Some? && e.selIn.Some? ==> e.selOut.neigh == e.selIn
  }

  // The assumption about the core table, which answers without delay: it stays silent only when it
  // has nothing to say, that is, not while it exports a route of ours that is no longer the selected one.
  predicate CoreFollows(c: CoreChoice, e': EntryState) {
    c.Silent? ==> ExportOk(e')
  }

  // What the event does to the node that takes it and what the node sends.
  predicate NodeStep(ev: Event, st: NodeState, st': NodeState, out: Option<Update>)
    requires WellFormed(st.entry)
  {
    var e, e' := st.entry, st'.entry;
    match ev
    case Receive(_, neigh, msg, cost, core) =>
      st'.self == st.self && out == None && neigh.node == msg.sender &&
      Handled(e, st.self, neigh, msg.update, cost, core, e') && CoreFollows(core, e')
    case Send(_, skip) => st'.self == st.self && (e', out) == Sent(e, st.self, skip)
    case SendRetraction(_, rid, seqno) => st' == st && out == Some(Update(rid, seqno, INFINITY))
    case Expire(_, k) => st'.self == st.self && out == None && Has(e.routes, k) && e' == Expired(e, k)
    case Flush(_, k) => st'.self == st.self && out == None && Has(e.routes, k) && e' == Flushed(e, k)
    case Select(_, core) => st'.self == st.self && out == None && Selected(e, st.self, core, e') && CoreFollows(core, e')
    case CoreUpdate(_, core) => st'.self == st.self && out == None && e' == Notify(e, st.self, core) && CoreFollows(core, e')
    case NewSeqno(_) => st'.self == Self(st.self.rid, (st.self.seqno + 1) % 0x10000) && out == None && e' == e
  }

  ghost predicate Step(s: Net, ev: Event, s': Net) {
    ev.node in s.nodes && s'.nodes.Keys == s.nodes.Keys && (ev.Receive? ==> ev.msg in s.sent) &&
    (forall n :: n in s.nodes && n != ev.node ==> s'.nodes[n] == s.nodes[n]) &&
    WellFormed(s.nodes[ev.node].entry) &&
    exists out :: NodeStep(ev, s.nodes[ev.node], s'.nodes[ev.node], out) &&
                  s'.sent == if out.None? then s.sent else s.sent + {Msg(ev.node, out.value)}
  }

  predicate Init(s: Net) {
    s.sent == {} && forall n :: n in s.nodes ==> s.nodes[n].entry == EntryState([], map[], None, NoOut)
  }

  // a has selected b as its next hop, for a route of router-id rid.
  predicate Edge(s: Net, rid: RouterId, a: nat, b: nat) {
    a in s.nodes && b in s.nodes &&
    var e := s.nodes[a].entry;
    e.selIn.Some? && Has(e.routes, e.selIn) && e.selIn.value.node == b && RouteOf(e.routes, e.selIn).rid == rid
  }

  function After(cyc: seq<nat>, i: nat): nat
    requires i < |cyc|
  {
    if i + 1 < |cyc| then cyc[i + 1] else cyc[0]
  }

  predicate Cycle(s: Net, rid: RouterId, cyc: seq<nat>) {
    |cyc| > 0 && forall i :: 0 <= i < |cyc| ==> Edge(s, rid, cyc[i], After(cyc, i))
  }

  ghost predicate NoCycle(s: Net) {
    forall rid, cyc :: !Cycle(s, rid, cyc)
  }

  /* ---------- Invariants ---------- */

  // With `strict` for networks in which every link costs at least 1.
  predicate CostOk(strict: bool, ev: Event) {
    strict && ev.Receive? ==> ev.cost >= 1
  }

  predicate RouteOk(strict: bool, rid: RouterId, r: Route) {
    if r.neigh.None? then r.rid == rid else r.rid != rid && r.advert < INFINITY && if strict then r.metric > r.advert else r.metric >= r.advert
  }

  predicate RoutesOk(strict: bool, rid: RouterId, routes: seq<Route>) {
    forall i :: 0 <= i < |routes| ==> RouteOk(strict, rid, routes[i])
  }

  predicate ListOk(strict: bool, rid: RouterId, routes: seq<Route>) {
    OncePerNeighbour(routes) && RoutesOk(strict, rid, routes)
  }

  // The selected route is no worse than the node's own feasibility distance, or even better.
  predicate SelectedOk(strict: bool, e: EntryState)
    requires WellFormed(e)
  {
    e.selIn.Some? ==>
      var r := RouteOf(e.routes, e.selIn);
      r.rid in e.sources ==> if strict then Lt(r.Advertised(), e.sources[r.rid]) else Le(r.Advertised(), e.sources[r.rid])
  }

  // The selected route is strictly better than the feasibility distance.
  predicate StrictlyFeasible(e: EntryState)
    requires WellFormed(e) && e.selIn.Some?
  {
    var r := RouteOf(e.routes, e.selIn);
    r.rid in e.sources ==> Lt(r.Advertised(), e.sources[r.rid])
  }

  predicate BeforeNotify(strict: bool, rid: RouterId, e: EntryState) {
    WellFormed(e) && ListOk(strict, rid, e.routes) && SelectedOk(strict, e)
  }

  predicate EntryOk(strict: bool, rid: RouterId, e: EntryState) {
    BeforeNotify(strict, rid, e) && ExportOk(e)
  }

  // The node's feasibility distance for rid is no worse than d, unless it originates rid itself.
  predicate Covered(s: Net, n: nat, rid: RouterId, d: Dist) {
    n in s.nodes ==>
      s.nodes[n].self.rid == rid || (rid in s.nodes[n].entry.sources && Le(s.nodes[n].entry.sources[rid], d))
  }

  ghost predicate SentCovered(s: Net) {
    forall m :: m in s.sent && m.update.metric < INFINITY ==>
      Covered(s, m.sender, m.update.rid, Dist(m.update.seqno, m.update.metric))
  }

  predicate RoutesCovered(s: Net, routes: seq<Route>) {
    forall i :: 0 <= i < |routes| && routes[i].neigh.Some? ==>
      Covered(s, routes[i].neigh.value.node, routes[i].rid, routes[i].Advertised())
  }

  ghost predicate NodesOk(strict: bool, s: Net) {
    forall n :: n in s.nodes ==> EntryOk(strict, s.nodes[n].self.rid, s.nodes[n].entry) && RoutesCovered(s, s.nodes[n].entry.routes)
  }

  // FD(next hop) <= advertised distance <= own FD, for everything stored or in flight; the second
  // comparison is strict when links cost at least 1.
  ghost predicate Distances(strict: bool, s: Net) {
    NodesOk(strict, s) && SentCovered(s)
  }

  /* ---------- What one step does at the node that takes it ---------- */

  predicate SameRoute(r: Route, r': Route) {
    r'.neigh == r.neigh && r'.rid == r.rid && r'.seqno == r.seqno && r'.advert == r.advert
  }

  predicate CameFrom(routes: seq<Route>, r': Route) {
    exists i :: 0 <= i < |routes| && SameRoute(routes[i], r')
  }

  // Every route of a neighbour was there before.
  predicate NoNewRoutes(routes: seq<Route>, routes': seq<Route>) {
    forall i :: 0 <= i < |routes'| && routes'[i].neigh.Some? ==> CameFrom(routes, routes'[i])
  }

  predicate SourcesDecrease(a: Sources, b: Sources) {
    forall x :: x in a ==> x in b && Le(b[x], a[x])
  }

  // The selection is gone, is the same route as before, or is strictly feasible.
  predicate SelectionChange(e: EntryState, e': EntryState)
    requires WellFormed(e) && WellFormed(e')
  {
    e'.selIn.None? ||
    (e'.selIn == e.selIn && SameRoute(RouteOf(e.routes, e.selIn), RouteOf(e'.routes, e'.selIn))) ||
    StrictlyFeasible(e')
  }

  lemma NoNewRefl(routes: seq<Route>)
    ensures NoNewRoutes(routes, routes)
  {
    forall i | 0 <= i < |routes| ensures CameFrom(routes, routes[i]) {
      assert SameRoute(routes[i], routes[i]);
    }
  }

  lemma Replaced(strict: bool, rid: RouterId, routes: seq<Route>, k: Option<Neigh>, r: Route)
    requires ListOk(strict, rid, routes) && Has(routes, k) && r.neigh == k && RouteOk(strict, rid, r)
    ensures ListOk(strict, rid, routes[Find(routes, k) := r])
    ensures forall q :: Find(routes[Find(routes, k) := r], q) == Find(routes, q)
  {
    PutFind(routes, k, Find(routes, k), r);
  }

  lemma ReplacedSame(routes: seq<Route>, i: nat, r: Route)
    requires i < |routes| && (r.neigh.None? || SameRoute(routes[i], r))
    ensures NoNewRoutes(routes, routes[i := r])
  {
    var routes' := routes[i := r];
    forall j | 0 <= j < |routes'| && routes'[j].neigh.Some? ensures CameFrom(routes, routes'[j]) {
      assert SameRoute(routes[j], routes'[j]);
    }
  }

  lemma Appended(strict: bool, rid: RouterId, routes: seq<Route>, r: Route)
    requires ListOk(strict, rid, routes) && !Has(routes, r.neigh) && RouteOk(strict, rid, r)
    ensures ListOk(strict, rid, routes + [r])
    ensures forall q :: Has(routes, q) ==> Find(routes + [r], q) == Find(routes, q)
    ensures Find(routes + [r], r.neigh) == |routes|
  {
    AppendFind(routes, r);
  }

  lemma AppendedOurs(routes: seq<Route>, r: Route)
    requires r.neigh.None?
    ensures NoNewRoutes(routes, routes + [r])
  {
    forall j | 0 <= j < |routes| ensures CameFrom(routes, (routes + [r])[j]) {
      assert SameRoute(routes[j], (routes + [r])[j]);
    }
  }

  lemma Removed(strict: bool, rid: RouterId, routes: seq<Route>, k: Option<Neigh>)
    requires ListOk(strict, rid, routes) && Has(routes, k)
    ensures var i, routes' := Find(routes, k), routes[..Find(routes, k)] + routes[Find(routes, k) + 1..];
      ListOk(strict, rid, routes') && NoNewRoutes(routes, routes') &&
      forall q :: q != k && Has(routes, q) ==> Has(routes', q) && RouteOf(routes', q) == RouteOf(routes, q)
  {
    var i := Find(routes, k);
    var routes' := routes[..i] + routes[i + 1..];
    forall j | 0 <= j < |routes'| ensures RouteOk(strict, rid, routes'[j]) && CameFrom(routes, routes'[j]) {
      assert SameRoute(routes[if j < i then j else j + 1], routes'[j]);
    }
    forall q | q != k && Has(routes, q) ensures Has(routes', q) && RouteOf(routes', q) == RouteOf(routes, q) {
      FindIs(routes', q, if Find(routes, q) < i then Find(routes, q) else Find(routes, q) - 1);
    }
  }

  lemma NotifyOk(strict: bool, e: EntryState, self: Self, c: CoreChoice)
    requires BeforeNotify(strict, self.rid, e)
    ensures var e' := Notify(e, self, c);
      BeforeNotify(strict, self.rid, e') && (!c.Silent? ==> ExportOk(e')) &&
      e'.sources == e.sources && e'.selIn == e.selIn && NoNewRoutes(e.routes, e'.routes) &&
      (e.selIn.Some? ==> RouteOf(e'.routes, e.selIn) == RouteOf(e.routes, e.selIn))
  {
    hide ListOk, NoNewRoutes, Find;
    NoNewRefl(e.routes);
    NotifyRoutes(strict, e.routes, self);
  }

  // The two changes a notification may make to the list of routes.
  lemma NotifyRoutes(strict: bool, routes: seq<Route>, self: Self)
    requires ListOk(strict, self.rid, routes)
    ensures ListOk(strict, self.rid, PutOurs(routes, self)) && NoNewRoutes(routes, PutOurs(routes, self)) && Has(PutOurs(routes, self), None)
    ensures forall q :: q != None && Has(routes, q) ==>
      Has(PutOurs(routes, self), q) && RouteOf(PutOurs(routes, self), q) == RouteOf(routes, q)
    ensures Has(routes, None) ==>
      var routes' := routes[Find(routes, None) := RouteOf(routes, None).(metric := INFINITY)];
      ListOk(strict, self.rid, routes') && NoNewRoutes(routes, routes') && forall q :: Find(routes', q) == Find(routes, q)
  {
    hide NoNewRoutes, Find;
    if Has(routes, None) {
      var r := RouteOf(routes, None);
      Replaced(strict, self.rid, routes, None, r.(rid := self.rid, seqno := self.seqno, metric := 0));
      ReplacedSame(routes, Find(routes, None), r.(rid := self.rid, seqno := self.seqno, metric := 0));
      Replaced(strict, self.rid, routes, None, r.(metric := INFINITY));
      ReplacedSame(routes, Find(routes, None), r.(metric := INFINITY));
    } else {
      Appended(strict, self.rid, routes, Route(None, self.rid, self.seqno, 0, 0));
      AppendedOurs(routes, Route(None, self.rid, self.seqno, 0, 0));
    }
  }

  lemma SelectionOk(strict: bool, e: EntryState, self: Self, c: CoreChoice, e': EntryState)
    requires CoreFollows(c, e') && EntryOk(strict, self.rid, e) && Selected(e, self, c, e')
    ensures EntryOk(strict, self.rid, e') && e'.sources == e.sources && NoNewRoutes(e.routes, e'.routes) && SelectionChange(e, e')
  {
    hide Notify, RoutesOk;
    NoNewRefl(e.routes);
    if exists i :: 0 <= i < |e.routes| && Candidate(e, i) {
      var i :| 0 <= i < |e.routes| && BestCandidate(e, i) && e' == Notify(e.(selIn := e.routes[i].neigh), self, c);
      ChoiceOk(strict, e, self, i);
      NotifyOk(strict, e.(selIn := e.routes[i].neigh), self, c);
    } else if Limit(e) == INFINITY {
      NotifyOk(strict, e, self, c);
    }
  }

  // The first route found for the neighbour of the best candidate is that candidate.
  lemma ChoiceOk(strict: bool, e: EntryState, self: Self, i: nat)
    requires EntryOk(strict, self.rid, e) && i < |e.routes| && BestCandidate(e, i)
    ensures var f := e.(selIn := e.routes[i].neigh); BeforeNotify(strict, self.rid, f) && StrictlyFeasible(f)
  {
  }

  lemma StoredOk(strict: bool, e: EntryState, self: Self, n: Neigh, u: Update, cost: u16)
    requires (strict ==> cost >= 1) && EntryOk(strict, self.rid, e) && Stored(e, self, n, u, cost).Some?
    ensures var s := Stored(e, self, n, u, cost).value;
      EntryOk(strict, self.rid, s) && s.sources == e.sources && SelectionChange(e, s) && StoredRoutes(e.routes, s.routes, n, u)
  {
    hide StoredRoutes, Find, Feasible, ComputeMetric, RoutesOk, OncePerNeighbour;
    StoredProvenance(e, self, n, u, cost);
    StoredList(strict, e, self, n, u, cost);
    StoredSelection(strict, e, self, n, u, cost);
  }

  lemma StoredList(strict: bool, e: EntryState, self: Self, n: Neigh, u: Update, cost: u16)
    requires (strict ==> cost >= 1) && EntryOk(strict, self.rid, e) && Stored(e, self, n, u, cost).Some?
    ensures var s := Stored(e, self, n, u, cost).value;
      ListOk(strict, self.rid, s.routes) && WellFormed(s) && s.selIn == e.selIn && s.selOut == e.selOut && s.sources == e.sources
  {
    hide Find, Feasible, OncePerNeighbour;
    var r := Route(Some(n), u.rid, u.seqno, u.metric, ComputeMetric(cost, u.metric));
    if Has(e.routes, Some(n)) {
      Replaced(strict, self.rid, e.routes, Some(n), RouteOf(e.routes, Some(n)).(metric := INFINITY));
      if u.rid != self.rid && u.metric < INFINITY {
        Replaced(strict, self.rid, e.routes, Some(n), r);
      }
    } else {
      Appended(strict, self.rid, e.routes, r);
    }
  }

  // A selected route is replaced only by a strictly feasible one.
  lemma StoredSelection(strict: bool, e: EntryState, self: Self, n: Neigh, u: Update, cost: u16)
    requires (strict ==> cost >= 1) && EntryOk(strict, self.rid, e) && Stored(e, self, n, u, cost).Some?
    requires WellFormed(Stored(e, self, n, u, cost).value)
    ensures var s := Stored(e, self, n, u, cost).value; SelectionChange(e, s) && SelectedOk(strict, s)
  {
    hide RoutesOk, OncePerNeighbour, ComputeMetric;
    var r := Route(Some(n), u.rid, u.seqno, u.metric, ComputeMetric(cost, u.metric));
    var i := Find(e.routes, Some(n));
    hide Find;
    if i < |e.routes| {
      PutFind(e.routes, Some(n), i, e.routes[i].(metric := INFINITY));
      PutFind(e.routes, Some(n), i, r);
    } else {
      AppendFind(e.routes, r);
    }
  }

  // Every route of a neighbour was there before or is the one just received.
  predicate StoredRoutes(routes: seq<Route>, routes': seq<Route>, n: Neigh, u: Update) {
    forall i :: 0 <= i < |routes'| && routes'[i].neigh.Some? ==>
      CameFrom(routes, routes'[i]) ||
      (u.metric < INFINITY && SameRoute(Route(Some(n), u.rid, u.seqno, u.metric, 0), routes'[i]))
  }

  lemma StoredProvenance(e: EntryState, self: Self, n: Neigh, u: Update, cost: u16)
    requires Stored(e, self, n, u, cost).Some?
    ensures StoredRoutes(e.routes, Stored(e, self, n, u, cost).value.routes, n, u)
  {
    hide Feasible, ComputeMetric;
    var routes' := Stored(e, self, n, u, cost).value.routes;
    forall j | 0 <= j < |routes'| && routes'[j].neigh.Some?
      ensures CameFrom(e.routes, routes'[j]) ||
              (u.metric < INFINITY && SameRoute(Route(Some(n), u.rid, u.seqno, u.metric, 0), routes'[j]))
    {
      if j < |e.routes| && SameRoute(e.routes[j], routes'[j]) {
        assert CameFrom(e.routes, routes'[j]);
      }
    }
  }

  lemma FlushedOk(strict: bool, rid: RouterId, e: EntryState, k: Option<Neigh>)
    requires EntryOk(strict, rid, e) && Has(e.routes, k)
    ensures var e' := Flushed(e, k);
      EntryOk(strict, rid, e') && e'.sources == e.sources && NoNewRoutes(e.routes, e'.routes) && SelectionChange(e, e')
  {
    hide Find, ListOk, NoNewRoutes;
    Removed(strict, rid, e.routes, k);
  }

  lemma RetractedOk(strict: bool, rid: RouterId, e: EntryState, k: Option<Neigh>)
    requires EntryOk(strict, rid, e) && Has(e.routes, k)
    ensures var e' := Retracted(e, k);
      EntryOk(strict, rid, e') && e'.sources == e.sources && NoNewRoutes(e.routes, e'.routes) && SelectionChange(e, e')
  {
    hide Find, OncePerNeighbour, NoNewRoutes;
    Replaced(strict, rid, e.routes, k, RouteOf(e.routes, k).(metric := INFINITY));
    ReplacedSame(e.routes, Find(e.routes, k), RouteOf(e.routes, k).(metric := INFINITY));
  }

  // An update sent for a neighbour's route lowers the feasibility distance to it, and no further than
  // to what the selected route advertises.
  lemma SentOk(strict: bool, e: EntryState, self: Self, skip: bool)
    requires EntryOk(strict, self.rid, e)
    ensures var (e', out) := Sent(e, self, skip);
      EntryOk(strict, self.rid, e') && SourcesDecrease(e.sources, e'.sources) && NoNewRoutes(e.routes, e'.routes) &&
      SelectionChange(e, e') &&
      (out.Some? && out.value.rid != self.rid ==>
        out.value.rid in e'.sources && Le(e'.sources[out.value.rid], Dist(out.value.seqno, out.value.metric)))
  {
    NoNewRefl(e.routes);
    if e.selOut.Via? {
      RefreshedOk(strict, e, self);
    }
  }

  lemma RefreshedOk(strict: bool, e: EntryState, self: Self)
    requires EntryOk(strict, self.rid, e) && e.selOut.Via?
    ensures var f := Refreshed(e, self);
      EntryOk(strict, self.rid, f) && f.sources == e.sources && f.selIn == e.selIn && f.selOut == e.selOut &&
      NoNewRoutes(e.routes, f.routes) && (e.selIn.Some? ==> RouteOf(f.routes, e.selIn) == RouteOf(e.routes, e.selIn))
  {
    hide Find, OncePerNeighbour, NoNewRoutes;
    NoNewRefl(e.routes);
    var k := e.selOut.neigh;
    var r := RouteOf(e.routes, k);
    assert RouteOk(strict, self.rid, r);
    if r.rid == self.rid {
      Replaced(strict, self.rid, e.routes, k, r.(seqno := self.seqno));
      ReplacedSame(e.routes, Find(e.routes, k), r.(seqno := self.seqno));
    }
  }

  /* ---------- What one step does to the distances in the network ---------- */

  predicate NodeChange(e: EntryState, e': EntryState)
    requires WellFormed(e) && WellFormed(e')
  {
    SourcesDecrease(e.sources, e'.sources) && SelectionChange(e, e')
  }

  lemma SelectionChanges(e: EntryState, f: EntryState, g: EntryState)
    requires WellFormed(e) && WellFormed(f) && WellFormed(g) && f.sources == g.sources
    requires SelectionChange(e, f) && SelectionChange(f, g)
    ensures SelectionChange(e, g)
  {
  }

  lemma StoredThenKept(a: seq<Route>, b: seq<Route>, c: seq<Route>, n: Neigh, u: Update)
    requires StoredRoutes(a, b, n, u) && NoNewRoutes(b, c)
    ensures StoredRoutes(a, c, n, u)
  {
    forall i | 0 <= i < |c| && c[i].neigh.Some?
      ensures CameFrom(a, c[i]) || (u.metric < INFINITY && SameRoute(Route(Some(n), u.rid, u.seqno, u.metric, 0), c[i]))
    {
      assert CameFrom(b, c[i]);
      var j :| 0 <= j < |b| && SameRoute(b[j], c[i]);
      if CameFrom(a, b[j]) {
        var m :| 0 <= m < |a| && SameRoute(a[m], b[j]);
        assert SameRoute(a[m], c[i]);
      }
    }
  }

  lemma HandledOk(strict: bool, e: EntryState, self: Self, n: Neigh, u: Update, cost: u16, c: CoreChoice, e': EntryState)
    requires (strict ==> cost >= 1) && CoreFollows(c, e') && EntryOk(strict, self.rid, e) && Handled(e, self, n, u, cost, c, e')
    ensures EntryOk(strict, self.rid, e') && NodeChange(e, e') && StoredRoutes(e.routes, e'.routes, n, u)
  {
    hide Stored, Selected, ListOk, StoredRoutes, NoNewRoutes, SelectionChange, Find, SelectedOk, ExportOk;
    var f := Stored(e, self, n, u, cost);
    if f.Some? {
      StoredOk(strict, e, self, n, u, cost);
      SelectionOk(strict, f.value, self, c, e');
      SelectionChanges(e, f.value, e');
      StoredThenKept(e.routes, f.value.routes, e'.routes, n, u);
    } else {
      Unchanged(e, n, u);
    }
  }

  lemma Unchanged(e: EntryState, n: Neigh, u: Update)
    requires WellFormed(e)
    ensures SelectionChange(e, e) && StoredRoutes(e.routes, e.routes, n, u) && NoNewRoutes(e.routes, e.routes)
  {
    NoNewRefl(e.routes);
  }

  lemma NodeStepOk(strict: bool, ev: Event, st: NodeState, st': NodeState, out: Option<Update>)
    requires CostOk(strict, ev) && EntryOk(strict, st.self.rid, st.entry) && NodeStep(ev, st, st', out)
    ensures st'.self.rid == st.self.rid && EntryOk(strict, st'.self.rid, st'.entry) && NodeChange(st.entry, st'.entry)
    ensures if ev.Receive? then StoredRoutes(st.entry.routes, st'.entry.routes, ev.neigh, ev.msg.update)
            else NoNewRoutes(st.entry.routes, st'.entry.routes)
    ensures out.Some? && out.value.metric < INFINITY && out.value.rid != st.self.rid ==>
      out.value.rid in st'.entry.sources && Le(st'.entry.sources[out.value.rid], Dist(out.value.seqno, out.value.metric))
  {
    hide ListOk, StoredRoutes, NoNewRoutes, SelectionChange, Find, SelectedOk, ExportOk, Selected, Handled, Sent, Flushed,
      Retracted, Notify;
    var e, e', self := st.entry, st'.entry, st.self;
    Unchanged(e, Neigh(0, 0), Update(0, 0, 0));
    match ev
    case Receive(_, neigh, msg, cost, core) => HandledOk(strict, e, self, neigh, msg.update, cost, core, e');
    case Send(_, skip) => SentOk(strict, e, self, skip);
    case SendRetraction(_, _, _) =>
    case Expire(_, k) =>
      RetractedOk(strict, self.rid, e, k);
      FlushedOk(strict, self.rid, e, k);
    case Flush(_, k) => FlushedOk(strict, self.rid, e, k);
    case Select(_, core) => SelectionOk(strict, e, self, core, e');
    case CoreUpdate(_, core) => NotifyChange(strict, e, self, core);
    case NewSeqno(_) =>
  }

  lemma NotifyChange(strict: bool, e: EntryState, self: Self, c: CoreChoice)
    requires EntryOk(strict, self.rid, e) && CoreFollows(c, Notify(e, self, c))
    ensures var e' := Notify(e, self, c);
      EntryOk(strict, self.rid, e') && NodeChange(e, e') && NoNewRoutes(e.routes, e'.routes)
  {
    hide Notify, ListOk;
    NotifyOk(strict, e, self, c);
  }

  // Same nodes, and feasibility distances have not grown.
  ghost predicate Later(s: Net, s': Net) {
    s'.nodes.Keys == s.nodes.Keys &&
    forall n :: n in s.nodes ==>
      s'.nodes[n].self.rid == s.nodes[n].self.rid && SourcesDecrease(s.nodes[n].entry.sources, s'.nodes[n].entry.sources)
  }

  lemma CoveredLater(s: Net, s': Net, n: nat, rid: RouterId, d: Dist)
    requires Later(s, s') && Covered(s, n, rid, d)
    ensures Covered(s', n, rid, d)
  {
  }

  lemma RoutesLater(s: Net, s': Net, routes: seq<Route>)
    requires Later(s, s') && RoutesCovered(s, routes)
    ensures RoutesCovered(s', routes)
  {
    hide Covered, Later;
    forall i | 0 <= i < |routes| && routes[i].neigh.Some?
      ensures Covered(s', routes[i].neigh.value.node, routes[i].rid, routes[i].Advertised())
    {
      CoveredLater(s, s', routes[i].neigh.value.node, routes[i].rid, routes[i].Advertised());
    }
  }

  lemma KeptCovered(s: Net, routes: seq<Route>, routes': seq<Route>)
    requires RoutesCovered(s, routes) && NoNewRoutes(routes, routes')
    ensures RoutesCovered(s, routes')
  {
    hide Covered;
    forall i | 0 <= i < |routes'| && routes'[i].neigh.Some?
      ensures Covered(s, routes'[i].neigh.value.node, routes'[i].rid, routes'[i].Advertised())
    {
      assert CameFrom(routes, routes'[i]);
    }
  }

  lemma ReceivedCovered(s: Net, routes: seq<Route>, routes': seq<Route>, n: Neigh, u: Update)
    requires RoutesCovered(s, routes) && StoredRoutes(routes, routes', n, u)
    requires u.metric < INFINITY ==> Covered(s, n.node, u.rid, Dist(u.seqno, u.metric))
    ensures RoutesCovered(s, routes')
  {
    hide Covered;
    forall i | 0 <= i < |routes'| && routes'[i].neigh.Some?
      ensures Covered(s, routes'[i].neigh.value.node, routes'[i].rid, routes'[i].Advertised())
    {
      if CameFrom(routes, routes'[i]) {
        var j :| 0 <= j < |routes| && SameRoute(routes[j], routes'[i]);
      }
    }
  }

  lemma StepLater(strict: bool, s: Net, ev: Event, s': Net)
    requires CostOk(strict, ev) && Distances(strict, s) && Step(s, ev, s')
    ensures Later(s, s') && EntryOk(strict, s'.nodes[ev.node].self.rid, s'.nodes[ev.node].entry)
    ensures NodeChange(s.nodes[ev.node].entry, s'.nodes[ev.node].entry)
  {
    hide EntryOk, NodeStep, RoutesCovered, SelectionChange, Le;
    var out :| NodeStep(ev, s.nodes[ev.node], s'.nodes[ev.node], out);
    NodeStepOk(strict, ev, s.nodes[ev.node], s'.nodes[ev.node], out);
    LeRefl();
  }

  lemma LeRefl()
    ensures forall d :: Le(d, d)
  {
  }

  // FD(next hop) <= advertised distance <= own FD is kept by every step.
  lemma DistancesStep(strict: bool, s: Net, ev: Event, s': Net)
    requires CostOk(strict, ev) && Distances(strict, s) && Step(s, ev, s')
    ensures Distances(strict, s')
  {
    StepLater(strict, s, ev, s');
    NodesStep(strict, s, ev, s');
    SentStep(strict, s, ev, s');
  }

  lemma SentStep(strict: bool, s: Net, ev: Event, s': Net)
    requires CostOk(strict, ev) && Distances(strict, s) && Step(s, ev, s') && Later(s, s')
    ensures SentCovered(s')
  {
    hide EntryOk, NodeStep, RoutesCovered, Later;
    var st, st' := s.nodes[ev.node], s'.nodes[ev.node];
    var out :| NodeStep(ev, st, st', out) && s'.sent == if out.None? then s.sent else s.sent + {Msg(ev.node, out.value)};
    NodeStepOk(strict, ev, st, st', out);
    forall m | m in s'.sent && m.update.metric < INFINITY
      ensures Covered(s', m.sender, m.update.rid, Dist(m.update.seqno, m.update.metric))
    {
      if m in s.sent {
        CoveredLater(s, s', m.sender, m.update.rid, Dist(m.update.seqno, m.update.metric));
      }
    }
  }

  lemma NodesStep(strict: bool, s: Net, ev: Event, s': Net)
    requires CostOk(strict, ev) && Distances(strict, s) && Step(s, ev, s') && Later(s, s')
    ensures NodesOk(strict, s')
  {
    hide EntryOk, NodeStep, RoutesCovered, Later, Covered, StoredRoutes, NoNewRoutes;
    var st, st' := s.nodes[ev.node], s'.nodes[ev.node];
    var out :| NodeStep(ev, st, st', out);
    NodeStepOk(strict, ev, st, st', out);
    if ev.Receive? {
      SenderIs(ev, st, st', out);
      ReceivedCovered(s, st.entry.routes, st'.entry.routes, ev.neigh, ev.msg.update);
    } else {
      KeptCovered(s, st.entry.routes, st'.entry.routes);
    }
    forall n | n in s'.nodes ensures EntryOk(strict, s'.nodes[n].self.rid, s'.nodes[n].entry) && RoutesCovered(s', s'.nodes[n].entry.routes) {
      RoutesLater(s, s', s'.nodes[n].entry.routes);
    }
  }

  lemma SenderIs(ev: Event, st: NodeState, st': NodeState, out: Option<Update>)
    requires WellFormed(st.entry) && ev.Receive? && NodeStep(ev, st, st', out)
    ensures ev.neigh.node == ev.msg.sender
  {
  }

  /* ---------- Loop freedom ---------- */

  function SourcesOf(s: Net, n: nat): Sources {
    if n in s.nodes then s.nodes[n].entry.sources else map[]
  }

  predicate HasFd(s: Net, n: nat, rid: RouterId) {
    rid in SourcesOf(s, n)
  }

  function Fd(s: Net, n: nat, rid: RouterId): Dist {
    if HasFd(s, n, rid) then SourcesOf(s, n)[rid] else Dist(0, INFINITY)
  }

  // Along an edge the feasibility distance does not grow; a node with an edge does not originate rid.
  lemma EdgeDown(strict: bool, s: Net, rid: RouterId, a: nat, b: nat)
    requires Distances(strict, s) && Edge(s, rid, a, b)
    ensures s.nodes[a].self.rid != rid
    ensures s.nodes[b].self.rid == rid || (HasFd(s, b, rid) && (HasFd(s, a, rid) ==> Le(Fd(s, b, rid), Fd(s, a, rid))))
    ensures s.nodes[b].self.rid != rid && HasFd(s, a, rid) && StrictlyFeasible(s.nodes[a].entry) ==>
      Lt(Fd(s, b, rid), Fd(s, a, rid))
  {
    var e := s.nodes[a].entry;
    var r := RouteOf(e.routes, e.selIn);
    assert EntryOk(strict, s.nodes[a].self.rid, e) && RoutesCovered(s, e.routes);
    assert Covered(s, b, rid, r.Advertised());
    assert RouteOk(strict, s.nodes[a].self.rid, r);
  }

  lemma EdgeEnds(s: Net, rid: RouterId, a: nat, b: nat)
    requires Edge(s, rid, a, b)
    ensures a in s.nodes && b in s.nodes
  {
  }

  // Around a cycle every node has a feasibility distance.
  lemma CycleHasFd(strict: bool, s: Net, rid: RouterId, cyc: seq<nat>, i: nat)
    requires Distances(strict, s) && Cycle(s, rid, cyc) && i < |cyc|
    ensures HasFd(s, cyc[i], rid) && Le(Fd(s, After(cyc, i), rid), Fd(s, cyc[i], rid))
    ensures cyc[i] in s.nodes && After(cyc, i) in s.nodes && s.nodes[After(cyc, i)].self.rid != rid
  {
    hide Distances, Fd, HasFd, Edge, Le, Lt, StrictlyFeasible;
    LeRefl();
    var prev := if i == 0 then |cyc| - 1 else i - 1;
    var next := if i + 1 < |cyc| then i + 1 else 0;
    assert Edge(s, rid, cyc[prev], After(cyc, prev)) && Edge(s, rid, cyc[i], After(cyc, i)) && Edge(s, rid, cyc[next], After(cyc, next));
    EdgeEnds(s, rid, cyc[prev], After(cyc, prev));
    EdgeEnds(s, rid, cyc[i], After(cyc, i));
    EdgeEnds(s, rid, cyc[next], After(cyc, next));
    EdgeDown(strict, s, rid, cyc[prev], After(cyc, prev));
    EdgeDown(strict, s, rid, cyc[i], After(cyc, i));
    EdgeDown(strict, s, rid, cyc[next], After(cyc, next));
  }

  lemma {:induction false} FdDown(strict: bool, s: Net, rid: RouterId, cyc: seq<nat>, i: nat, j: nat)
    requires Distances(strict, s) && Cycle(s, rid, cyc) && i <= j < |cyc|
    ensures Le(Fd(s, cyc[j], rid), Fd(s, cyc[i], rid))
    decreases j - i
  {
    hide Distances, Cycle, Fd;
    if i < j {
      CycleHasFd(strict, s, rid, cyc, i);
      FdDown(strict, s, rid, cyc, i + 1, j);
    }
  }

  // Going once around, no node's distance is larger than any other's.
  lemma FdAround(strict: bool, s: Net, rid: RouterId, cyc: seq<nat>, i: nat)
    requires Distances(strict, s) && Cycle(s, rid, cyc) && i < |cyc|
    ensures Le(Fd(s, cyc[i], rid), Fd(s, After(cyc, i), rid))
  {
    hide Distances, Cycle, Fd;
    if i + 1 < |cyc| {
      FdDown(strict, s, rid, cyc, 0, i);
      FdDown(strict, s, rid, cyc, i + 1, |cyc| - 1);
      CycleHasFd(strict, s, rid, cyc, |cyc| - 1);
    } else {
      FdDown(strict, s, rid, cyc, 0, i);
    }
  }

  // A node whose selection is strictly feasible is on no cycle.
  lemma StrictOnNoCycle(strict: bool, s: Net, rid: RouterId, cyc: seq<nat>, k: nat)
    requires Distances(strict, s) && k < |cyc| && cyc[k] in s.nodes && WellFormed(s.nodes[cyc[k]].entry)
    requires s.nodes[cyc[k]].entry.selIn.Some? && StrictlyFeasible(s.nodes[cyc[k]].entry)
    ensures !Cycle(s, rid, cyc)
  {
    hide Distances, Fd, StrictlyFeasible, HasFd;
    if Cycle(s, rid, cyc) {
      FdAround(strict, s, rid, cyc, k);
      CycleHasFd(strict, s, rid, cyc, k);
      assert Edge(s, rid, cyc[k], After(cyc, k));
      EdgeDown(strict, s, rid, cyc[k], After(cyc, k));
    }
  }

  // A step adds edges only at the node that takes it, and only strictly feasible ones.
  lemma NewEdge(strict: bool, s: Net, ev: Event, s': Net, rid: RouterId, a: nat, b: nat)
    requires CostOk(strict, ev) && Distances(strict, s) && Step(s, ev, s') && Edge(s', rid, a, b) && !Edge(s, rid, a, b)
    ensures a == ev.node && WellFormed(s'.nodes[a].entry) && StrictlyFeasible(s'.nodes[a].entry)
  {
    StepLater(strict, s, ev, s');
    hide Distances, NodeStep, StrictlyFeasible, SourcesDecrease, Later, ListOk;
  }

  lemma NoCycleStep(strict: bool, s: Net, ev: Event, s': Net)
    requires CostOk(strict, ev) && Distances(strict, s) && NoCycle(s) && Step(s, ev, s')
    ensures NoCycle(s')
  {
    hide Step, Distances, StrictlyFeasible;
    DistancesStep(strict, s, ev, s');
    forall rid, cyc ensures !Cycle(s', rid, cyc) {
      if k: nat :| k < |cyc| && Edge(s', rid, cyc[k], After(cyc, k)) && !Edge(s, rid, cyc[k], After(cyc, k)) {
        NewEdge(strict, s, ev, s', rid, cyc[k], After(cyc, k));
        StrictOnNoCycle(strict, s', rid, cyc, k);
      } else {
        assert !Cycle(s, rid, cyc);
      }
    }
  }

  // A usable update of finite metric that reaches a node without a selection gives it one.
  lemma HeardIsSelected(s: Net, ev: Event, s': Net)
    requires Step(s, ev, s') && ev.Receive?
    requires var st, u := s.nodes[ev.node], ev.msg.update;
      u.rid != st.self.rid && u.metric + ev.cost < INFINITY && Better(st.entry.sources, u.rid, u.seqno, u.metric) && st.entry.selIn.None?
    ensures s'.nodes[ev.node].entry.selIn.Some?
    ensures RouteFor(s'.nodes[ev.node].entry.routes, Some(ev.neigh)) == Some(Heard(ev.neigh, ev.msg.update, ev.cost))
  {
    hide Handled, Find, Has, Better, Heard, OthersSame;
    var st, st' := s.nodes[ev.node], s'.nodes[ev.node];
    HandledMeans(st.entry, st.self, ev.neigh, ev.msg.update, ev.cost, ev.core, st'.entry);
  }

  // A run: every state follows from the one before by some event.
  ghost predicate Run(states: seq<Net>, events: seq<Event>) {
    |states| == |events| + 1 && Init(states[0]) && forall i :: 0 <= i < |events| ==> Step(states[i], events[i], states[i + 1])
  }

  lemma InitSafe(strict: bool, s: Net)
    requires Init(s)
    ensures Distances(strict, s) && NoCycle(s)
  {
    forall rid, cyc ensures !Cycle(s, rid, cyc) {
      if |cyc| > 0 {
        assert !Edge(s, rid, cyc[0], After(cyc, 0));
      }
    }
  }

  lemma {:induction false} RunSafe(strict: bool, states: seq<Net>, events: seq<Event>, k: nat)
    requires Run(states, events) && k < |states| && forall i :: 0 <= i < |events| ==> CostOk(strict, events[i])
    ensures Distances(strict, states[k]) && NoCycle(states[k])
  {
    hide Step, Distances, NoCycle, Init;
    if k == 0 {
      InitSafe(strict, states[0]);
    } else {
      RunSafe(strict, states, events, k - 1);
      DistancesStep(strict, states[k - 1], events[k - 1], states[k]);
      NoCycleStep(strict, states[k - 1], events[k - 1], states[k]);
    }
  }

  // In every state of every run the distances do not grow along next hops and no cycle has one router-id.
  lemma LoopFree(states: seq<Net>, events: seq<Event>, k: nat)
    requires Run(states, events) && k < |states|
    ensures Distances(false, states[k]) && NoCycle(states[k])
  {
    RunSafe(false, states, events, k);
  }

  // With links that cost at least 1, FD(next hop) <= stored advertised distance < own FD along every
  // next hop that does not originate the router-id itself, in every state of every run.
  lemma StrictDecrease(states: seq<Net>, events: seq<Event>, k: nat, rid: RouterId, a: nat, b: nat)
    requires Run(states, events) && k < |states| && forall i :: 0 <= i < |events| ==> CostOk(true, events[i])
    requires Edge(states[k], rid, a, b) && states[k].nodes[b].self.rid != rid
    ensures var e := states[k].nodes[a].entry;
      var d := RouteOf(e.routes, e.selIn).Advertised();
      HasFd(states[k], b, rid) && Le(Fd(states[k], b, rid), d) && (HasFd(states[k], a, rid) ==> Lt(d, Fd(states[k], a, rid)))
  {
    RunSafe(true, states, events, k);
    var e := states[k].nodes[a].entry;
    assert EntryOk(true, states[k].nodes[a].self.rid, e) && RoutesCovered(states[k], e.routes);
    assert Covered(states[k], b, rid, RouteOf(e.routes, e.selIn).Advertised());
  }

  lemma FirstHeard(cost: u16)
    requires cost < INFINITY
    ensures var heard := Route(Some(Neigh(1, 0)), 1, 0, 0, cost);
      Handled(EntryState([], map[], None, NoOut), Self(2, 0), Neigh(1, 0), Update(1, 0, 0), cost, Own,
              EntryState([heard], map[], Some(Neigh(1, 0)), Via(Some(Neigh(1, 0)))))
  {
    var none := EntryState([], map[], None, NoOut);
    var heard := Route(Some(Neigh(1, 0)), 1, 0, 0, cost);
    var stored := EntryState([heard], map[], None, NoOut);
    assert none.routes + [heard] == [heard];
    assert Stored(none, Self(2, 0), Neigh(1, 0), Update(1, 0, 0), cost) == Some(stored);
    assert Candidate(stored, 0) && BestCandidate(stored, 0);
  }

  lemma FirstOwn()
    ensures Notify(EntryState([], map[], None, NoOut), Self(1, 0), Foreign) == EntryState([Route(None, 1, 0, 0, 0)], map[], None, Via(None))
    ensures Sent(EntryState([Route(None, 1, 0, 0, 0)], map[], None, Via(None)), Self(1, 0), false) ==
      (EntryState([Route(None, 1, 0, 0, 0)], map[], None, Via(None)), Some(Update(1, 0, 0)))
  {
    assert [] + [Route(None, 1, 0, 0, 0)] == [Route(None, 1, 0, 0, 0)];
  }

  // What a handler makes of one node is a step of the network.
  function Stepped(s: Net, n: nat, st': NodeState, out: Option<Update>): Net {
    Net(s.nodes[n := st'], if out.None? then s.sent else s.sent + {Msg(n, out.value)})
  }

  lemma HandlersStep(s: Net, ev: Event, st': NodeState, out: Option<Update>)
    requires ev.node in s.nodes && WellFormed(s.nodes[ev.node].entry) && (ev.Receive? ==> ev.msg in s.sent)
    requires NodeStep(ev, s.nodes[ev.node], st', out)
    ensures Step(s, ev, Stepped(s, ev.node, st', out))
  {
    hide NodeStep;
    var s' := Stepped(s, ev.node, st', out);
    assert s'.nodes[ev.node] == st';
  }

  // Two nodes: at first silent, then node 1 originates the prefix, says so, and node 2 has heard it.
  const SILENT := EntryState([], map[], None, NoOut)
  const ORIGIN := EntryState([Route(None, 1, 0, 0, 0)], map[], None, Via(None))

  function Learnt(cost: u16): EntryState {
    EntryState([Route(Some(Neigh(1, 0)), 1, 0, 0, cost)], map[], Some(Neigh(1, 0)), Via(Some(Neigh(1, 0))))
  }

  function TwoNodes(a: EntryState, b: EntryState, sent: set<Msg>): Net {
    Net(map[1 := NodeState(Self(1, 0), a), 2 := NodeState(Self(2, 0), b)], sent)
  }

  const SAID := Msg(1, Update(1, 0, 0))

  lemma Originates()
    ensures Step(TwoNodes(SILENT, SILENT, {}), CoreUpdate(1, Foreign), TwoNodes(ORIGIN, SILENT, {}))
  {
    var s, n := TwoNodes(SILENT, SILENT, {}), NodeState(Self(1, 0), ORIGIN);
    FirstOwn();
    hide Step, Notify;
    HandlersStep(s, CoreUpdate(1, Foreign), n, None);
    assert Stepped(s, 1, n, None) == TwoNodes(ORIGIN, SILENT, {});
  }

  lemma Says()
    ensures Step(TwoNodes(ORIGIN, SILENT, {}), Send(1, false), TwoNodes(ORIGIN, SILENT, {SAID}))
  {
    var s, n := TwoNodes(ORIGIN, SILENT, {}), NodeState(Self(1, 0), ORIGIN);
    FirstOwn();
    hide Step, Sent;
    HandlersStep(s, Send(1, false), n, Some(SAID.update));
    assert Stepped(s, 1, n, Some(SAID.update)) == TwoNodes(ORIGIN, SILENT, {SAID});
  }

  lemma Hears(cost: u16)
    requires cost < INFINITY
    ensures Step(TwoNodes(ORIGIN, SILENT, {SAID}), Receive(2, Neigh(1, 0), SAID, cost, Own), TwoNodes(ORIGIN, Learnt(cost), {SAID}))
  {
    var s, n := TwoNodes(ORIGIN, SILENT, {SAID}), NodeState(Self(2, 0), Learnt(cost));
    FirstHeard(cost);
    hide Step, Handled;
    HandlersStep(s, Receive(2, Neigh(1, 0), SAID, cost, Own), n, None);
    assert Stepped(s, 2, n, None) == TwoNodes(ORIGIN, Learnt(cost), {SAID});
  }

  // Runs do bring routes about: node 1 originates the prefix and says so, node 2 selects it as its
  // next hop.
  lemma RouteSpreads(cost: u16) returns (states: seq<Net>, events: seq<Event>)
    requires cost < INFINITY
    ensures Run(states, events) && states[|events|].nodes.Keys == {1, 2} && Edge(states[|events|], 1, 2, 1)
  {
    hide Step;
    Originates();
    Says();
    Hears(cost);
    states := [TwoNodes(SILENT, SILENT, {}), TwoNodes(ORIGIN, SILENT, {}), TwoNodes(ORIGIN, SILENT, {SAID}), TwoNodes(ORIGIN, Learnt(cost), {SAID})];
    events := [CoreUpdate(1, Foreign), Send(1, false), Receive(2, Neigh(1, 0), SAID, cost, Own)];
    EdgeThere(cost);
    hide TwoNodes;
  }

  lemma EdgeThere(cost: u16)
    ensures Edge(TwoNodes(ORIGIN, Learnt(cost), {SAID}), 1, 2, 1) && Init(TwoNodes(SILENT, SILENT, {}))
    ensures TwoNodes(ORIGIN, Learnt(cost), {SAID}).nodes.Keys == {1, 2}
  {
  }
}
