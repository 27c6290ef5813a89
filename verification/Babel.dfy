/**
 * Route selection of one Babel node for one prefix (proto/babel/babel.c; RFC 6126, section 3.5).
 *
 * Entry is the babel_entry of the prefix with its methods; each method is specified by a relation
 * or function on EntryState, on which BabelNet.dfy proves loop freedom.
 */
module Babel {

  import opened Options
  import opened Numbers

  // BABEL_INFINITY
  const INFINITY: u16 := 0xFFFF

  type RouterId = nat

  // A neighbour is another node seen over one link.
  datatype Neigh = Neigh(node: nat, link: nat)

  // What feasibility compares: a later seqno is better, then a smaller metric.
  datatype Dist = Dist(seqno: u16, metric: u16)

  predicate Lt(a: Dist, b: Dist) {
    a.seqno > b.seqno || (a.seqno == b.seqno && a.metric < b.metric)
  }

  predicate Le(a: Dist, b: Dist) {
    a == b || Lt(a, b)
  }

  // neigh is None for the route this node originates itself.
  datatype Route = Route(neigh: Option<Neigh>, rid: RouterId, seqno: u16, advert: u16, metric: u16)
  {
    function Advertised(): Dist {
      Dist(seqno, advert)
    }
  }

  // selected_out: null, or the route with the given neighbour
  datatype Out = NoOut | Via(neigh: Option<Neigh>)

  type Sources = map<RouterId, Dist>

  datatype EntryState = EntryState(routes: seq<Route>, sources: Sources, selIn: Option<Neigh>, selOut: Out)

  // The node: its own router-id and sequence number.
  datatype Self = Self(rid: RouterId, seqno: u16)

  datatype Update = Update(rid: RouterId, seqno: u16, metric: u16)

  /* ---------- Specification of the operations ---------- */

  function FindFrom(routes: seq<Route>, k: Option<Neigh>, i: nat): (r: nat)
    requires i <= |routes|
    ensures i <= r <= |routes| && (r < |routes| ==> routes[r].neigh == k)
    ensures forall j :: i <= j < r ==> routes[j].neigh != k
    decreases |routes| - i
  {
    if i == |routes| || routes[i].neigh == k then i else FindFrom(routes, k, i + 1)
  }

  // Index of the route of a neighbour, or the length of the list.
  function Find(routes: seq<Route>, k: Option<Neigh>): (r: nat)
    ensures r <= |routes| && (r < |routes| ==> routes[r].neigh == k)
    ensures forall j :: 0 <= j < r ==> routes[j].neigh != k
  {
    FindFrom(routes, k, 0)
  }

  predicate Has(routes: seq<Route>, k: Option<Neigh>) {
    Find(routes, k) < |routes|
  }

  function RouteOf(routes: seq<Route>, k: Option<Neigh>): Route
    requires Has(routes, k)
  {
    routes[Find(routes, k)]
  }

  // babel_is_feasible
  predicate Feasible(sources: Sources, rid: RouterId, seqno: u16, metric: u16) {
    rid !in sources || metric == INFINITY || Lt(Dist(seqno, metric), sources[rid])
  }

  // babel_compute_metric
  function ComputeMetric(cost: u16, metric: u16): u16 {
    if metric + cost < INFINITY then metric + cost else INFINITY
  }

  predicate WellFormed(e: EntryState) {
    (e.selIn.Some? ==> Has(e.routes, e.selIn)) && (e.selOut.Via? ==> Has(e.routes, e.selOut.neigh))
  }

  // What a new choice has to beat.
  function Limit(e: EntryState): u16
    requires WellFormed(e)
  {
    if e.selIn.None? then INFINITY else RouteOf(e.routes, e.selIn).metric
  }

  // Routes of neighbours that are feasible now.
  predicate Eligible(e: EntryState, i: nat)
    requires i < |e.routes|
  {
    var r := e.routes[i];
    r.neigh.Some? && Feasible(e.sources, r.rid, r.seqno, r.advert)
  }

  predicate Candidate(e: EntryState, i: nat)
    requires WellFormed(e) && i < |e.routes|
  {
    Eligible(e, i) && e.routes[i].metric < Limit(e)
  }

  // The first of the candidates with the smallest metric.
  predicate BestCandidate(e: EntryState, i: nat)
    requires WellFormed(e) && i < |e.routes|
  {
    Candidate(e, i) &&
    forall j :: 0 <= j < |e.routes| && Candidate(e, j) ==>
      e.routes[i].metric <= e.routes[j].metric && (j < i ==> e.routes[i].metric < e.routes[j].metric)
  }

  // What the core calls back with: nothing, our route is the best, another protocol's is, or none is exported.
  datatype CoreChoice = Silent | Own | Foreign | Withdraw

  // babel_rt_notify, if the core calls it
  function Notify(e: EntryState, self: Self, c: CoreChoice): EntryState {
    match c
    case Silent => e
    case Own => e.(selOut := if e.selIn.None? then NoOut else Via(e.selIn))
    case Foreign => e.(routes := PutOurs(e.routes, self), selOut := Via(None))
    case Withdraw =>
      if e.selOut == Via(None) && Has(e.routes, None) then
        e.(routes := e.routes[Find(e.routes, None) := RouteOf(e.routes, None).(metric := INFINITY)])
      else e.(selOut := NoOut)
  }

  function PutOurs(routes: seq<Route>, self: Self): seq<Route> {
    if Has(routes, None) then
      routes[Find(routes, None) := RouteOf(routes, None).(rid := self.rid, seqno := self.seqno, metric := 0)]
    else routes + [Route(None, self.rid, self.seqno, 0, 0)]
  }

  // babel_select_route
  predicate Selected(e: EntryState, self: Self, c: CoreChoice, e': EntryState)
    requires WellFormed(e)
  {
    if exists i :: 0 <= i < |e.routes| && Candidate(e, i) then
      exists i :: 0 <= i < |e.routes| && BestCandidate(e, i) && e' == Notify(e.(selIn := e.routes[i].neigh), self, c)
    else if Limit(e) < INFINITY then e' == e
    else e' == Notify(e, self, c).(selIn := None)
  }

  // The route's metric becomes infinite.
  function Retracted(e: EntryState, k: Option<Neigh>): EntryState
    requires Has(e.routes, k)
  {
    e.(routes := e.routes[Find(e.routes, k) := RouteOf(e.routes, k).(metric := INFINITY)])
  }

  // babel_handle_update before the selection; None when the update is ignored
  function Stored(e: EntryState, self: Self, n: Neigh, u: Update, cost: u16): Option<EntryState> {
    var k := Some(n);
    if u.rid == self.rid then None
    else if u.metric == INFINITY then
      if Has(e.routes, k) then Some(Retracted(e, k)) else None
    else
      var feasible := Feasible(e.sources, u.rid, u.seqno, u.metric);
      var r := Route(k, u.rid, u.seqno, u.metric, ComputeMetric(cost, u.metric));
      if !Has(e.routes, k) then
        if feasible then Some(e.(routes := e.routes + [r])) else None
      else if e.selIn == k && !feasible then
        if u.rid == RouteOf(e.routes, k).rid then None else Some(Retracted(e, k))
      else Some(e.(routes := e.routes[Find(e.routes, k) := r]))
  }

  predicate Handled(e: EntryState, self: Self, n: Neigh, u: Update, cost: u16, c: CoreChoice, e': EntryState)
    requires WellFormed(e)
  {
    match Stored(e, self, n, u, cost)
    case None => e' == e
    case Some(s) => WellFormed(s) && Selected(s, self, c, e')
  }

  // babel_flush_route
  function Flushed(e: EntryState, k: Option<Neigh>): EntryState
    requires Has(e.routes, k)
  {
    var i := Find(e.routes, k);
    EntryState(e.routes[..i] + e.routes[i + 1..], e.sources, if k.Some? && e.selIn == k then None else e.selIn,
               if e.selOut == Via(k) then NoOut else e.selOut)
  }

  // babel_expire_route
  function Expired(e: EntryState, k: Option<Neigh>): EntryState
    requires Has(e.routes, k)
  {
    if RouteOf(e.routes, k).metric < INFINITY then Retracted(e, k) else Flushed(e, k)
  }

  // The exported route with its sequence number brought up to date, if it is our own.
  function Refreshed(e: EntryState, self: Self): EntryState
    requires e.selOut.Via? && Has(e.routes, e.selOut.neigh)
  {
    var r := RouteOf(e.routes, e.selOut.neigh);
    if r.rid == self.rid && r.seqno < self.seqno then
      e.(routes := e.routes[Find(e.routes, e.selOut.neigh) := r.(seqno := self.seqno)])
    else e
  }

  // The feasibility distance after advertising d for rid.
  function Advertise(sources: Sources, rid: RouterId, d: Dist): Sources {
    var was := if rid in sources then sources[rid] else Dist(0, INFINITY);
    sources[rid := if Lt(d, was) then d else was]
  }

  // babel_send_update for this prefix; the update is skipped when nothing changed since `changed`
  function Sent(e: EntryState, self: Self, skip: bool): (EntryState, Option<Update>) {
    if e.selOut.NoOut? || !Has(e.routes, e.selOut.neigh) then (e, None)
    else
      var f := Refreshed(e, self);
      if skip || !Has(f.routes, f.selOut.neigh) then (f, None)
      else
        var r := RouteOf(f.routes, f.selOut.neigh);
        var u := Update(r.rid, r.seqno, r.metric);
        if r.neigh.None? then (f, Some(u))
        else (f.(sources := Advertise(f.sources, r.rid, Dist(r.seqno, r.metric))), Some(u))
  }

  /* ---------- What the operations do to the fields ---------- */

  function RouteFor(routes: seq<Route>, k: Option<Neigh>): Option<Route> {
    if Has(routes, k) then Some(RouteOf(routes, k)) else None
  }

  // The routes of all neighbours but those excepted are as they were.
  ghost predicate OthersSame(was: seq<Route>, now: seq<Route>, except: set<Option<Neigh>>) {
    forall k: Option<Neigh> :: k.Some? && k !in except ==> RouteFor(now, k) == RouteFor(was, k)
  }

  // The feasibility condition of RFC 6126, section 3.5.1: nothing is known of the source, or the
  // distance is strictly better than what was advertised.
  predicate Better(sources: Sources, rid: RouterId, seqno: int, metric: int) {
    rid in sources ==> seqno > sources[rid].seqno || (seqno == sources[rid].seqno && metric < sources[rid].metric)
  }

  // An update taken into account is the route of its neighbour, at the cost of the link.
  function Heard(n: Neigh, u: Update, cost: u16): Route {
    Route(Some(n), u.rid, u.seqno, u.metric, if u.metric + cost < 0xFFFF then u.metric + cost else 0xFFFF)
  }

  // Section 3.5.4 of RFC 6126: an update that may be used, or of a neighbour whose route is not the
  // selected one, replaces the route of the neighbour; a retraction makes it infinite, as does an
  // unusable update of another source for the selected route; all others are ignored.
  ghost predicate UpdateEffect(was: EntryState, self: Self, n: Neigh, u: Update, cost: u16, now: EntryState) {
    var k := Some(n);
    var before, after := RouteFor(was.routes, k), RouteFor(now.routes, k);
    var usable := Better(was.sources, u.rid, u.seqno, u.metric);
    now.sources == was.sources && OthersSame(was.routes, now.routes, {k}) &&
    (u.rid == self.rid ==> now == was) &&
    (u.rid != self.rid && u.metric == 0xFFFF && before.None? ==> now == was) &&
    (u.rid != self.rid && u.metric == 0xFFFF && before.Some? ==> after == Some(before.value.(metric := 0xFFFF))) &&
    (u.rid != self.rid && u.metric < 0xFFFF && usable ==> after == Some(Heard(n, u, cost))) &&
    (u.rid != self.rid && u.metric < 0xFFFF && !usable && before.None? ==> now == was) &&
    (u.rid != self.rid && u.metric < 0xFFFF && !usable && before.Some? && was.selIn != k ==> after == Some(Heard(n, u, cost))) &&
    (u.rid != self.rid && u.metric < 0xFFFF && !usable && before.Some? && was.selIn == k && before.value.rid == u.rid ==> now == was) &&
    (u.rid != self.rid && u.metric < 0xFFFF && !usable && before.Some? && was.selIn == k && before.value.rid != u.rid ==>
      after == Some(before.value.(metric := 0xFFFF))) &&
    // and without a selection a usable route is selected
    (u.rid != self.rid && u.metric + cost < 0xFFFF && usable && was.selIn.None? ==> now.selIn.Some?)
  }

  // Route i of a neighbour is usable and better than the selected one.
  predicate Offers(e: EntryState, i: int) {
    0 <= i < |e.routes| && e.routes[i].neigh.Some? &&
    (e.routes[i].advert == 0xFFFF || Better(e.sources, e.routes[i].rid, e.routes[i].seqno, e.routes[i].advert)) &&
    e.routes[i].metric < 0xFFFF && (e.selIn.Some? && Has(e.routes, e.selIn) ==> e.routes[i].metric < RouteOf(e.routes, e.selIn).metric)
  }

  // The best offer is selected; without one a selected route stays while it is finite.
  ghost predicate SelectionEffect(was: EntryState, c: CoreChoice, now: EntryState)
    requires WellFormed(was)
  {
    now.sources == was.sources && OthersSame(was.routes, now.routes, {}) &&
    ((exists i :: Offers(was, i)) ==>
      (exists i :: Offers(was, i) && now.selIn == was.routes[i].neigh && forall j :: Offers(was, j) ==> was.routes[i].metric <= was.routes[j].metric) &&
      (c.Own? ==> now.selOut == Via(now.selIn))) &&
    (!(exists i :: Offers(was, i)) && was.selIn.Some? && RouteOf(was.routes, was.selIn).metric < 0xFFFF ==> now == was) &&
    (!(exists i :: Offers(was, i)) && was.selIn.Some? && RouteOf(was.routes, was.selIn).metric == 0xFFFF ==>
      now.selIn.None? && (c.Own? ==> now.selOut == Via(was.selIn))) &&
    (!(exists i :: Offers(was, i)) && was.selIn.None? ==> now.selIn.None?)
  }

  // What the core exports is advertised: the selected route, our own at metric 0 in place of another
  // protocol's, nothing; a withdrawn route of our own becomes infinite.
  ghost predicate NotifyEffect(was: EntryState, self: Self, c: CoreChoice, now: EntryState) {
    now.sources == was.sources && now.selIn == was.selIn && OthersSame(was.routes, now.routes, {}) &&
    (c.Silent? ==> now == was) &&
    (c.Own? && was.selIn.Some? ==> now == was.(selOut := Via(was.selIn))) &&
    (c.Own? && was.selIn.None? ==> now == was.(selOut := NoOut)) &&
    (c.Foreign? ==>
      now.selOut == Via(None) && Has(now.routes, None) &&
      var r := RouteOf(now.routes, None); r.rid == self.rid && r.seqno == self.seqno && r.metric == 0) &&
    (c.Withdraw? && was.selOut == Via(None) ==>
      now.selOut == was.selOut && Has(now.routes, None) && RouteOf(now.routes, None).metric == 0xFFFF) &&
    (c.Withdraw? && was.selOut != Via(None) ==> now == was.(selOut := NoOut))
  }

  // An exported route is advertised with its distance, our own with the current sequence number, and
  // for another's route the source remembers the best distance ever advertised.
  ghost predicate SentEffect(was: EntryState, self: Self, skip: bool, now: EntryState, sent: Option<Update>)
    requires WellFormed(was)
  {
    now.selIn == was.selIn && now.selOut == was.selOut &&
    (was.selOut.NoOut? || skip ==> sent.None? && now.sources == was.sources) &&
    (was.selOut.NoOut? ==> now == was) &&
    (was.selOut.Via? ==>
      var k := was.selOut.neigh;
      var r := RouteOf(was.routes, k);
      var seqno := if r.rid == self.rid && r.seqno < self.seqno then self.seqno else r.seqno;
      RouteFor(now.routes, k) == Some(r.(seqno := seqno)) && (forall q :: q != k ==> RouteFor(now.routes, q) == RouteFor(was.routes, q)) &&
      (!skip ==>
        sent == Some(Update(r.rid, seqno, r.metric)) &&
        (k.None? ==> now.sources == was.sources) &&
        (k.Some? ==>
          (forall x :: x != r.rid ==> (x in now.sources <==> x in was.sources) && (x in was.sources ==> now.sources[x] == was.sources[x])) &&
          r.rid in now.sources &&
          now.sources[r.rid] == if Better(was.sources, r.rid, seqno, r.metric) then Dist(seqno, r.metric) else was.sources[r.rid])))
  }

  // One route of the neighbour is gone, and with it what was selected or exported of it.
  ghost predicate FlushEffect(was: EntryState, k: Option<Neigh>, now: EntryState) {
    now.sources == was.sources && (forall q :: q != k ==> RouteFor(now.routes, q) == RouteFor(was.routes, q)) &&
    |now.routes| + 1 == |was.routes| && (OncePerNeighbour(was.routes) ==> !Has(now.routes, k)) &&
    now.selIn == (if k.Some? && was.selIn == k then None else was.selIn) &&
    now.selOut == (if was.selOut == Via(k) then NoOut else was.selOut)
  }

  predicate OncePerNeighbour(routes: seq<Route>) {
    forall i, j :: 0 <= i < j < |routes| ==> routes[i].neigh != routes[j].neigh
  }

  // A route that expires is retracted first and flushed the next time.
  ghost predicate ExpireEffect(was: EntryState, k: Option<Neigh>, now: EntryState)
    requires Has(was.routes, k)
  {
    var r := RouteOf(was.routes, k);
    if r.metric == 0xFFFF then FlushEffect(was, k, now)
    else
      now == was.(routes := now.routes) && RouteFor(now.routes, k) == Some(r.(metric := 0xFFFF)) &&
      forall q :: q != k ==> RouteFor(now.routes, q) == RouteFor(was.routes, q)
  }

  lemma RemovedOnce(routes: seq<Route>, i: nat)
    requires i < |routes| && OncePerNeighbour(routes)
    ensures !Has(routes[..i] + routes[i + 1..], routes[i].neigh)
  {
    var routes' := routes[..i] + routes[i + 1..];
    forall j | 0 <= j < |routes'| ensures routes'[j].neigh != routes[i].neigh {
      assert routes'[j] == routes[if j < i then j else j + 1];
    }
    FindIs(routes', routes[i].neigh, |routes'|);
  }

  lemma RemovedFind(routes: seq<Route>, i: nat, q: Option<Neigh>)
    requires i < |routes| && q != routes[i].neigh
    ensures RouteFor(routes[..i] + routes[i + 1..], q) == RouteFor(routes, q)
  {
    var routes' := routes[..i] + routes[i + 1..];
    var j := Find(routes, q);
    hide Find;
    var j' := if j < i then j else j - 1;
    forall m | 0 <= m < j' ensures routes'[m].neigh != q {
      assert routes'[m] == routes[if m < i then m else m + 1];
    }
    if j < |routes| {
      assert routes'[j'] == routes[j];
    }
    FindIs(routes', q, j');
  }

  lemma FlushedMeans(e: EntryState, k: Option<Neigh>)
    requires Has(e.routes, k)
    ensures FlushEffect(e, k, Flushed(e, k))
  {
    var i := Find(e.routes, k);
    assert e.routes[i].neigh == k;
    if OncePerNeighbour(e.routes) {
      RemovedOnce(e.routes, i);
    }
    hide OncePerNeighbour, RouteFor, FindFrom;
    forall q | q != k ensures RouteFor(e.routes[..i] + e.routes[i + 1..], q) == RouteFor(e.routes, q) {
      RemovedFind(e.routes, i, q);
    }
  }

  lemma ExpiredMeans(e: EntryState, k: Option<Neigh>)
    requires Has(e.routes, k)
    ensures ExpireEffect(e, k, Expired(e, k))
  {
    FlushedMeans(e, k);
    hide Find, FlushEffect;
    PutFind(e.routes, k, Find(e.routes, k), RouteOf(e.routes, k).(metric := INFINITY));
  }

  lemma NotifyMeans(e: EntryState, self: Self, c: CoreChoice)
    requires WellFormed(e)
    ensures NotifyEffect(e, self, c, Notify(e, self, c))
  {
    hide Find;
    if Has(e.routes, None) {
      var r := RouteOf(e.routes, None);
      PutFind(e.routes, None, Find(e.routes, None), r.(rid := self.rid, seqno := self.seqno, metric := 0));
      PutFind(e.routes, None, Find(e.routes, None), r.(metric := INFINITY));
    } else {
      AppendFind(e.routes, Route(None, self.rid, self.seqno, 0, 0));
    }
  }

  lemma OffersAre(e: EntryState, i: int)
    requires WellFormed(e)
    ensures Offers(e, i) <==> 0 <= i < |e.routes| && Candidate(e, i)
  {
    hide Find;
  }

  lemma SelectedMeans(e: EntryState, self: Self, c: CoreChoice, e': EntryState)
    requires WellFormed(e) && Selected(e, self, c, e')
    ensures SelectionEffect(e, c, e')
  {
    hide Find, Notify, OthersSame, Offers, Candidate, BestCandidate, NotifyEffect;
    forall i ensures Offers(e, i) <==> 0 <= i < |e.routes| && Candidate(e, i) {
      OffersAre(e, i);
    }
    if exists i :: 0 <= i < |e.routes| && Candidate(e, i) {
      var i :| 0 <= i < |e.routes| && BestCandidate(e, i) && e' == Notify(e.(selIn := e.routes[i].neigh), self, c);
      BestMeans(e, i);
      NotifyMeans(e.(selIn := e.routes[i].neigh), self, c);
      NotifyParts(e.(selIn := e.routes[i].neigh), self, c, e');
    } else if Limit(e) == INFINITY {
      NotifyMeans(e, self, c);
      NotifyParts(e, self, c, Notify(e, self, c));
    } else {
      SameOthers(e.routes);
    }
  }

  lemma BestMeans(e: EntryState, i: nat)
    requires WellFormed(e) && i < |e.routes| && BestCandidate(e, i)
    ensures Candidate(e, i) && e.routes[i].neigh.Some? && WellFormed(e.(selIn := e.routes[i].neigh))
    ensures forall j :: 0 <= j < |e.routes| && Candidate(e, j) ==> e.routes[i].metric <= e.routes[j].metric
  {
    hide Feasible;
  }

  lemma NotifyParts(e: EntryState, self: Self, c: CoreChoice, e': EntryState)
    requires NotifyEffect(e, self, c, e')
    ensures e'.sources == e.sources && e'.selIn == e.selIn && OthersSame(e.routes, e'.routes, {})
    ensures c.Own? ==> e'.selOut == if e.selIn.Some? then Via(e.selIn) else NoOut
  {
  }

  lemma SameOthers(routes: seq<Route>)
    ensures forall except :: OthersSame(routes, routes, except)
  {
  }

  // What the list is before the selection, in each case.
  lemma StoredMeans(e: EntryState, self: Self, n: Neigh, u: Update, cost: u16)
    requires WellFormed(e)
    ensures var s, k := Stored(e, self, n, u, cost), Some(n);
      var before, usable := RouteFor(e.routes, k), Better(e.sources, u.rid, u.seqno, u.metric);
      (s.None? <==> u.rid == self.rid || (before.None? && (u.metric == 0xFFFF || !usable)) ||
                    (u.metric < 0xFFFF && before.Some? && e.selIn == k && !usable && before.value.rid == u.rid)) &&
      (s.Some? ==>
        WellFormed(s.value) && s.value.sources == e.sources && s.value.selIn == e.selIn && OthersSame(e.routes, s.value.routes, {k}) &&
        RouteFor(s.value.routes, k) ==
          if u.metric < 0xFFFF && (usable || e.selIn != k) then Some(Heard(n, u, cost)) else Some(before.value.(metric := 0xFFFF)))
  {
    StoredWellFormed(e, self, n, u, cost);
    var k := Some(n);
    var r := Route(k, u.rid, u.seqno, u.metric, ComputeMetric(cost, u.metric));
    hide Find;
    if Has(e.routes, k) {
      PutFind(e.routes, k, Find(e.routes, k), RouteOf(e.routes, k).(metric := INFINITY));
      PutFind(e.routes, k, Find(e.routes, k), r);
    } else {
      AppendFind(e.routes, r);
    }
  }

  // The route of a neighbour offers itself when nothing is selected.
  lemma UsableOffers(e: EntryState, k: Option<Neigh>, r: Route)
    requires RouteFor(e.routes, k) == Some(r) && k.Some? && e.selIn.None? && r.metric < 0xFFFF
    requires Better(e.sources, r.rid, r.seqno, r.advert)
    ensures exists i :: Offers(e, i)
  {
    hide FindFrom;
    assert Offers(e, Find(e.routes, k));
  }

  // An update of one neighbour, seen in the fields.
  lemma HandledMeans(e: EntryState, self: Self, n: Neigh, u: Update, cost: u16, c: CoreChoice, e': EntryState)
    requires WellFormed(e) && Handled(e, self, n, u, cost, c, e')
    ensures UpdateEffect(e, self, n, u, cost, e')
  {
    hide Find, Has, Stored, Selected, Better, OthersSame, Offers, SelectionEffect;
    StoredMeans(e, self, n, u, cost);
    SameOthers(e.routes);
    var s := Stored(e, self, n, u, cost);
    if s.Some? {
      SelectedMeans(s.value, self, c, e');
      SelectionParts(s.value, c, e');
      OthersOn(e.routes, s.value.routes, e'.routes, Some(n));
      if u.rid != self.rid && u.metric + cost < 0xFFFF && Better(e.sources, u.rid, u.seqno, u.metric) && e.selIn.None? {
        UsableOffers(s.value, Some(n), Heard(n, u, cost));
      }
    }
  }

  lemma SelectionParts(e: EntryState, c: CoreChoice, e': EntryState)
    requires WellFormed(e) && SelectionEffect(e, c, e')
    ensures e'.sources == e.sources && OthersSame(e.routes, e'.routes, {})
    ensures (exists i :: Offers(e, i)) ==> e'.selIn.Some?
  {
  }

  lemma OthersOn(a: seq<Route>, b: seq<Route>, c: seq<Route>, k: Option<Neigh>)
    requires OthersSame(a, b, {k}) && OthersSame(b, c, {})
    ensures OthersSame(a, c, {k}) && (k.Some? ==> RouteFor(c, k) == RouteFor(b, k))
  {
  }

  // The refreshed route is the only one that changes.
  lemma RefreshedMeans(e: EntryState, self: Self)
    requires e.selOut.Via? && Has(e.routes, e.selOut.neigh)
    ensures var k, f := e.selOut.neigh, Refreshed(e, self);
      var r := RouteOf(e.routes, k);
      f == e.(routes := f.routes) && Has(f.routes, k) && r.neigh == k &&
      RouteOf(f.routes, k) == r.(seqno := if r.rid == self.rid && r.seqno < self.seqno then self.seqno else r.seqno) &&
      forall q :: q != k ==> RouteFor(f.routes, q) == RouteFor(e.routes, q)
  {
    hide Find;
    var k, r := e.selOut.neigh, RouteOf(e.routes, e.selOut.neigh);
    PutFind(e.routes, k, Find(e.routes, k), r.(seqno := self.seqno));
  }

  lemma AdvertiseMeans(sources: Sources, rid: RouterId, d: Dist)
    ensures var s := Advertise(sources, rid, d);
      (forall x :: x != rid ==> (x in s <==> x in sources) && (x in sources ==> s[x] == sources[x])) && rid in s &&
      s[rid] == if Better(sources, rid, d.seqno, d.metric) then d else sources[rid]
  {
  }

  lemma SentMeans(e: EntryState, self: Self, skip: bool)
    requires WellFormed(e)
    ensures SentEffect(e, self, skip, Sent(e, self, skip).0, Sent(e, self, skip).1)
  {
    hide Find, Refreshed, Advertise, Better;
    if e.selOut.Via? {
      RefreshedMeans(e, self);
      var r := RouteOf(Refreshed(e, self).routes, e.selOut.neigh);
      AdvertiseMeans(e.sources, r.rid, Dist(r.seqno, r.metric));
    }
  }

  /* ---------- The entry and its handlers ---------- */

  class Entry {
    var routes: seq<Route>
    var sources: Sources
    var selIn: Option<Neigh>
    var selOut: Out

    // babel_init_entry
    constructor ()
      ensures State() == EntryState([], map[], None, NoOut)
    {
      routes, sources, selIn, selOut := [], map[], None, NoOut;
    }

    function State(): EntryState
      reads this
    {
      EntryState(routes, sources, selIn, selOut)
    }

    // babel_find_route
    method FindRoute(k: Option<Neigh>) returns (i: nat)
      ensures i == Find(routes, k)
    {
      i := 0;
      while i < |routes|
        invariant i <= |routes| && forall j :: 0 <= j < i ==> routes[j].neigh != k
      {
        if routes[i].neigh == k {
          FindIs(routes, k, i);
          return;
        }
        i := i + 1;
      }
      FindIs(routes, k, i);
    }

    // babel_rt_notify
    method RtNotify(self: Self, c: CoreChoice)
      requires WellFormed(State())
      modifies this
      ensures State() == Notify(old(State()), self, c)
      ensures NotifyEffect(old(State()), self, c, State())
    {
      NotifyMeans(State(), self, c);
      hide NotifyEffect;
      match c
      case Silent =>
      case Own =>
        selOut := if selIn.None? then NoOut else Via(selIn);
      case Foreign =>
        var i := FindRoute(None);
        if i == |routes| {
          routes := routes + [Route(None, self.rid, self.seqno, 0, 0)];
        } else {
          routes := routes[i := routes[i].(rid := self.rid, seqno := self.seqno, metric := 0)];
        }
        selOut := Via(None);
      case Withdraw =>
        if selOut == Via(None) {
          var i := FindRoute(None);
          routes := routes[i := routes[i].(metric := INFINITY)];
        } else {
          selOut := NoOut;
        }
    }

    // babel_select_route
    method SelectRoute(self: Self, c: CoreChoice)
      requires WellFormed(State())
      modifies this
      ensures Selected(old(State()), self, c, State())
      ensures SelectionEffect(old(State()), c, State())
    {
      PickRoute(self, c);
      SelectedMeans(old(State()), self, c, State());
    }

    method PickRoute(self: Self, c: CoreChoice)
      requires WellFormed(State())
      modifies this
      ensures Selected(old(State()), self, c, State())
    {
      hide NotifyEffect, Notify, Feasible;
      ghost var e := State();
      var cur: Option<nat> := None;
      if selIn.Some? {
        var s := FindRoute(selIn);
        cur := Some(s);
      }
      var i := 0;
      while i < |routes|
        invariant 0 <= i <= |routes| && State() == e && BestSoFar(e, i, cur)
      {
        if routes[i].neigh.Some? && (cur.None? || routes[i].metric < routes[cur.value].metric) &&
           Feasible(sources, routes[i].rid, routes[i].seqno, routes[i].advert) {
          cur := Some(i);
        }
        i := i + 1;
      }
      BestIsBest(e, cur);
      var limit := INFINITY;
      if selIn.Some? {
        var s := FindRoute(selIn);
        limit := routes[s].metric;
      }
      if cur.Some? && routes[cur.value].neigh.Some? && routes[cur.value].metric < limit {
        selIn := routes[cur.value].neigh;
        RtNotify(self, c);
      } else if cur.None? || routes[cur.value].metric == INFINITY {
        RtNotify(self, c);
        selIn := None;
      }
    }

    // What a retraction does to the route of the neighbour, if there is one
    method RetractRoute(self: Self, n: Neigh, c: CoreChoice)
      requires WellFormed(State())
      modifies this
      ensures if !Has(old(routes), Some(n)) then State() == old(State())
        else var s := Retracted(old(State()), Some(n)); WellFormed(s) && Selected(s, self, c, State())
    {
      hide Selected, SelectionEffect;
      var i := FindRoute(Some(n));
      if i < |routes| {
        PutFind(routes, Some(n), i, routes[i].(metric := INFINITY));
        routes := routes[i := routes[i].(metric := INFINITY)];
        SelectRoute(self, c);
      }
    }

    // babel_handle_update
    method HandleUpdate(self: Self, n: Neigh, u: Update, cost: u16, c: CoreChoice)
      requires WellFormed(State())
      modifies this
      ensures Handled(old(State()), self, n, u, cost, c, State())
      ensures UpdateEffect(old(State()), self, n, u, cost, State())
    {
      TakeUpdate(self, n, u, cost, c);
      HandledMeans(old(State()), self, n, u, cost, c, State());
    }

    method TakeUpdate(self: Self, n: Neigh, u: Update, cost: u16, c: CoreChoice)
      requires WellFormed(State())
      modifies this
      ensures Handled(old(State()), self, n, u, cost, c, State())
    {
      hide Selected, Feasible, ComputeMetric, SelectionEffect;
      ghost var e := State();
      StoredWellFormed(e, self, n, u, cost);
      if u.rid == self.rid {
        return;
      }
      if u.metric == INFINITY {
        RetractRoute(self, n, c);
        return;
      }
      var i := FindRoute(Some(n));
      var feasible := Feasible(sources, u.rid, u.seqno, u.metric);
      if i == |routes| {
        if !feasible {
          return;
        }
        routes := routes + [Route(Some(n), u.rid, u.seqno, u.metric, ComputeMetric(cost, u.metric))];
      } else if selIn == Some(n) && !feasible {
        if u.rid == routes[i].rid {
          return;
        }
        routes := routes[i := routes[i].(metric := INFINITY)];
      } else {
        routes := routes[i := Route(Some(n), u.rid, u.seqno, u.metric, ComputeMetric(cost, u.metric))];
      }
      SelectRoute(self, c);
    }

    // babel_flush_route
    method FlushRoute(k: Option<Neigh>)
      requires WellFormed(State()) && Has(routes, k)
      modifies this
      ensures State() == Flushed(old(State()), k)
      ensures FlushEffect(old(State()), k, State())
    {
      FlushedMeans(State(), k);
      hide FlushEffect;
      var i := FindRoute(k);
      routes := routes[..i] + routes[i + 1..];
      if k.Some? && selIn == k {
        selIn := None;
      }
      if selOut == Via(k) {
        selOut := NoOut;
      }
    }

    // babel_expire_route
    method ExpireRoute(k: Option<Neigh>)
      requires WellFormed(State()) && Has(routes, k)
      modifies this
      ensures State() == Expired(old(State()), k)
      ensures ExpireEffect(old(State()), k, State())
    {
      ExpiredMeans(State(), k);
      hide ExpireEffect;
      var i := FindRoute(k);
      if routes[i].metric < INFINITY {
        routes := routes[i := routes[i].(metric := INFINITY)];
      } else {
        FlushRoute(k);
      }
    }

    // babel_send_update
    method SendUpdate(self: Self, skip: bool) returns (sent: Option<Update>)
      requires WellFormed(State())
      modifies this
      ensures (State(), sent) == Sent(old(State()), self, skip)
      ensures SentEffect(old(State()), self, skip, State(), sent)
    {
      sent := AdvertiseRoute(self, skip);
      SentMeans(old(State()), self, skip);
    }

    method AdvertiseRoute(self: Self, skip: bool) returns (sent: Option<Update>)
      requires WellFormed(State())
      modifies this
      ensures (State(), sent) == Sent(old(State()), self, skip)
    {
      sent := None;
      if selOut.NoOut? {
        return;
      }
      var i := FindRoute(selOut.neigh);
      if routes[i].rid == self.rid && routes[i].seqno < self.seqno {
        PutFind(routes, selOut.neigh, i, routes[i].(seqno := self.seqno));
        routes := routes[i := routes[i].(seqno := self.seqno)];
      }
      if skip {
        return;
      }
      var r := routes[i];
      sent := Some(Update(r.rid, r.seqno, r.metric));
      if r.neigh.Some? {
        // babel_get_source: a new source starts at the worst distance
        if r.rid !in sources {
          sources := sources[r.rid := Dist(0, INFINITY)];
        }
        var s := sources[r.rid];
        if r.seqno > s.seqno || (r.seqno == s.seqno && r.metric < s.metric) {
          sources := sources[r.rid := Dist(r.seqno, r.metric)];
        }
        assert sources == Advertise(old(sources), r.rid, Dist(r.seqno, r.metric));
      }
    }
  }

  // babel_handle_update for a wildcard retraction: what a retraction of each prefix would do, for the
  // entries of all routes of the neighbour
  method RetractAll(entries: seq<Entry>, self: Self, n: Neigh, rid: RouterId, cores: seq<CoreChoice>)
    requires |cores| == |entries| && forall i, j :: 0 <= i < j < |entries| ==> entries[i] != entries[j]
    requires forall i :: 0 <= i < |entries| ==> WellFormed(entries[i].State())
    modifies set e | e in entries
    ensures forall i :: 0 <= i < |entries| ==>
      UpdateEffect(old(entries[i].State()), self, n, Update(rid, 0, INFINITY), 0, entries[i].State()) &&
      Handled(old(entries[i].State()), self, n, Update(rid, 0, INFINITY), 0, cores[i], entries[i].State())
  {
    hide UpdateEffect, SelectionEffect;
    RetractEach(entries, self, n, rid, cores);
    forall i | 0 <= i < |entries|
      ensures UpdateEffect(old(entries[i].State()), self, n, Update(rid, 0, INFINITY), 0, entries[i].State())
    {
      HandledMeans(old(entries[i].State()), self, n, Update(rid, 0, INFINITY), 0, cores[i], entries[i].State());
    }
  }

  method RetractEach(entries: seq<Entry>, self: Self, n: Neigh, rid: RouterId, cores: seq<CoreChoice>)
    requires |cores| == |entries| && forall i, j :: 0 <= i < j < |entries| ==> entries[i] != entries[j]
    requires forall i :: 0 <= i < |entries| ==> WellFormed(entries[i].State())
    modifies set e | e in entries
    ensures forall i :: 0 <= i < |entries| ==>
      Handled(old(entries[i].State()), self, n, Update(rid, 0, INFINITY), 0, cores[i], entries[i].State())
  {
    hide Handled, Selected, WellFormed, Has, Retracted;
    for k := 0 to |entries|
      invariant forall i :: k <= i < |entries| ==> entries[i].State() == old(entries[i].State())
      invariant forall i :: 0 <= i < k ==>
        Handled(old(entries[i].State()), self, n, Update(rid, 0, INFINITY), 0, cores[i], entries[i].State())
    {
      RetractionHandled(entries[k].State(), self, n, rid, cores[k]);
      if rid != self.rid {
        entries[k].RetractRoute(self, n, cores[k]);
      }
    }
  }

  // A retraction is an update with infinite metric.
  lemma RetractionHandled(e: EntryState, self: Self, n: Neigh, rid: RouterId, c: CoreChoice)
    requires WellFormed(e)
    ensures rid == self.rid || !Has(e.routes, Some(n)) ==> Handled(e, self, n, Update(rid, 0, INFINITY), 0, c, e)
    ensures rid != self.rid && Has(e.routes, Some(n)) && WellFormed(Retracted(e, Some(n))) ==>
      forall e' :: Selected(Retracted(e, Some(n)), self, c, e') ==> Handled(e, self, n, Update(rid, 0, INFINITY), 0, c, e')
  {
    hide Selected, Has, Retracted;
  }

  // Replacing a route by one of the same neighbour keeps what is found where.
  lemma PutFind(routes: seq<Route>, k: Option<Neigh>, i: nat, r: Route)
    requires i == Find(routes, k) < |routes| && r.neigh == k
    ensures forall q :: Find(routes[i := r], q) == Find(routes, q)
  {
    forall q ensures Find(routes[i := r], q) == Find(routes, q) {
      FindIs(routes[i := r], q, Find(routes, q));
    }
  }

  lemma AppendFind(routes: seq<Route>, r: Route)
    requires !Has(routes, r.neigh)
    ensures forall q :: Find(routes + [r], q) == if q == r.neigh then |routes| else if Has(routes, q) then Find(routes, q) else |routes| + 1
  {
    forall q ensures Find(routes + [r], q) == if q == r.neigh then |routes| else if Has(routes, q) then Find(routes, q) else |routes| + 1 {
      FindIs(routes + [r], q, if q == r.neigh then |routes| else if Has(routes, q) then Find(routes, q) else |routes| + 1);
    }
  }

  lemma StoredWellFormed(e: EntryState, self: Self, n: Neigh, u: Update, cost: u16)
    requires WellFormed(e)
    ensures var s := Stored(e, self, n, u, cost); s.Some? ==> WellFormed(s.value)
  {
    hide Feasible, ComputeMetric;
    var k := Some(n);
    var r := Route(k, u.rid, u.seqno, u.metric, ComputeMetric(cost, u.metric));
    if Has(e.routes, k) {
      PutFind(e.routes, k, Find(e.routes, k), RouteOf(e.routes, k).(metric := INFINITY));
      PutFind(e.routes, k, Find(e.routes, k), r);
    } else {
      AppendFind(e.routes, r);
    }
  }

  lemma FindIs(routes: seq<Route>, k: Option<Neigh>, i: nat)
    requires i <= |routes| && (forall j :: 0 <= j < i ==> routes[j].neigh != k) && (i < |routes| ==> routes[i].neigh == k)
    ensures Find(routes, k) == i
  {
  }

  // The cursor after the first i routes: nothing yet, the selected route, or the best feasible one so far.
  predicate BestSoFar(e: EntryState, i: nat, cur: Option<nat>)
    requires WellFormed(e) && i <= |e.routes|
  {
    if cur.None? then e.selIn.None? && forall j :: 0 <= j < i ==> !Eligible(e, j)
    else if e.selIn.Some? && cur.value == Find(e.routes, e.selIn) then
      forall j :: 0 <= j < i && Eligible(e, j) ==> e.routes[j].metric >= Limit(e)
    else
      cur.value < i && Eligible(e, cur.value) && (e.selIn.Some? ==> e.routes[cur.value].metric < Limit(e)) &&
      SmallestOf(e, i, cur.value)
  }

  predicate SmallestOf(e: EntryState, i: nat, b: nat)
    requires b < |e.routes| && i <= |e.routes|
  {
    forall j :: 0 <= j < i && Eligible(e, j) ==>
      e.routes[b].metric <= e.routes[j].metric && (j < b ==> e.routes[b].metric < e.routes[j].metric)
  }

  lemma BestIsBest(e: EntryState, cur: Option<nat>)
    requires WellFormed(e) && BestSoFar(e, |e.routes|, cur)
    ensures cur.Some? && e.routes[cur.value].metric < Limit(e) ==> BestCandidate(e, cur.value)
    ensures cur.None? || e.routes[cur.value].metric >= Limit(e) ==> forall j :: 0 <= j < |e.routes| ==> !Candidate(e, j)
  {
  }
}
