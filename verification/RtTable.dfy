/**
 * Updating a routing table (rte_recalculate in nest/rt-table.c): route limits, counters of imported
 * and filtered routes, and the list of routes of each net.
 */
module RtTable {

  import opened RtLists
  import opened Options
  import opened Lists
  import opened Sets

  datatype Action = Warn | Block | Restart | Disable

  datatype LimitState = Initial | Active | Blocked

  datatype Limit = Limit(limit: nat, action: Action, state: LimitState)

  // An announce hook: counters, receive and import limits, and whether filtered routes are kept.
  datatype Hook = Hook(imp: nat, filt: nat, rx: Option<Limit>, inl: Option<Limit>, keepFiltered: bool)

  type Nets = map<nat, seq<Rte>>

  // proto_notify_limit
  function NotifyLimit(l: Limit): Limit {
    if l.state == Blocked then l else l.(state := if l.action == Warn then Active else Blocked)
  }

  // Entries (net, source) of a hook, filtered or not.
  function Mine(nets: Nets, h: nat, filtered: bool): set<(nat, nat)> {
    set n, i | n in nets && 0 <= i < |nets[n]| && nets[n][i].sender == h && nets[n][i].filtered == filtered :: (n, nets[n][i].src)
  }

  function RoutesOf(nets: Nets, n: nat): seq<Rte> {
    if n in nets then nets[n] else []
  }

  predicate Within(l: Option<Limit>, count: nat) {
    l.Some? && l.value.action != Warn ==> count <= l.value.limit
  }

  predicate HookOk(nets: Nets, h: nat, hook: Hook) {
    hook.imp == |Mine(nets, h, false)| && hook.filt == |Mine(nets, h, true)| &&
    Within(hook.rx, hook.imp + hook.filt) && Within(hook.inl, hook.imp)
  }

  predicate ListOk(b: Better, sorted: bool, l: seq<Rte>) {
    OnePerSource(l) && HeadBest(b, l) && (sorted ==> SortedRoutes(b, l) && DistinctIds(l))
  }

  predicate NetsOk(b: Better, sorted: bool, nets: Nets) {
    forall n :: n in nets ==> ListOk(b, sorted, nets[n])
  }

  predicate HooksOk(nets: Nets, hooks: map<nat, Hook>) {
    forall h :: h in hooks ==> HookOk(nets, h, hooks[h])
  }

  // The list m holds the routes of l but for the old one of the source, and the new one.
  ghost predicate Replaces(l: seq<Rte>, m: seq<Rte>, src: nat, newRte: Option<Rte>) {
    forall r :: r in m <==> (r in l && r.src != src) || newRte == Some(r)
  }

  function Count(r: Option<Rte>, h: nat, filtered: bool): nat {
    if r.Some? && r.value.sender == h && r.value.filtered == filtered then 1 else 0
  }

  function OldOf(l: seq<Rte>, src: nat): Option<Rte> {
    var k := Find(l, src);
    if k < |l| then Some(l[k]) else None
  }

  /* ---------- Counting ---------- */

  lemma InMine(nets: Nets, h: nat, filtered: bool, n: nat, s: nat)
    ensures (n, s) in Mine(nets, h, filtered) <==>
      exists r :: r in RoutesOf(nets, n) && r.src == s && r.sender == h && r.filtered == filtered
  {
    if r :| r in RoutesOf(nets, n) && r.src == s && r.sender == h && r.filtered == filtered {
      var i :| 0 <= i < |nets[n]| && nets[n][i] == r;
      assert (n, nets[n][i].src) in Mine(nets, h, filtered);
    }
  }

  lemma OldIsOnly(l: seq<Rte>, src: nat)
    requires OnePerSource(l)
    ensures forall r :: r in l && r.src == src ==> OldOf(l, src) == Some(r)
    ensures OldOf(l, src).Some? ==> OldOf(l, src).value in l && OldOf(l, src).value.src == src
  {
    forall r | r in l && r.src == src ensures OldOf(l, src) == Some(r) {
      var i :| 0 <= i < |l| && l[i] == r;
      var k := Find(l, src);
      assert !(i < k) && !(k < i);
    }
  }

  lemma OthersSame(nets: Nets, n: nat, m: seq<Rte>, src: nat, newRte: Option<Rte>, h: nat, filtered: bool, y: (nat, nat))
    requires Replaces(RoutesOf(nets, n), m, src, newRte) && (newRte.Some? ==> newRte.value.src == src) && y != (n, src)
    ensures y in Mine(nets, h, filtered) <==> y in Mine(nets[n := m], h, filtered)
  {
    hide Mine;
    InMine(nets, h, filtered, y.0, y.1);
    InMine(nets[n := m], h, filtered, y.0, y.1);
  }

  // The entry of the source itself counts before by the old route and after by the new one.
  lemma OwnEntry(nets: Nets, n: nat, m: seq<Rte>, src: nat, newRte: Option<Rte>, h: nat, filtered: bool)
    requires OnePerSource(RoutesOf(nets, n)) && Replaces(RoutesOf(nets, n), m, src, newRte)
    requires newRte.Some? ==> newRte.value.src == src
    ensures (n, src) in Mine(nets, h, filtered) <==> Count(OldOf(RoutesOf(nets, n), src), h, filtered) == 1
    ensures (n, src) in Mine(nets[n := m], h, filtered) <==> Count(newRte, h, filtered) == 1
  {
    hide Mine;
    OldIsOnly(RoutesOf(nets, n), src);
    InMine(nets, h, filtered, n, src);
    InMine(nets[n := m], h, filtered, n, src);
  }

  // An update changes the counts of each hook by the old and the new route.
  lemma Counted(nets: Nets, n: nat, m: seq<Rte>, src: nat, newRte: Option<Rte>, h: nat, filtered: bool)
    requires OnePerSource(RoutesOf(nets, n)) && Replaces(RoutesOf(nets, n), m, src, newRte)
    requires newRte.Some? ==> newRte.value.src == src
    ensures |Mine(nets[n := m], h, filtered)| ==
      |Mine(nets, h, filtered)| - Count(OldOf(RoutesOf(nets, n), src), h, filtered) + Count(newRte, h, filtered)
  {
    hide Mine, Replaces, OnePerSource, OldOf;
    var a, a', x := Mine(nets, h, filtered), Mine(nets[n := m], h, filtered), (n, src);
    OwnEntry(nets, n, m, src, newRte, h, filtered);
    forall y: (nat, nat) | y != x ensures y in a <==> y in a' {
      OthersSame(nets, n, m, src, newRte, h, filtered, y);
    }
    assert a - {x} == a' - {x};
    CardWith(a, x);
    CardWith(a', x);
  }

  /* ---------- Limits ---------- */

  // What the limits make of a new route: nothing is done, or the update goes on with a route or without.
  datatype Verdict = Drop | Go(newRte: Option<Rte>)

  // A limit blocks a further route.
  predicate Blocks(l: Option<Limit>, count: nat) {
    l.Some? && (l.value.state == Blocked || (count >= l.value.limit && l.value.action != Warn))
  }

  function Judge(hook: Hook, oldRte: Option<Rte>, newRte: Option<Rte>): Verdict {
    if oldRte.None? && newRte.Some? && Blocks(hook.rx, hook.imp + hook.filt) then Drop
    else if !IsValid(oldRte) && IsValid(newRte) && Blocks(hook.inl, hook.imp) then
      if hook.keepFiltered then Go(Some(newRte.value.(filtered := true))) else if oldRte.Some? then Go(None) else Drop
    else Go(newRte)
  }

  // One limit is asked for one more route.
  method Ask(l0: Option<Limit>, count: nat) returns (l: Option<Limit>, blocked: bool)
    requires Within(l0, count)
    ensures blocked == Blocks(l0, count) && Within(l, count) && (!blocked ==> Within(l, count + 1)) && (l0.None? ==> l.None?)
    ensures LimitAfter(l0, count, true, l)
  {
    l := l0;
    if l.Some? && count >= l.value.limit {
      l := Some(NotifyLimit(l.value));
    }
    blocked := l.Some? && l.value.state == Blocked;
  }

  predicate LimitsAsked(was: Hook, oldRte: Option<Rte>, newRte: Option<Rte>, now: Hook) {
    now.keepFiltered == was.keepFiltered &&
    LimitAfter(was.rx, was.imp + was.filt, oldRte.None? && newRte.Some?, now.rx) &&
    LimitAfter(was.inl, was.imp, !IsValid(oldRte) && IsValid(newRte) && !(oldRte.None? && Stops(was.rx, was.imp + was.filt)), now.inl)
  }

  // The receive and import limits and the counters of the hook
  method Account(hook0: Hook, oldRte: Option<Rte>, newRte0: Option<Rte>) returns (hook: Hook, v: Verdict)
    requires (oldRte.Some? || newRte0.Some?) && Within(hook0.rx, hook0.imp + hook0.filt) && Within(hook0.inl, hook0.imp)
    requires oldRte.Some? ==> if oldRte.value.filtered then hook0.filt > 0 else hook0.imp > 0
    ensures v == Judge(hook0, oldRte, newRte0)
    ensures LimitsAsked(hook0, oldRte, newRte0, hook)
    ensures Within(hook.rx, hook.imp + hook.filt) && Within(hook.inl, hook.imp)
    ensures v.Drop? ==> hook.imp == hook0.imp && hook.filt == hook0.filt
    ensures v.Go? ==>
      hook.imp == hook0.imp + Tally(v.newRte, false) - Tally(oldRte, false) &&
      hook.filt == hook0.filt + Tally(v.newRte, true) - Tally(oldRte, true)
  {
    StopsOrAllows(hook0.rx, hook0.imp + hook0.filt);
    hide Blocks, Stops, Allows;
    hook := hook0;
    var newRte := newRte0;
    if oldRte.None? && newRte.Some? {
      var rx, blocked := Ask(hook.rx, hook.imp + hook.filt);
      hook := hook.(rx := rx);
      if blocked {
        return hook, Drop;
      }
    }
    if !IsValid(oldRte) && IsValid(newRte) {
      var inl, blocked := Ask(hook.inl, hook.imp);
      hook := hook.(inl := inl);
      if blocked {
        newRte := if hook.keepFiltered then Some(newRte.value.(filtered := true)) else None;
        if oldRte.None? && newRte.None? {
          return hook, Drop;
        }
      }
    }
    if newRte.Some? {
      hook := if newRte.value.filtered then hook.(filt := hook.filt + 1) else hook.(imp := hook.imp + 1);
    }
    if oldRte.Some? {
      hook := if oldRte.value.filtered then hook.(filt := hook.filt - 1) else hook.(imp := hook.imp - 1);
    }
    v := Go(newRte);
  }

  function Tally(r: Option<Rte>, filtered: bool): nat {
    if r.Some? && r.value.filtered == filtered then 1 else 0
  }

  /* ---------- What limits do to an update ---------- */

  // There is no limit, or it lets a further route through.
  predicate Allows(l: Option<Limit>, count: nat) {
    l.None? || (l.value.state != Blocked && (count < l.value.limit || l.value.action == Warn))
  }

  // The limit has been hit before or is hit now, and it does more than warn.
  predicate Stops(l: Option<Limit>, count: nat) {
    l.Some? && (l.value.state == Blocked || (count >= l.value.limit && l.value.action in {Block, Restart, Disable}))
  }

  // A limit that is hit is active after a warning and blocked otherwise.
  predicate LimitAfter(l: Option<Limit>, count: nat, asked: bool, now: Option<Limit>) {
    if asked && l.Some? && l.value.state != Blocked && count >= l.value.limit then
      now == Some(Limit(l.value.limit, l.value.action, if l.value.action == Warn then Active else Blocked))
    else now == l
  }

  predicate HasRoute(l: seq<Rte>, src: nat) {
    exists r :: r in l && r.src == src
  }

  predicate HasValidRoute(l: seq<Rte>, src: nat) {
    exists r :: r in l && r.src == src && !r.filtered
  }

  // The update is for a route of another hook, or changes nothing, or withdraws what is not there.
  predicate Pointless(l: seq<Rte>, h: nat, src: nat, newRte: Option<Rte>, same: bool) {
    (exists r :: r in l && r.src == src && (r.sender != h || (newRte.Some? && same))) || (!HasRoute(l, src) && newRte.None?)
  }

  // The receive limit is asked for a route of a new source, the import limit for a valid route where
  // there was none.
  predicate AsksReceive(l: seq<Rte>, src: nat, newRte: Option<Rte>) {
    newRte.Some? && !HasRoute(l, src)
  }

  predicate AsksImport(l: seq<Rte>, src: nat, newRte: Option<Rte>) {
    newRte.Some? && !newRte.value.filtered && !HasValidRoute(l, src)
  }

  // From list l to list m by an update through hook hk: the routes of other sources stay. The new
  // route is taken unchanged if each limit that is asked allows it; nothing happens when the receive
  // limit stops a new source; when the import limit stops it, the route is kept as filtered if the
  // hook keeps such routes, and otherwise the old route, if any, is withdrawn.
  ghost predicate UpdateEffect(l: seq<Rte>, m: seq<Rte>, h: nat, hk: Hook, src: nat, newRte: Option<Rte>, same: bool, ignored: bool) {
    var rx := AsksReceive(l, src, newRte) && Stops(hk.rx, hk.imp + hk.filt);
    var inl := AsksImport(l, src, newRte) && Stops(hk.inl, hk.imp);
    (forall r: Rte :: r.src != src ==> (r in m <==> r in l)) &&
    (ignored <==> Pointless(l, h, src, newRte, same) || rx || (inl && !hk.keepFiltered && !HasRoute(l, src))) &&
    (ignored ==> m == l) &&
    (!ignored && newRte.None? ==> !HasRoute(m, src)) &&
    (!ignored && inl && !hk.keepFiltered ==> !HasRoute(m, src)) &&
    (!ignored && inl && hk.keepFiltered ==> forall r: Rte :: r.src == src ==> (r in m <==> r == newRte.value.(filtered := true))) &&
    (!Pointless(l, h, src, newRte, same) && newRte.Some? &&
     (AsksReceive(l, src, newRte) ==> Allows(hk.rx, hk.imp + hk.filt)) && (AsksImport(l, src, newRte) ==> Allows(hk.inl, hk.imp)) ==>
      forall r: Rte :: r.src == src ==> (r in m <==> r == newRte.value))
  }

  // The limits after the update: those asked have taken note, the import limit only after the receive limit.
  predicate LimitsAfter(l: seq<Rte>, h: nat, was: Hook, now: Hook, src: nat, newRte: Option<Rte>, same: bool) {
    if Pointless(l, h, src, newRte, same) then now == was
    else
      now.keepFiltered == was.keepFiltered && LimitAfter(was.rx, was.imp + was.filt, AsksReceive(l, src, newRte), now.rx) &&
      LimitAfter(was.inl, was.imp,
                 AsksImport(l, src, newRte) && !(AsksReceive(l, src, newRte) && Stops(was.rx, was.imp + was.filt)), now.inl)
  }

  lemma LimitsMean(l: seq<Rte>, h: nat, was: Hook, now: Hook, src: nat, newRte: Option<Rte>, same: bool)
    requires OnePerSource(l)
    requires if Ignores(l, h, src, newRte, same) then now == was else LimitsAsked(was, OldOf(l, src), newRte, now)
    ensures LimitsAfter(l, h, was, now, src, newRte, same)
  {
    OldMeans(l, src);
    hide OldOf, LimitAfter, Stops, HasRoute, HasValidRoute, OnePerSource;
    assert Pointless(l, h, src, newRte, same) <==> Ignores(l, h, src, newRte, same);
  }

  lemma OldMeans(l: seq<Rte>, src: nat)
    requires OnePerSource(l)
    ensures HasRoute(l, src) <==> OldOf(l, src).Some?
    ensures HasValidRoute(l, src) <==> IsValid(OldOf(l, src))
    ensures forall r :: r in l && r.src == src <==> OldOf(l, src) == Some(r)
  {
    OldIsOnly(l, src);
    hide OldOf;
  }

  lemma StopsOrAllows(l: Option<Limit>, count: nat)
    ensures Blocks(l, count) <==> Stops(l, count)
    ensures Stops(l, count) <==> !Allows(l, count)
  {
  }

  // The verdict of the limits, seen in the lists.
  lemma UpdateMeans(l: seq<Rte>, m: seq<Rte>, h: nat, hk: Hook, src: nat, newRte: Option<Rte>, same: bool, o: Outcome)
    requires OnePerSource(l) && (newRte.Some? ==> newRte.value.src == src)
    requires o.Ignored? ==> m == l
    requires o.Changed? ==> o.oldRte == OldOf(l, src) && Replaces(l, m, src, o.newRte) && Judge(hk, o.oldRte, newRte) == Go(o.newRte)
    requires o.Ignored? <==> Ignores(l, h, src, newRte, same) || Judge(hk, OldOf(l, src), newRte) == Drop
    ensures UpdateEffect(l, m, h, hk, src, newRte, same, o.Ignored?)
  {
    OldMeans(l, src);
    StopsOrAllows(hk.rx, hk.imp + hk.filt);
    StopsOrAllows(hk.inl, hk.imp);
    hide OldOf, Blocks, Stops, Allows, HasRoute, HasValidRoute, OnePerSource;
    assert Pointless(l, h, src, newRte, same) <==> Ignores(l, h, src, newRte, same);
    if o.Changed? {
      NewMeans(l, m, src, o.newRte);
    }
  }

  lemma NewMeans(l: seq<Rte>, m: seq<Rte>, src: nat, newRte: Option<Rte>)
    requires Replaces(l, m, src, newRte) && (newRte.Some? ==> newRte.value.src == src)
    ensures forall r: Rte :: r.src != src ==> (r in m <==> r in l)
    ensures HasRoute(m, src) <==> newRte.Some?
    ensures forall r: Rte :: r.src == src ==> (r in m <==> newRte == Some(r))
  {
  }

  /* ---------- The table ---------- */

  // What an update did: nothing, or the old route was replaced by the new one. `before` is the
  // route that preceded a valid old one, as rte_announce passes it on.
  datatype Outcome = Ignored | Changed(oldRte: Option<Rte>, newRte: Option<Rte>, before: Option<Rte>)

  // The list after the update; in sorted tables the new route is at place q of the others.
  method UpdateList(b: Better, sorted: bool, l: seq<Rte>, k: nat, src: nat, newRte: Option<Rte>, hook: bool)
    returns (m: seq<Rte>, ghost q: nat)
    requires WeakOrder(b) && ListOk(b, sorted, l) && k == Find(l, src) && (k < |l| || newRte.Some?)
    requires newRte.Some? ==> newRte.value.src == src && forall r :: r in l ==> r.id != newRte.value.id
    ensures ListOk(b, sorted, m) && Replaces(l, m, src, newRte)
    ensures sorted ==> Holds(m, Rest(l, k), q, newRte)
  {
    hide WeakOrder, SortedRoutes, HeadBest, Find, PlaceOf;
    var c := Rest(l, k);
    RestFacts(b, sorted, l, k, src);
    q := 0;
    if sorted {
      m := c;
      if newRte.Some? {
        var before := if k > 0 && k < |l| then Some(k - 1) else None;
        m, q := Insert(b, c, newRte.value, before);
        InsertSources(c, q, newRte.value);
        InsertDistinct(c, q, newRte.value);
      }
      SortedHeadBest(b, m);
      HoldsReplaces(l, m, c, q, src, newRte);
    } else {
      m := Relink(b, l, k, newRte, hook);
    }
  }

  lemma RestFacts(b: Better, sorted: bool, l: seq<Rte>, k: nat, src: nat)
    requires ListOk(b, sorted, l) && k == Find(l, src)
    ensures var c := Rest(l, k);
      OnePerSource(c) && (sorted ==> SortedRoutes(b, c) && DistinctIds(c)) && (k < |l| ==> |c| + 1 == |l|) &&
      forall r :: r in c <==> r in l && r.src != src
  {
    hide SortedRoutes;
    var c := Rest(l, k);
    if k < |l| {
      RemoveSorted(b, l, k);
      forall j | 0 <= j < |c| ensures c[j] == l[if j < k then j else j + 1] {
      }
      forall r | r in l && r.src != src ensures r in c {
        var i :| 0 <= i < |l| && l[i] == r;
        assert c[if i < k then i else i - 1] == r;
      }
    }
  }

  lemma InsertDistinct(l: seq<Rte>, k: nat, r: Rte)
    requires k <= |l| && DistinctIds(l) && forall x :: x in l ==> x.id != r.id
    ensures DistinctIds(InsertAt(l, k, r))
  {
    var m := InsertAt(l, k, r);
    forall j | 0 <= j < |m| ensures m[j] == if j == k then r else l[if j < k then j else j - 1] {
    }
    forall i, j | 0 <= i < j < |m| ensures m[i].id != m[j].id {
      if i == k {
        assert m[j] in l;
      } else if j == k {
        assert m[i] in l;
      }
    }
  }

  lemma HoldsReplaces(l: seq<Rte>, m: seq<Rte>, c: seq<Rte>, q: nat, src: nat, newRte: Option<Rte>)
    requires Holds(m, c, q, newRte) && (forall r :: r in c <==> r in l && r.src != src)
    ensures Replaces(l, m, src, newRte)
  {
    if newRte.Some? {
      assert m[q] == newRte.value;
      assert c == c[..q] + c[q..];
    }
  }

  // The change of a sorted list is one that the announcement of accepted routes is told of.
  lemma SortedChange(b: Better, l: seq<Rte>, m: seq<Rte>, k: nat, q: nat, src: nat, newRte: Option<Rte>)
    requires ListOk(b, true, l) && ListOk(b, true, m) && k == Find(l, src) && Holds(m, Rest(l, k), q, newRte)
    ensures var oldRte := OldOf(l, src);
      Change(l, m, Rest(l, k), k, q, oldRte, newRte, if IsValid(oldRte) && k > 0 then Some(l[k - 1]) else None)
  {
    SortedParts(b, l);
    SortedParts(b, m);
    hide Find, ListOk, ValidFirst, DistinctIds, SortedRoutes, InsertAt;
    if k < |l| {
      PutBack(l, k);
    }
  }

  lemma SortedParts(b: Better, l: seq<Rte>)
    requires ListOk(b, true, l)
    ensures ValidFirst(l) && DistinctIds(l)
  {
  }

  // Counters and limits after the update.
  lemma HooksUpdated(nets: Nets, hooks: map<nat, Hook>, n: nat, m: seq<Rte>, src: nat, newRte: Option<Rte>, h: nat, hook: Hook)
    requires HooksOk(nets, hooks) && h in hooks && OnePerSource(RoutesOf(nets, n)) && Replaces(RoutesOf(nets, n), m, src, newRte)
    requires newRte.Some? ==> newRte.value.src == src && newRte.value.sender == h
    requires var oldRte := OldOf(RoutesOf(nets, n), src);
      (oldRte.Some? ==> oldRte.value.sender == h) &&
      hook.imp == hooks[h].imp + Tally(newRte, false) - Tally(oldRte, false) &&
      hook.filt == hooks[h].filt + Tally(newRte, true) - Tally(oldRte, true)
    requires Within(hook.rx, hook.imp + hook.filt) && Within(hook.inl, hook.imp)
    ensures HooksOk(nets[n := m], hooks[h := hook])
  {
    hide Mine, Replaces, OnePerSource, OldOf, Within;
    forall g | g in hooks ensures HookOk(nets[n := m], g, hooks[h := hook][g]) {
      Counted(nets, n, m, src, newRte, g, false);
      Counted(nets, n, m, src, newRte, g, true);
      assert HookOk(nets, g, hooks[g]);
    }
  }

  // An old route is among those counted.
  lemma OldCounted(nets: Nets, n: nat, src: nat, h: nat, hook: Hook)
    requires HookOk(nets, h, hook) && OnePerSource(RoutesOf(nets, n))
    ensures var oldRte := OldOf(RoutesOf(nets, n), src);
      oldRte.Some? && oldRte.value.sender == h ==> if oldRte.value.filtered then hook.filt > 0 else hook.imp > 0
  {
    var oldRte := OldOf(RoutesOf(nets, n), src);
    OldIsOnly(RoutesOf(nets, n), src);
    if oldRte.Some? && oldRte.value.sender == h {
      InMine(nets, h, oldRte.value.filtered, n, src);
      CardWith(Mine(nets, h, oldRte.value.filtered), (n, src));
    }
  }

  class Table {
    const better: Better
    const sorted: bool
    var nets: Nets
    var hooks: map<nat, Hook>

    ghost predicate Valid()
      reads this
    {
      NetsOk(better, sorted, nets) && HooksOk(nets, hooks)
    }

    constructor (better: Better, sorted: bool)
      ensures Valid() && nets == map[] && hooks == map[] && this.better == better && this.sorted == sorted
    {
      this.better, this.sorted := better, sorted;
      nets, hooks := map[], map[];
    }

    // rte_recalculate: `same` is what rte_same says of the old and the new route, `hook` asks for
    // an election in unsorted tables
    method Recalculate(h: nat, n: nat, newRte: Option<Rte>, src: nat, same: bool, hook: bool) returns (o: Outcome)
      requires Valid() && WeakOrder(better) && h in hooks && NewFrom(newRte, RoutesOf(nets, n), src, h)
      modifies this
      ensures Valid() && hooks.Keys == old(hooks.Keys)
      ensures UpdateEffect(old(RoutesOf(nets, n)), RoutesOf(nets, n), h, old(hooks[h]), src, newRte, same, o.Ignored?)
      ensures LimitsAfter(old(RoutesOf(nets, n)), h, old(hooks[h]), hooks[h], src, newRte, same)
      ensures var l := RoutesOf(nets, n);
        forall i, j :: 0 <= i < j < |l| && (sorted || i == 0) ==> Precedes(better, l[i], l[j])
      ensures forall g :: g in hooks && g != h ==> hooks[g] == old(hooks[g])
      ensures o.Ignored? ==> nets == old(nets)
      ensures o.Changed? ==>
        nets == old(nets)[n := RoutesOf(nets, n)] && o.oldRte == OldOf(old(RoutesOf(nets, n)), src) &&
        Replaces(old(RoutesOf(nets, n)), RoutesOf(nets, n), src, o.newRte)
      ensures o == Ignored <==> Ignores(old(RoutesOf(nets, n)), h, src, newRte, same) ||
                                Judge(old(hooks[h]), OldOf(old(RoutesOf(nets, n)), src), newRte) == Drop
      ensures o.Changed? ==> Judge(old(hooks[h]), o.oldRte, newRte) == Go(o.newRte)
      ensures o.Changed? && sorted ==> exists c, p, q ::
        Change(old(RoutesOf(nets, n)), RoutesOf(nets, n), c, p, q, o.oldRte, o.newRte, o.before)
    {
      hide WeakOrder, ListOk, Judge, Replaces, OnePerSource, Change, UpdateEffect, LimitsAsked, LimitsAfter, Ignores, NetsOk, HooksOk, OldOf;
      ghost var l, hk := RoutesOf(nets, n), hooks[h];
      assert OnePerSource(l) by {
        ListHere(better, sorted, nets, n);
        ListSources(better, sorted, l);
      }
      o := ReplaceRoute(h, n, newRte, src, same, hook);
      UpdateMeans(l, RoutesOf(nets, n), h, hk, src, newRte, same, o);
      LimitsMean(l, h, hk, hooks[h], src, newRte, same);
      OrderHere(n);
    }

    lemma OrderHere(n: nat)
      requires Valid()
      ensures var l := RoutesOf(nets, n);
        forall i, j :: 0 <= i < j < |l| && (sorted || i == 0) ==> Precedes(better, l[i], l[j])
    {
      hide HooksOk;
      ListHere(better, sorted, nets, n);
      ListMeans(better, RoutesOf(nets, n));
    }

    method ReplaceRoute(h: nat, n: nat, newRte: Option<Rte>, src: nat, same: bool, hook: bool) returns (o: Outcome)
      requires Valid() && WeakOrder(better) && h in hooks && NewFrom(newRte, RoutesOf(nets, n), src, h)
      modifies this
      ensures Valid() && hooks.Keys == old(hooks.Keys)
      ensures forall g :: g in hooks && g != h ==> hooks[g] == old(hooks[g])
      ensures var l := old(RoutesOf(nets, n));
        if Ignores(l, h, src, newRte, same) then hooks == old(hooks) else LimitsAsked(old(hooks[h]), OldOf(l, src), newRte, hooks[h])
      ensures o.Ignored? ==> nets == old(nets)
      ensures o.Changed? ==>
        nets == old(nets)[n := RoutesOf(nets, n)] && o.oldRte == OldOf(old(RoutesOf(nets, n)), src) &&
        Replaces(old(RoutesOf(nets, n)), RoutesOf(nets, n), src, o.newRte)
      ensures o == Ignored <==> Ignores(old(RoutesOf(nets, n)), h, src, newRte, same) ||
                                Judge(old(hooks[h]), OldOf(old(RoutesOf(nets, n)), src), newRte) == Drop
      ensures o.Changed? ==> Judge(old(hooks[h]), o.oldRte, newRte) == Go(o.newRte)
      ensures o.Changed? && sorted ==> exists c, p, q ::
        Change(old(RoutesOf(nets, n)), RoutesOf(nets, n), c, p, q, o.oldRte, o.newRte, o.before)
    {
      hide LimitsAsked;
      hide WeakOrder, ListOk, Find, HookOk, Judge, Replaces, Within, OnePerSource, Mine, Change, Holds;
      var l := RoutesOf(nets, n);
      assert ListOk(better, sorted, l) by { ListHere(better, sorted, nets, n); }
      assert OnePerSource(l) by { ListSources(better, sorted, l); }
      var k := Unlink(l, src);
      var oldRte := if k < |l| then Some(l[k]) else None;
      if oldRte.Some? && (oldRte.value.sender != h || (newRte.Some? && same)) {
        return Ignored;
      }
      if oldRte.None? && newRte.None? {
        return Ignored;
      }
      OldCounted(nets, n, src, h, hooks[h]);
      HookHere(nets, h, hooks);
      var hk, v := Account(hooks[h], oldRte, newRte);
      if v.Drop? {
        SameCounts(nets, hooks, h, hk);
        hooks := hooks[h := hk];
        return Ignored;
      }
      JudgedFrom(hooks[h], oldRte, newRte, l, src, h);
      var m, q := UpdateList(better, sorted, l, k, src, v.newRte, hook);
      HooksUpdated(nets, hooks, n, m, src, v.newRte, h, hk);
      if sorted {
        SortedChange(better, l, m, k, q, src, v.newRte);
      }
      NetUpdated(better, sorted, nets, n, m);
      nets := nets[n := m];
      hooks := hooks[h := hk];
      o := Changed(oldRte, v.newRte, if IsValid(oldRte) && k > 0 then Some(l[k - 1]) else None);
    }

    // An update of a sorted table and its announcement to a protocol that is told of accepted
    // routes: the protocol hears exactly of changes of the first route its filter accepts.
    method UpdateSorted(h: nat, n: nat, newRte: Option<Rte>, src: nat, same: bool, accept: Accept)
      returns (r: Option<(Option<Rte>, Option<Rte>)>)
      requires Valid() && sorted && WeakOrder(better) && h in hooks && NewFrom(newRte, RoutesOf(nets, n), src, h)
      modifies this
      ensures Valid() && exists ignored ::
        UpdateEffect(old(RoutesOf(nets, n)), RoutesOf(nets, n), h, old(hooks[h]), src, newRte, same, ignored)
      ensures var was, l := FirstAccepted(accept, old(RoutesOf(nets, n))), FirstAccepted(accept, RoutesOf(nets, n));
        r == if was == l then None else Some((l, was))
    {
      hide WeakOrder, Valid, Judge, Replaces, FirstAccepted, Change, UpdateEffect, LimitsAfter;
      ghost var was := RoutesOf(nets, n);
      assert ListOk(better, sorted, was) by { ValidLists(n); }
      var o := Recalculate(h, n, newRte, src, same, false);
      if o.Ignored? {
        return None;
      }
      var l := RoutesOf(nets, n);
      assert ListOk(better, sorted, l) by { ValidLists(n); }
      ghost var c, p, q :| Change(was, l, c, p, q, o.oldRte, o.newRte, o.before);
      JudgedFrom(old(hooks[h]), o.oldRte, newRte, was, src, h);
      NotAmongOthers(better, was, l, c, p, q, o.oldRte, o.newRte, o.before, src);
      if !IsValid(o.oldRte) && !IsValid(o.newRte) {
        InvalidChange(accept, was, l, c, p, q, o.oldRte, o.newRte, o.before);
        return None;
      }
      r := NotifyAccepted(accept, l, o.newRte, o.oldRte, o.before, Update, was, c, p, q);
    }

    lemma ValidLists(n: nat)
      requires Valid()
      ensures ListOk(better, sorted, RoutesOf(nets, n))
    {
    }
  }

  lemma NewIsApart(l: seq<Rte>, c: seq<Rte>, q: nat, r: Rte)
    requires Holds(l, c, q, Some(r)) && DistinctIds(l)
    ensures r !in c
  {
    forall j | 0 <= j < |c| ensures c[j] != r {
      assert l[q] == r;
      assert l[if j < q then j else j + 1] == c[j];
    }
  }

  lemma OldIsGone(was: seq<Rte>, l: seq<Rte>, src: nat, newRte: Option<Rte>, r: Rte)
    requires Replaces(was, l, src, newRte) && r in was && r.src == src
    requires newRte.Some? ==> forall x :: x in was ==> x.id != newRte.value.id
    ensures r !in l
  {
  }

  // The new route is not among the others, the old one is gone.
  lemma NotAmongOthers(b: Better, was: seq<Rte>, l: seq<Rte>, c: seq<Rte>, p: nat, q: nat, oldRte: Option<Rte>, newRte: Option<Rte>,
                       before: Option<Rte>, src: nat)
    requires Change(was, l, c, p, q, oldRte, newRte, before) && Replaces(was, l, src, newRte) && DistinctIds(l)
    requires oldRte == OldOf(was, src) && (newRte.Some? ==> forall r :: r in was ==> r.id != newRte.value.id)
    ensures newRte.Some? ==> newRte.value !in c
    ensures oldRte.Some? ==> oldRte.value !in l
  {
    hide Holds, DistinctIds, Replaces, ValidFirst;
    if newRte.Some? {
      NewIsApart(l, c, q, newRte.value);
    }
    if oldRte.Some? {
      OldIsGone(was, l, src, newRte, oldRte.value);
    }
  }

  lemma InvalidChange(accept: Accept, was: seq<Rte>, l: seq<Rte>, c: seq<Rte>, p: nat, q: nat, oldRte: Option<Rte>, newRte: Option<Rte>,
                      before: Option<Rte>)
    requires Change(was, l, c, p, q, oldRte, newRte, before) && !IsValid(oldRte) && !IsValid(newRte)
    ensures FirstAccepted(accept, was) == FirstAccepted(accept, l)
  {
    FirstWith(accept, was, c, p, oldRte);
    FirstWith(accept, l, c, q, newRte);
  }

  // A new route comes from the hook and source and is a new object.
  predicate NewFrom(newRte: Option<Rte>, l: seq<Rte>, src: nat, h: nat) {
    newRte.Some? ==> newRte.value.src == src && newRte.value.sender == h && forall r :: r in l ==> r.id != newRte.value.id
  }

  // Updates of a source that another hook sent, without change, or of nothing.
  predicate Ignores(l: seq<Rte>, h: nat, src: nat, newRte: Option<Rte>, same: bool) {
    var oldRte := OldOf(l, src);
    if oldRte.Some? then oldRte.value.sender != h || (newRte.Some? && same) else newRte.None?
  }

  lemma ListHere(b: Better, sorted: bool, nets: Nets, n: nat)
    requires NetsOk(b, sorted, nets)
    ensures ListOk(b, sorted, RoutesOf(nets, n))
  {
  }

  lemma ListSources(b: Better, sorted: bool, l: seq<Rte>)
    requires ListOk(b, sorted, l)
    ensures OnePerSource(l)
  {
  }

  lemma HookHere(nets: Nets, h: nat, hooks: map<nat, Hook>)
    requires HooksOk(nets, hooks) && h in hooks
    ensures Within(hooks[h].rx, hooks[h].imp + hooks[h].filt) && Within(hooks[h].inl, hooks[h].imp)
  {
  }

  lemma SameCounts(nets: Nets, hooks: map<nat, Hook>, h: nat, hk: Hook)
    requires HooksOk(nets, hooks) && h in hooks && hk.imp == hooks[h].imp && hk.filt == hooks[h].filt
    requires Within(hk.rx, hk.imp + hk.filt) && Within(hk.inl, hk.imp)
    ensures HooksOk(nets, hooks[h := hk])
  {
    assert HookOk(nets, h, hooks[h]);
  }

  lemma JudgedFrom(hook: Hook, oldRte: Option<Rte>, newRte: Option<Rte>, l: seq<Rte>, src: nat, h: nat)
    requires NewFrom(newRte, l, src, h) && Judge(hook, oldRte, newRte).Go?
    ensures NewFrom(Judge(hook, oldRte, newRte).newRte, l, src, h)
    ensures oldRte.None? && newRte.Some? ==> Judge(hook, oldRte, newRte).newRte.Some?
  {
  }

  lemma NetUpdated(b: Better, sorted: bool, nets: Nets, n: nat, m: seq<Rte>)
    requires NetsOk(b, sorted, nets) && ListOk(b, sorted, m)
    ensures NetsOk(b, sorted, nets[n := m])
  {
  }
}
