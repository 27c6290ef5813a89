/**
 * The list of routes of one net (nest/rt-table.c): the best route is at its head, and in sorted
 * tables the whole list is sorted. Incremental insertion, election of the best route, and the
 * incremental announcement of the first route a protocol accepts.
 */
module RtLists {

  import opened Options
  import opened Lists

  // `id` tells route objects apart; `src` is the route source and `sender` the announce hook;
  // `filtered` is REF_FILTERED.
  datatype Rte = Rte(id: nat, src: nat, sender: nat, filtered: bool, pref: nat, proto: nat, attrs: nat)

  // The rte_better hooks of the protocols.
  type Better = (Rte, Rte) -> bool

  predicate IsValid(r: Option<Rte>) {
    r.Some? && !r.value.filtered
  }

  // rte_better: actually better, or nothing to compare with
  predicate RteBetter(b: Better, x: Option<Rte>, y: Option<Rte>) {
    if !IsValid(y) then true
    else if !IsValid(x) then false
    else if x.value.pref != y.value.pref then x.value.pref > y.value.pref
    else if x.value.proto != y.value.proto then x.value.proto > y.value.proto
    else b(x.value, y.value)
  }

  // What rte_better is asked of two valid routes.
  predicate Beats(b: Better, x: Rte, y: Rte) {
    if x.pref != y.pref then x.pref > y.pref
    else if x.proto != y.proto then x.proto > y.proto
    else b(x, y)
  }

  predicate SameClass(x: Rte, y: Rte) {
    x.pref == y.pref && x.proto == y.proto
  }

  // Each hook is a strict weak order on the valid routes of its protocol.
  ghost predicate WeakOrder(b: Better) {
    (forall x, y :: SameClass(x, y) && !x.filtered && !y.filtered && b(x, y) ==> !b(y, x)) &&
    (forall x, y, z :: SameClass(x, y) && SameClass(y, z) && !x.filtered && !y.filtered && !z.filtered && b(x, z) ==> b(x, y) || b(y, z))
  }

  // Preference and protocol extend the order of the hooks to all valid routes.
  lemma BeatsIsOrder(b: Better, x: Rte, y: Rte, z: Rte)
    requires WeakOrder(b) && !x.filtered && !y.filtered && !z.filtered
    ensures !(Beats(b, x, y) && Beats(b, y, x))
    ensures Beats(b, x, z) ==> Beats(b, x, y) || Beats(b, y, z)
    ensures Beats(b, x, y) && Beats(b, y, z) ==> Beats(b, x, z)
  {
    assert SameClass(x, y) && SameClass(y, x) ==> !(b(x, y) && b(y, x));
    assert SameClass(x, y) && SameClass(y, z) && b(x, z) ==> b(x, y) || b(y, z);
    assert SameClass(x, z) && SameClass(z, y) && b(x, y) ==> b(x, z) || b(z, y);
    assert SameClass(z, y) && SameClass(y, z) ==> !(b(z, y) && b(y, z));
  }

  // x may stand before y: a filtered route only before filtered ones, otherwise by preference, then
  // by protocol, then as the protocol's hook says.
  predicate Precedes(b: Better, x: Rte, y: Rte) {
    y.filtered ||
    (!x.filtered &&
     (x.pref > y.pref || (x.pref == y.pref && (x.proto > y.proto || (x.proto == y.proto && !b(y, x))))))
  }

  // The head precedes all routes of the list, in sorted lists everyone those behind it.
  lemma ListMeans(b: Better, l: seq<Rte>)
    ensures HeadBest(b, l) ==> forall j :: 0 < j < |l| ==> Precedes(b, l[0], l[j])
    ensures SortedRoutes(b, l) ==> forall i, j :: 0 <= i < j < |l| ==> Precedes(b, l[i], l[j])
  {
  }

  /* ---------- What is kept ---------- */

  predicate OnePerSource(l: seq<Rte>) {
    forall i, j :: 0 <= i < j < |l| ==> l[i].src != l[j].src
  }

  predicate ValidFirst(l: seq<Rte>) {
    forall i, j :: 0 <= i < j < |l| && !l[j].filtered ==> !l[i].filtered
  }

  predicate InOrder(b: Better, l: seq<Rte>) {
    forall i, j :: 0 <= i < j < |l| && !l[i].filtered && !l[j].filtered ==> !Beats(b, l[j], l[i])
  }

  predicate SortedRoutes(b: Better, l: seq<Rte>) {
    ValidFirst(l) && InOrder(b, l)
  }

  // No valid route beats the head, and the head is valid if any route is.
  predicate HeadBest(b: Better, l: seq<Rte>) {
    forall j :: 0 <= j < |l| && !l[j].filtered ==> !l[0].filtered && !Beats(b, l[j], l[0])
  }

  lemma SortedHeadBest(b: Better, l: seq<Rte>)
    requires WeakOrder(b) && SortedRoutes(b, l)
    ensures HeadBest(b, l)
  {
    forall j | 0 <= j < |l| && !l[j].filtered ensures !l[0].filtered && !Beats(b, l[j], l[0]) {
      if j == 0 {
        BeatsIsOrder(b, l[0], l[0], l[0]);
      }
    }
  }

  // Where a route of the source is, or the length of the list.
  function Find(l: seq<Rte>, src: nat): (k: nat)
    ensures k <= |l| && (k < |l| ==> l[k].src == src) && forall j :: 0 <= j < k ==> l[j].src != src
  {
    if l == [] || l[0].src == src then 0 else 1 + Find(l[1..], src)
  }

  // The place of a new route in a sorted list: before the first one it is better than.
  predicate PlaceOf(b: Better, l: seq<Rte>, r: Rte, k: nat) {
    k <= |l| && (forall j :: 0 <= j < k ==> !RteBetter(b, Some(r), Some(l[j]))) &&
    (k < |l| ==> RteBetter(b, Some(r), Some(l[k])))
  }

  lemma RemoveSorted(b: Better, l: seq<Rte>, k: nat)
    requires k < |l|
    ensures SortedRoutes(b, l) ==> SortedRoutes(b, RemoveAt(l, k))
    ensures OnePerSource(l) ==> OnePerSource(RemoveAt(l, k))
    ensures HeadBest(b, l) && k > 0 ==> HeadBest(b, RemoveAt(l, k))
    ensures OnePerSource(l) ==> forall r :: r in RemoveAt(l, k) ==> r.src != l[k].src
  {
    var m := RemoveAt(l, k);
    forall j | 0 <= j < |m| ensures m[j] == l[if j < k then j else j + 1] {
    }
  }

  lemma InsertSources(l: seq<Rte>, k: nat, r: Rte)
    requires k <= |l| && OnePerSource(l) && forall q :: q in l ==> q.src != r.src
    ensures OnePerSource(InsertAt(l, k, r))
  {
    var m := InsertAt(l, k, r);
    forall j | 0 <= j < |m| ensures m[j] == if j == k then r else l[if j < k then j else j - 1] {
    }
    forall i, j | 0 <= i < j < |m| ensures m[i].src != m[j].src {
      if i == k {
        assert m[j] in l;
      } else if j == k {
        assert m[i] in l;
      }
    }
  }

  lemma InsertSorted(b: Better, l: seq<Rte>, k: nat, r: Rte)
    requires WeakOrder(b) && SortedRoutes(b, l) && PlaceOf(b, l, r, k)
    ensures SortedRoutes(b, InsertAt(l, k, r))
  {
    hide WeakOrder, Beats;
    var m := InsertAt(l, k, r);
    forall j | 0 <= j < |m| ensures m[j] == if j == k then r else l[if j < k then j else j - 1] {
    }
    forall i, j | 0 <= i < j < |m| && !m[j].filtered ensures !m[i].filtered && !Beats(b, m[j], m[i]) {
      if i == k {
        PlaceAhead(b, l, k, r, j - 1);
      } else if j == k {
        PlaceBehind(b, l, k, r, i);
      }
    }
  }

  // Routes after the place do not beat the new one.
  lemma PlaceAhead(b: Better, l: seq<Rte>, k: nat, r: Rte, j: nat)
    requires WeakOrder(b) && SortedRoutes(b, l) && PlaceOf(b, l, r, k) && k <= j < |l| && !l[j].filtered
    ensures !r.filtered && !Beats(b, l[j], r)
  {
    assert !l[k].filtered;
    BeatsIsOrder(b, r, l[k], l[j]);
    BeatsIsOrder(b, l[j], r, l[k]);
  }

  lemma PlaceBehind(b: Better, l: seq<Rte>, k: nat, r: Rte, i: nat)
    requires SortedRoutes(b, l) && PlaceOf(b, l, r, k) && i < k && !r.filtered
    ensures !l[i].filtered && !Beats(b, r, l[i])
  {
    assert !RteBetter(b, Some(r), Some(l[i]));
  }

  // Starting the search after a route that the new one does not beat finds the same place.
  lemma SkipAhead(b: Better, l: seq<Rte>, r: Rte, p: nat)
    requires WeakOrder(b) && SortedRoutes(b, l) && p < |l| && !RteBetter(b, Some(r), Some(l[p]))
    ensures forall j :: 0 <= j <= p ==> !RteBetter(b, Some(r), Some(l[j]))
  {
    hide WeakOrder, Beats;
    forall j | 0 <= j <= p ensures !RteBetter(b, Some(r), Some(l[j])) {
      SkipOne(b, l, r, p, j);
    }
  }

  lemma SkipOne(b: Better, l: seq<Rte>, r: Rte, p: nat, j: nat)
    requires WeakOrder(b) && SortedRoutes(b, l) && j <= p < |l| && !RteBetter(b, Some(r), Some(l[p]))
    ensures !RteBetter(b, Some(r), Some(l[j]))
  {
    assert !l[j].filtered && !l[p].filtered;
    if !r.filtered {
      BeatsIsOrder(b, r, l[p], l[j]);
    }
  }

  /* ---------- Changing the list ---------- */

  // Sorted tables: the search for the place starts after the route that preceded the old one.
  method Insert(b: Better, l: seq<Rte>, r: Rte, before: Option<nat>) returns (m: seq<Rte>, ghost k: nat)
    requires WeakOrder(b) && SortedRoutes(b, l) && (before.Some? ==> before.value < |l|)
    ensures k <= |l| && PlaceOf(b, l, r, k) && m == InsertAt(l, k, r) && SortedRoutes(b, m)
  {
    hide WeakOrder, SortedRoutes, RteBetter;
    var i := 0;
    if before.Some? && !RteBetter(b, Some(r), Some(l[before.value])) {
      SkipAhead(b, l, r, before.value);
      i := before.value + 1;
    }
    while i < |l| && !RteBetter(b, Some(r), Some(l[i]))
      invariant 0 <= i <= |l| && forall j :: 0 <= j < i ==> !RteBetter(b, Some(r), Some(l[j]))
    {
      i := i + 1;
    }
    k := i;
    m := l[..i] + [r] + l[i..];
    InsertSorted(b, l, k, r);
  }

  // Unsorted tables: the route that nothing beats goes to the head.
  method Elect(b: Better, l: seq<Rte>) returns (m: seq<Rte>)
    requires WeakOrder(b) && OnePerSource(l)
    ensures HeadBest(b, m) && OnePerSource(m) && |m| == |l| && forall r :: r in m <==> r in l
  {
    hide WeakOrder, RteBetter, BestUpTo, OnePerSource, HeadBest;
    if l == [] {
      assert HeadBest(b, l) by { EmptyBest(b); }
      return l;
    }
    var best, i := 0, 1;
    FirstBest(b, l);
    while i < |l|
      invariant 0 <= best < i <= |l| && BestUpTo(b, l, i, best)
    {
      BestStep(b, l, i, best);
      if RteBetter(b, Some(l[i]), Some(l[best])) {
        best := i;
      }
      i := i + 1;
    }
    m := [l[best]] + (l[..best] + l[best + 1..]);
    Elected(b, l, best);
  }

  lemma Elected(b: Better, l: seq<Rte>, best: nat)
    requires best < |l| && BestUpTo(b, l, |l|, best) && OnePerSource(l)
    ensures var m := [l[best]] + (l[..best] + l[best + 1..]);
      HeadBest(b, m) && OnePerSource(m) && |m| == |l| && forall r :: r in m <==> r in l
  {
    hide OnePerSource, BestUpTo, HeadBest, RteBetter;
    var rest := l[..best] + l[best + 1..];
    RemoveSorted(b, l, best);
    InsertSources(rest, 0, l[best]);
    assert [l[best]] + rest == InsertAt(rest, 0, l[best]);
    BestHead(b, l, best, [l[best]] + rest);
  }

  lemma EmptyBest(b: Better)
    ensures HeadBest(b, [])
  {
  }

  predicate BestUpTo(b: Better, l: seq<Rte>, i: nat, best: nat)
    requires best < |l| && i <= |l|
  {
    forall j :: 0 <= j < i && !l[j].filtered ==> !l[best].filtered && !Beats(b, l[j], l[best])
  }

  lemma FirstBest(b: Better, l: seq<Rte>)
    requires WeakOrder(b) && l != []
    ensures BestUpTo(b, l, 1, 0)
  {
    if !l[0].filtered {
      BeatsIsOrder(b, l[0], l[0], l[0]);
    }
  }

  lemma BestStep(b: Better, l: seq<Rte>, i: nat, best: nat)
    requires WeakOrder(b) && best < i < |l| && BestUpTo(b, l, i, best)
    ensures BestUpTo(b, l, i + 1, if RteBetter(b, Some(l[i]), Some(l[best])) then i else best)
  {
    forall j | 0 <= j <= i && !l[j].filtered && !l[i].filtered && !l[best].filtered
      ensures Beats(b, l[i], l[best]) && !Beats(b, l[j], l[best]) ==> !Beats(b, l[j], l[i])
      ensures !Beats(b, l[i], l[i])
    {
      BeatsIsOrder(b, l[j], l[i], l[best]);
      BeatsIsOrder(b, l[i], l[i], l[i]);
    }
  }

  lemma BestHead(b: Better, l: seq<Rte>, best: nat, m: seq<Rte>)
    requires best < |l| && BestUpTo(b, l, |l|, best) && m == [l[best]] + (l[..best] + l[best + 1..])
    ensures HeadBest(b, m) && forall r :: r in m <==> r in l
  {
    forall j | 0 <= j < |m| ensures m[j] in l {
      assert m[j] == l[if j == 0 then best else if j <= best then j - 1 else j];
    }
    forall j | 0 <= j < |l| ensures l[j] in m {
      assert l[j] == m[if j == best then 0 else if j < best then j + 1 else j];
    }
  }

  /* ---------- One update of the list ---------- */

  // Place of the old route of the source, and the list without it.
  method Unlink(l: seq<Rte>, src: nat) returns (k: nat)
    ensures k == Find(l, src)
  {
    k := 0;
    while k < |l| && l[k].src != src
      invariant 0 <= k <= |l| && forall j :: 0 <= j < k ==> l[j].src != src
    {
      k := k + 1;
    }
    FindIs(l, src, k);
  }

  lemma {:induction false} FindIs(l: seq<Rte>, src: nat, k: nat)
    requires k <= |l| && (k < |l| ==> l[k].src == src) && forall j :: 0 <= j < k ==> l[j].src != src
    ensures Find(l, src) == k
  {
    if k > 0 {
      assert l[0].src != src;
      FindIs(l[1..], src, k - 1);
    }
  }

  // The list without the old route of the source.
  function Rest(l: seq<Rte>, k: nat): seq<Rte>
    requires k <= |l|
  {
    if k < |l| then RemoveAt(l, k) else l
  }

  // Unsorted tables: three ways to keep the best route first. `hook` is the protocol's own
  // rte_recalculate asking for an election.
  method Relink(b: Better, l: seq<Rte>, k: nat, newRte: Option<Rte>, hook: bool) returns (m: seq<Rte>)
    requires WeakOrder(b) && OnePerSource(l) && HeadBest(b, l) && k <= |l| && (k < |l| || newRte.Some?)
    requires newRte.Some? ==> forall r :: r in Rest(l, k) ==> r.src != newRte.value.src
    ensures HeadBest(b, m) && OnePerSource(m)
    ensures forall r :: r in m <==> r in Rest(l, k) || newRte == Some(r)
  {
    hide WeakOrder, OnePerSource, HeadBest, RteBetter;
    var rest := Rest(l, k);
    RestKept(b, l, k);
    var oldBest := if l == [] then None else Some(l[0]);
    if !hook && newRte.Some? && RteBetter(b, newRte, oldBest) {
      m := [newRte.value] + rest;
      NewBest(b, l, k, newRte.value);
      InsertSources(rest, 0, newRte.value);
      assert m == InsertAt(rest, 0, newRte.value);
    } else if hook || k == 0 {
      var all := rest;
      if newRte.Some? {
        all := [newRte.value] + rest;
        InsertSources(rest, 0, newRte.value);
        assert all == InsertAt(rest, 0, newRte.value);
      }
      m := Elect(b, all);
    } else if newRte.Some? {
      SecondOk(b, l, k, newRte.value);
      m := [rest[0], newRte.value] + rest[1..];
      InsertSources(rest, 1, newRte.value);
      assert m == InsertAt(rest, 1, newRte.value);
      assert rest == [rest[0]] + rest[1..];
    } else {
      m := rest;
    }
  }

  lemma RestKept(b: Better, l: seq<Rte>, k: nat)
    requires k <= |l| && OnePerSource(l) && HeadBest(b, l)
    ensures OnePerSource(Rest(l, k)) && (k > 0 ==> HeadBest(b, Rest(l, k)))
  {
    if k < |l| {
      RemoveSorted(b, l, k);
    }
  }

  lemma BeatenByNew(b: Better, l: seq<Rte>, i: nat, r: Rte)
    requires WeakOrder(b) && HeadBest(b, l) && i < |l| && !l[i].filtered && RteBetter(b, Some(r), Some(l[0]))
    ensures !r.filtered && !Beats(b, l[i], r)
  {
    BeatsIsOrder(b, l[i], r, l[0]);
  }

  // A route better than the old best beats every route that is left.
  lemma NewBest(b: Better, l: seq<Rte>, k: nat, r: Rte)
    requires WeakOrder(b) && HeadBest(b, l) && k <= |l|
    requires RteBetter(b, Some(r), if l == [] then None else Some(l[0]))
    ensures HeadBest(b, [r] + Rest(l, k))
  {
    if !r.filtered {
      BeatsIsOrder(b, r, r, r);
    }
    var m := [r] + Rest(l, k);
    forall j | 0 <= j < |m| && !m[j].filtered ensures !m[0].filtered && !Beats(b, m[j], m[0]) {
      hide WeakOrder, HeadBest, Beats, RteBetter;
      if j > 0 {
        var i := if j - 1 < k then j - 1 else j;
        assert m[j] == l[i];
        BeatenByNew(b, l, i, r);
      }
    }
  }

  // A route not better than the best, which stays, goes behind it.
  lemma SecondOk(b: Better, l: seq<Rte>, k: nat, r: Rte)
    requires HeadBest(b, l) && 0 < k <= |l| && !RteBetter(b, Some(r), Some(l[0]))
    ensures Rest(l, k) != [] && HeadBest(b, [Rest(l, k)[0], r] + Rest(l, k)[1..])
  {
    var m := [Rest(l, k)[0], r] + Rest(l, k)[1..];
    forall j | 0 <= j < |m| && !m[j].filtered ensures !m[0].filtered && !Beats(b, m[j], m[0]) {
      if j != 1 {
        var i := if j == 0 then 0 else if j - 1 < k then j - 1 else j;
        assert m[j] == l[i];
      }
    }
  }

  /* ---------- Announcing the first accepted route ---------- */

  // What an export filter does with a route.
  type Accept = Rte -> bool

  predicate Accepted(accept: Accept, r: Rte) {
    !r.filtered && accept(r)
  }

  // Index of the first valid route that the filter accepts, or the length of the list.
  function AcceptIndex(accept: Accept, l: seq<Rte>): (k: nat)
    ensures k <= |l| && (k < |l| ==> Accepted(accept, l[k])) && forall j :: 0 <= j < k ==> !Accepted(accept, l[j])
  {
    if l == [] || Accepted(accept, l[0]) then 0 else 1 + AcceptIndex(accept, l[1..])
  }

  function FirstAccepted(accept: Accept, l: seq<Rte>): Option<Rte> {
    var k := AcceptIndex(accept, l);
    if k < |l| then Some(l[k]) else None
  }

  lemma {:induction false} AcceptIs(accept: Accept, l: seq<Rte>, k: nat)
    requires k <= |l| && (k < |l| ==> Accepted(accept, l[k])) && forall j :: 0 <= j < k ==> !Accepted(accept, l[j])
    ensures AcceptIndex(accept, l) == k
  {
    if k > 0 {
      assert !Accepted(accept, l[0]);
      AcceptIs(accept, l[1..], k - 1);
    }
  }

  // The list before or after a change: the unchanged routes c with r, if any, at place k.
  predicate Holds(l: seq<Rte>, c: seq<Rte>, k: nat, r: Option<Rte>) {
    k <= |c| && l == if r.Some? then InsertAt(c, k, r.value) else c
  }

  // A route in a list matters to the first accepted one when it stands before the first of the others.
  lemma InsertAccepted(accept: Accept, l: seq<Rte>, c: seq<Rte>, k: nat, r: Option<Rte>)
    requires Holds(l, c, k, r)
    ensures var a := AcceptIndex(accept, c);
      AcceptIndex(accept, l) ==
        if r.Some? && k <= a && Accepted(accept, r.value) then k else if r.Some? && k <= a then a + 1 else a
  {
    var a := AcceptIndex(accept, c);
    if r.Some? {
      var i := if k <= a && Accepted(accept, r.value) then k else if k <= a then a + 1 else a;
      forall j | 0 <= j < |l| ensures l[j] == if j == k then r.value else c[if j < k then j else j - 1] {
      }
      AcceptIs(accept, l, i);
    }
  }

  // The change that rte_announce tells of: invalid routes are passed as none, and `before` is the
  // route that preceded a valid old one.
  ghost predicate Change(was: seq<Rte>, l: seq<Rte>, c: seq<Rte>, p: nat, q: nat, oldRte: Option<Rte>, newRte: Option<Rte>,
                         before: Option<Rte>)
  {
    Holds(was, c, p, oldRte) && Holds(l, c, q, newRte) && ValidFirst(was) && ValidFirst(l) && DistinctIds(l) &&
    before == if IsValid(oldRte) && p > 0 then Some(c[p - 1]) else None
  }

  predicate DistinctIds(l: seq<Rte>) {
    forall i, j :: 0 <= i < j < |l| ==> l[i].id != l[j].id
  }

  // Where the route that preceded the old one is now.
  lemma BeforeAt(was: seq<Rte>, l: seq<Rte>, c: seq<Rte>, p: nat, q: nat, oldRte: Option<Rte>, newRte: Option<Rte>, before: Option<Rte>)
    requires Change(was, l, c, p, q, oldRte, newRte, before) && before.Some?
    ensures var i := if newRte.Some? && q <= p - 1 then p else p - 1;
      i < |l| && l[i] == before.value && !before.value.filtered && forall j :: 0 <= j < |l| && l[j] == before.value ==> j == i
  {
    assert was[p] == oldRte.value && was[p - 1] == c[p - 1];
  }

  // Index of the route that preceded the old one, or past the end if there is none.
  predicate BeforeIndex(l: seq<Rte>, before: Option<Rte>, bp: nat) {
    if before.None? then bp == |l| else bp < |l| && l[bp] == before.value && forall j :: 0 <= j < |l| && l[j] == before.value ==> j == bp
  }

  // Routes up to i have been rejected.
  predicate Rejected(accept: Accept, l: seq<Rte>, from: nat, i: nat)
    requires i <= |l|
  {
    forall j :: from <= j < i ==> !Accepted(accept, l[j])
  }

  lemma RestRejected(accept: Accept, l: seq<Rte>, from: nat, i: nat)
    requires i <= |l| && ValidFirst(l) && Rejected(accept, l, from, i) && (i < |l| ==> l[i].filtered)
    ensures Rejected(accept, l, from, |l|)
  {
  }

  // The first pass: the new best route, and whether the place of the old route was passed.
  method FindNewBest(accept: Accept, l: seq<Rte>, oldChanged: Option<Rte>, before: Option<Rte>, ghost bp: nat)
    returns (i: nat, oldMeet: bool)
    requires ValidFirst(l) && BeforeIndex(l, before, bp)
    ensures i == AcceptIndex(accept, l)
    ensures bp < |l| && !l[bp].filtered ==> (oldMeet <==> oldChanged.Some? && bp < i)
    ensures before.None? ==> (oldMeet <==> oldChanged.Some?)
  {
    oldMeet := oldChanged.Some? && before.None?;
    i := 0;
    while i < |l| && !l[i].filtered && !accept(l[i])
      invariant 0 <= i <= |l| && Rejected(accept, l, 0, i)
      invariant oldMeet <==> oldChanged.Some? && (before.None? || bp < i)
    {
      if oldChanged.Some? && before == Some(l[i]) {
        oldMeet := true;
      }
      i := i + 1;
    }
    if i < |l| && l[i].filtered {
      RestRejected(accept, l, 0, i);
      i := |l|;
    }
    AcceptIs(accept, l, i);
  }

  // The second pass, after the new route: the next accepted route, or the old one if its place comes first.
  method FindOldBest(accept: Accept, l: seq<Rte>, from: nat, oldChanged: Option<Rte>, before: Option<Rte>, ghost bp: nat)
    returns (r: Option<Rte>, ghost k: nat)
    requires ValidFirst(l) && BeforeIndex(l, before, bp) && from <= |l| && (before.Some? ==> !before.value.filtered)
    ensures from <= k <= |l| && Rejected(accept, l, from, k)
    ensures before.Some? && from <= bp < k && oldChanged.Some? && accept(oldChanged.value) ==> r == oldChanged && k == bp + 1
    ensures !(before.Some? && from <= bp < k && oldChanged.Some? && accept(oldChanged.value)) ==>
      if k < |l| then Accepted(accept, l[k]) && r == Some(l[k]) else r == None
  {
    var i := from;
    while i < |l| && !l[i].filtered
      invariant from <= i <= |l| && Rejected(accept, l, from, i)
      invariant before.Some? && from <= bp < i && oldChanged.Some? ==> !accept(oldChanged.value)
    {
      if accept(l[i]) {
        return Some(l[i]), i;
      }
      if before == Some(l[i]) && oldChanged.Some? && accept(oldChanged.value) {
        return oldChanged, i + 1;
      }
      i := i + 1;
    }
    RestRejected(accept, l, from, i);
    r, k := None, |l|;
  }

  // What the second pass tells of the unchanged routes.
  lemma SecondPass(accept: Accept, l: seq<Rte>, c: seq<Rte>, q: nat, newRte: Option<Rte>, k: nat)
    requires Holds(l, c, q, newRte) && newRte.Some? && q <= AcceptIndex(accept, c) && q < k <= |l| && Rejected(accept, l, q + 1, k)
    ensures |l| == |c| + 1 && AcceptIndex(accept, c) >= k - 1
    ensures k < |l| ==> l[k] == c[k - 1] && (Accepted(accept, l[k]) ==> AcceptIndex(accept, c) == k - 1)
  {
    forall j | 0 <= j < k - 1 ensures !Accepted(accept, c[j]) {
      if j >= q {
        assert l[j + 1] == c[j];
      }
    }
    if k < |l| && Accepted(accept, l[k]) {
      AcceptIs(accept, c, k - 1);
    }
  }

  // The first accepted route of a list with r at place k, from that of the others.
  lemma FirstWith(accept: Accept, l: seq<Rte>, c: seq<Rte>, k: nat, r: Option<Rte>)
    requires Holds(l, c, k, r)
    ensures var a := AcceptIndex(accept, c);
      FirstAccepted(accept, l) ==
        if r.Some? && k <= a && Accepted(accept, r.value) then r else if a < |c| then Some(c[a]) else None
  {
    hide AcceptIndex, Holds;
    InsertAccepted(accept, l, c, k, r);
    Shifted(l, c, k, r, AcceptIndex(accept, c));
  }

  lemma Shifted(l: seq<Rte>, c: seq<Rte>, k: nat, r: Option<Rte>, a: nat)
    requires Holds(l, c, k, r)
    ensures k <= |c| && |l| == |c| + if r.Some? then 1 else 0
    ensures r.Some? ==> l[k] == r.value
    ensures a < |c| ==> c[a] == l[if r.Some? && k <= a then a + 1 else a]
  {
  }

  // The old list accepted what the two passes find.
  lemma FourthCase(accept: Accept, was: seq<Rte>, l: seq<Rte>, c: seq<Rte>, p: nat, q: nat, oldRte: Option<Rte>, newRte: Option<Rte>,
                   bp: nat, r: Option<Rte>, k: nat)
    requires Holds(was, c, p, oldRte) && Holds(l, c, q, newRte) && newRte.Some? && q <= AcceptIndex(accept, c)
    requires q < k <= |l| && Rejected(accept, l, q + 1, k)
    requires IsValid(oldRte) && p <= q ==> !accept(oldRte.value)
    requires var hit := IsValid(oldRte) && p > 0 && q < bp < k && accept(oldRte.value);
      if hit then r == oldRte && k == bp + 1
      else if k < |l| then Accepted(accept, l[k]) && r == Some(l[k]) else r == None
    requires IsValid(oldRte) && p > 0 ==> bp == if q <= p - 1 then p else p - 1
    ensures r == FirstAccepted(accept, was)
  {
    SecondPass(accept, l, c, q, newRte, k);
    FirstWith(accept, was, c, p, oldRte);
    hide AcceptIndex, Holds, Rejected, FirstAccepted;
  }

  // What the first pass decides: the other cases.
  lemma OtherCases(accept: Accept, was: seq<Rte>, l: seq<Rte>, c: seq<Rte>, p: nat, q: nat, oldRte: Option<Rte>, newRte: Option<Rte>,
                   bp: nat, i: nat, oldMeet: bool)
    requires Holds(was, c, p, oldRte) && Holds(l, c, q, newRte) && i == AcceptIndex(accept, l)
    requires IsValid(oldRte) && p > 0 ==> bp == if newRte.Some? && q <= p - 1 then p else p - 1
    requires if IsValid(oldRte) then oldMeet <==> p == 0 || bp < i else !oldMeet
    ensures i <= |l| && FirstAccepted(accept, l) == if i < |l| then Some(l[i]) else None
    ensures oldMeet && accept(oldRte.value) ==> FirstAccepted(accept, was) == oldRte
    ensures !(oldMeet && accept(oldRte.value)) && (i == |l| || (i < |l| && Some(l[i]) != newRte)) ==>
      FirstAccepted(accept, was) == FirstAccepted(accept, l)
    ensures i < |l| && Some(l[i]) == newRte && newRte.value !in c ==> q == i && q <= AcceptIndex(accept, c)
    ensures !(oldMeet && accept(oldRte.value)) && i == q && newRte.Some? && IsValid(oldRte) && p <= q ==> !accept(oldRte.value)
  {
    InsertAccepted(accept, l, c, q, newRte);
    FirstWith(accept, l, c, q, newRte);
    FirstWith(accept, was, c, p, oldRte);
    PlaceNew(l, c, q, newRte);
    hide AcceptIndex, Holds;
  }

  lemma PlaceNew(l: seq<Rte>, c: seq<Rte>, q: nat, newRte: Option<Rte>)
    requires Holds(l, c, q, newRte)
    ensures |l| == |c| + if newRte.Some? then 1 else 0
    ensures newRte.Some? ==> l[q] == newRte.value
    ensures newRte.Some? && newRte.value !in c ==> forall j :: 0 <= j < |l| && j != q ==> l[j] != newRte.value
  {
    if newRte.Some? {
      forall j | 0 <= j < |l| && j != q ensures l[j] in c {
        assert l[j] == c[if j < q then j else j - 1];
      }
    }
  }

  // A change of the list, or a net that is fed to a protocol for the first time or again.
  datatype Occasion = Update | Feed | Refeed

  // rt_notify_accepted. `l` is the list now; exactly a change of the first accepted route is announced.
  method NotifyAccepted(accept: Accept, l: seq<Rte>, newRte: Option<Rte>, oldRte: Option<Rte>, before: Option<Rte>, feed: Occasion,
                        ghost was: seq<Rte>, ghost c: seq<Rte>, ghost p: nat, ghost q: nat)
    returns (r: Option<(Option<Rte>, Option<Rte>)>)
    requires feed.Update? ==> Change(was, l, c, p, q, oldRte, newRte, before) && (newRte.Some? ==> newRte.value !in c)
    requires feed.Update? && oldRte.Some? ==> oldRte.value !in l
    requires !feed.Update? ==> ValidFirst(l) && oldRte.None? && before.None?
    ensures feed.Update? ==> r == if FirstAccepted(accept, was) == FirstAccepted(accept, l) then None
                                   else Some((FirstAccepted(accept, l), FirstAccepted(accept, was)))
    ensures feed.Feed? ==> r == if FirstAccepted(accept, l).None? then None else Some((FirstAccepted(accept, l), None))
    ensures feed.Refeed? ==> r == if l == [] || l[0].filtered then None
                                  else Some((FirstAccepted(accept, l), if FirstAccepted(accept, l).Some? then FirstAccepted(accept, l) else Some(l[0])))
  {
    if !feed.Update? {
      var i, _ := FindNewBest(accept, l, None, None, |l|);
      var newBest := if i < |l| then Some(l[i]) else None;
      // a refeed always tells something: what was exported before may be rejected now
      var oldBest := if feed.Feed? then None else if newBest.Some? then newBest else if l != [] && !l[0].filtered then Some(l[0]) else None;
      return if newBest.None? && oldBest.None? then None else Some((newBest, oldBest));
    }
    hide AcceptIndex, FirstAccepted, Holds, Rejected, ValidFirst, DistinctIds;
    var newChanged := if IsValid(newRte) then newRte else None;
    var oldChanged := if IsValid(oldRte) then oldRte else None;
    ghost var bp := |l|;
    if before.Some? {
      BeforeAt(was, l, c, p, q, oldRte, newRte, before);
      bp := if newRte.Some? && q <= p - 1 then p else p - 1;
    }
    var i, oldMeet := FindNewBest(accept, l, oldChanged, before, bp);
    OtherCases(accept, was, l, c, p, q, oldRte, newRte, bp, i, oldMeet);
    var newBest := if i < |l| then Some(l[i]) else None;
    // the old route would be found before the new best one
    if oldMeet && accept(oldChanged.value) {
      FirstIn(accept, l);
      return Some((newBest, oldChanged));
    }
    // nothing is accepted, nothing was
    if newBest.None? {
      return None;
    }
    // another route than the new one is the best, and was
    if newBest != newChanged {
      return None;
    }
    var oldBest, k := FindOldBest(accept, l, i + 1, oldChanged, before, bp);
    FourthCase(accept, was, l, c, p, q, oldRte, newRte, bp, oldBest, k);
    FirstIn(accept, was);
    FirstIn(accept, l);
    OldOnes(was, c, p, oldRte);
    r := Some((newBest, oldBest));
  }

  lemma FirstIn(accept: Accept, l: seq<Rte>)
    ensures FirstAccepted(accept, l).Some? ==> FirstAccepted(accept, l).value in l
  {
  }

  lemma OldOnes(was: seq<Rte>, c: seq<Rte>, p: nat, oldRte: Option<Rte>)
    requires Holds(was, c, p, oldRte)
    ensures forall x :: x in was ==> x in c || Some(x) == oldRte
  {
  }
}
