/**
 * The FIB as the source keeps it: hash chains changed in place, resizing, and the suspended
 * iterators linked to the nodes (nest/rt-fib.c).
 */
module FibTable {

  import opened Addr
  import opened Fib
  import opened Options
  import opened Numbers
  import opened Lists
  import opened Sets

  type It = nat

  // A suspended iterator: linked to a node or at the end; `node` is cached, and None after a merge.
  datatype Iterator = Iterator(linked: bool, node: Option<nat>)

  // Which iterators hang on which node (by unique id).
  type Readers = map<nat, seq<It>>

  function ListOf(readers: Readers, u: nat): seq<It> {
    if u in readers then readers[u] else []
  }

  function Uids(s: seq<Node>): set<nat> {
    set i | 0 <= i < |s| :: s[i].uid
  }

  // Once the cached node is lost, it is lost for the rest of the list.
  predicate NullsLast(l: seq<It>, iters: map<It, Iterator>)
    requires forall it :: it in l ==> it in iters
  {
    forall i, j :: 0 <= i < j < |l| && iters[l[i]].node.None? ==> iters[l[j]].node.None?
  }

  predicate ListOk(l: seq<It>, u: nat, iters: map<It, Iterator>, home: map<It, Option<nat>>) {
    (forall it :: it in l ==> it in iters && it in home && home[it] == Some(u) && iters[it].node in {None, Some(u)}) &&
    Distinct(l) && NullsLast(l, iters)
  }

  // `home` is where each suspended iterator waits: at a node, or at the end.
  ghost predicate ReadersOk(uids: set<nat>, readers: Readers, iters: map<It, Iterator>, home: map<It, Option<nat>>) {
    ListsOk(readers, iters, home) && LinkedOk(iters, home) && HomesOk(uids, readers, home)
  }

  ghost predicate ListsOk(readers: Readers, iters: map<It, Iterator>, home: map<It, Option<nat>>) {
    forall u :: u in readers ==> ListOk(readers[u], u, iters, home)
  }

  ghost predicate LinkedOk(iters: map<It, Iterator>, home: map<It, Option<nat>>) {
    home.Keys == iters.Keys && forall it :: it in home ==> (iters[it].linked <==> home[it].Some?)
  }

  predicate Hangs(readers: Readers, it: It, u: nat) {
    it in ListOf(readers, u)
  }

  ghost predicate HomesOk(uids: set<nat>, readers: Readers, home: map<It, Option<nat>>) {
    forall it :: it in home && home[it].Some? ==> home[it].value in uids && Hangs(readers, it, home[it].value)
  }

  // The node read after id u, if any.
  predicate IsNext(uids: set<nat>, u: nat, r: Option<nat>) {
    match r
    case None => forall v :: v in uids ==> v <= u
    case Some(n) => n in uids && u < n && forall v :: v in uids && u < v ==> n <= v
  }

  // Where iterators wait after node u is gone and its iterators have moved on to `next`.
  function Moved(home: map<It, Option<nat>>, u: nat, next: Option<nat>): map<It, Option<nat>> {
    map it | it in home :: if home[it] == Some(u) then next else home[it]
  }

  /* ---------- Changes of the lists of readers ---------- */

  lemma ListKept(l: seq<It>, v: nat, iters: map<It, Iterator>, home: map<It, Option<nat>>,
                 iters': map<It, Iterator>, home': map<It, Option<nat>>)
    requires ListOk(l, v, iters, home)
    requires forall it :: it in l ==> it in iters' && it in home' && iters'[it] == iters[it] && home'[it] == home[it]
    ensures ListOk(l, v, iters', home')
  {
  }

  lemma PutOk(uids: set<nat>, readers: Readers, iters: map<It, Iterator>, home: map<It, Option<nat>>, it: It, u: nat)
    requires ReadersOk(uids, readers, iters, home) && it !in home && u in uids
    ensures ReadersOk(uids, readers[u := [it] + ListOf(readers, u)], iters[it := Iterator(true, Some(u))], home[it := Some(u)])
  {
    var iters', home' := iters[it := Iterator(true, Some(u))], home[it := Some(u)];
    var l := ListOf(readers, u);
    assert u in readers ==> ListOk(readers[u], u, iters, home);
    assert ListOk([it] + l, u, iters', home');
    forall v | v in readers ensures ListOk(readers[v], v, iters', home') {
      assert ListOk(readers[v], v, iters, home);
    }
  }

  lemma TakeOk(uids: set<nat>, readers: Readers, iters: map<It, Iterator>, home: map<It, Option<nat>>, it: It, u: nat, k: nat)
    requires ReadersOk(uids, readers, iters, home) && u in readers && k < |readers[u]| && readers[u][k] == it
    ensures it in home && home[it] == Some(u) && it in iters
    ensures ReadersOk(uids, readers[u := RemoveAt(readers[u], k)], iters - {it}, home - {it})
  {
    var iters', home' := iters - {it}, home - {it};
    var l := readers[u];
    assert ListOk(l, u, iters, home);
    TakenList(l, u, iters, home, k);
    forall v | v in readers && v != u ensures ListOk(readers[v], v, iters', home') {
      Apart(iters, home, l, u, readers[v], v);
      ListKept(readers[v], v, iters, home, iters', home');
    }
    hide ListOk;
    forall q | q in home' && home'[q].Some? ensures Hangs(readers[u := RemoveAt(l, k)], q, home'[q].value) {
      assert Hangs(readers, q, home[q].value);
    }
  }

  lemma TakenList(l: seq<It>, u: nat, iters: map<It, Iterator>, home: map<It, Option<nat>>, k: nat)
    requires ListOk(l, u, iters, home) && k < |l|
    ensures ListOk(RemoveAt(l, k), u, iters - {l[k]}, home - {l[k]})
    ensures forall q :: q in l && q != l[k] ==> q in RemoveAt(l, k)
  {
    var l' := RemoveAt(l, k);
    forall j | 0 <= j < |l'| ensures l'[j] == l[if j < k then j else j + 1] && l'[j] != l[k] {
    }
    forall q | q in l && q != l[k] ensures q in l' {
      var j :| 0 <= j < |l| && l[j] == q;
      assert l'[if j < k then j else j - 1] == q;
    }
  }

  // The iterators of l without their cached node.
  function Nulled(iters: map<It, Iterator>, l: seq<It>): map<It, Iterator> {
    map it | it in iters :: if it in l then iters[it].(node := None) else iters[it]
  }

  // The iterators of l at the end.
  function Ended(iters: map<It, Iterator>, l: seq<It>): map<It, Iterator> {
    map it | it in iters :: if it in l then iters[it].(linked := false) else iters[it]
  }

  // The readers of a deleted node join those of the next one.
  lemma MergeOk(uids: set<nat>, readers: Readers, iters: map<It, Iterator>, home: map<It, Option<nat>>, u: nat, t: nat)
    requires ReadersOk(uids, readers, iters, home) && t in uids && t != u
    ensures var l := ListOf(readers, u);
      ReadersOk(uids - {u}, (readers - {u})[t := ListOf(readers, t) + l], Nulled(iters, l), Moved(home, u, Some(t)))
  {
    hide ReadersOk, ListsOk, HomesOk;
    assert ListsOk(readers, iters, home) && LinkedOk(iters, home) && HomesOk(uids, readers, home) by { ReadersParts(uids, readers, iters, home); }
    MergeLists(readers, iters, home, u, t);
    MergeHomes(uids, readers, home, u, t);
    PartsReaders(uids - {u}, (readers - {u})[t := ListOf(readers, t) + ListOf(readers, u)], Nulled(iters, ListOf(readers, u)),
                 Moved(home, u, Some(t)));
  }

  lemma ReadersParts(uids: set<nat>, readers: Readers, iters: map<It, Iterator>, home: map<It, Option<nat>>)
    requires ReadersOk(uids, readers, iters, home)
    ensures ListsOk(readers, iters, home) && LinkedOk(iters, home) && HomesOk(uids, readers, home)
  {
  }

  lemma PartsReaders(uids: set<nat>, readers: Readers, iters: map<It, Iterator>, home: map<It, Option<nat>>)
    requires ListsOk(readers, iters, home) && LinkedOk(iters, home) && HomesOk(uids, readers, home)
    ensures ReadersOk(uids, readers, iters, home)
  {
  }

  lemma MergeLists(readers: Readers, iters: map<It, Iterator>, home: map<It, Option<nat>>, u: nat, t: nat)
    requires ListsOk(readers, iters, home) && t != u
    ensures var l := ListOf(readers, u);
      ListsOk((readers - {u})[t := ListOf(readers, t) + l], Nulled(iters, l), Moved(home, u, Some(t)))
  {
    var l, m := ListOf(readers, u), ListOf(readers, t);
    var iters', home' := Nulled(iters, l), Moved(home, u, Some(t));
    assert u in readers ==> ListOk(readers[u], u, iters, home);
    assert t in readers ==> ListOk(readers[t], t, iters, home);
    JoinedOk(iters, home, u, t, l, m);
    forall v | v in readers && v != u && v != t ensures ListOk(readers[v], v, iters', home') {
      Apart(iters, home, l, u, readers[v], v);
      KeptIn(readers[v], v, iters, home);
      ListKept(readers[v], v, iters, home, iters', home');
    }
  }

  lemma KeptIn(l: seq<It>, v: nat, iters: map<It, Iterator>, home: map<It, Option<nat>>)
    requires ListOk(l, v, iters, home)
    ensures forall it :: it in l ==> it in iters && it in home && home[it] == Some(v)
  {
  }

  lemma MergeHomes(uids: set<nat>, readers: Readers, home: map<It, Option<nat>>, u: nat, t: nat)
    requires HomesOk(uids, readers, home) && t != u && t in uids
    ensures HomesOk(uids - {u}, (readers - {u})[t := ListOf(readers, t) + ListOf(readers, u)], Moved(home, u, Some(t)))
  {
    var readers' := (readers - {u})[t := ListOf(readers, t) + ListOf(readers, u)];
    forall it | it in home && home[it].Some?
      ensures Hangs(readers', it, Moved(home, u, Some(t))[it].value)
    {
      assert Hangs(readers, it, home[it].value);
    }
  }

  lemma Apart(iters: map<It, Iterator>, home: map<It, Option<nat>>, l: seq<It>, u: nat, m: seq<It>, v: nat)
    requires ListOk(l, u, iters, home) && ListOk(m, v, iters, home) && u != v
    ensures forall it :: it in m ==> it !in l
  {
  }

  lemma JoinedOk(iters: map<It, Iterator>, home: map<It, Option<nat>>, u: nat, t: nat, l: seq<It>, m: seq<It>)
    requires ListOk(l, u, iters, home) && ListOk(m, t, iters, home) && u != t
    ensures ListOk(m + l, t, Nulled(iters, l), Moved(home, u, Some(t)))
  {
    var iters', s := Nulled(iters, l), m + l;
    assert forall it :: it in m ==> it !in l;
    forall i, j | 0 <= i < j < |s| && iters'[s[i]].node.None? ensures iters'[s[j]].node.None? {
      if j < |m| {
        assert s[i] == m[i] && s[j] == m[j];
      } else {
        assert s[j] == l[j - |m|];
      }
    }
    forall i, j | 0 <= i < j < |s| ensures s[i] != s[j] {
      if j < |m| {
        assert s[i] == m[i] && s[j] == m[j];
      } else if i >= |m| {
        assert s[i] == l[i - |m|] && s[j] == l[j - |m|];
      } else {
        assert s[i] in m && s[j] in l;
      }
    }
  }

  lemma EndOk(uids: set<nat>, readers: Readers, iters: map<It, Iterator>, home: map<It, Option<nat>>, u: nat)
    requires ReadersOk(uids, readers, iters, home)
    ensures ReadersOk(uids - {u}, readers - {u}, Ended(iters, ListOf(readers, u)), Moved(home, u, None))
  {
    var l := ListOf(readers, u);
    var iters', home' := Ended(iters, l), Moved(home, u, None);
    assert u in readers ==> ListOk(readers[u], u, iters, home);
    forall v | v in readers && v != u ensures ListOk(readers[v], v, iters', home') {
      assert ListOk(readers[v], v, iters, home);
    }
  }

  // Stopping at the first iterator without a cached node is enough: the rest have none either.
  lemma NulledRest(iters: map<It, Iterator>, l: seq<It>, k: nat)
    requires (forall it :: it in l ==> it in iters) && NullsLast(l, iters) && k <= |l|
    requires k < |l| ==> iters[l[k]].node.None?
    ensures Nulled(iters, l[..k]) == Nulled(iters, l)
  {
    forall it | it in iters ensures Nulled(iters, l[..k])[it] == Nulled(iters, l)[it] {
      assert l == l[..k] + l[k..];
      if it in l[k..] {
        var j :| 0 <= j < |l[k..]| && l[k..][j] == it;
        assert l[k + j] == it;
      }
    }
  }

  /* ---------- Reading order ---------- */

  function FirstUid(s: seq<Node>): Option<nat> {
    if s == [] then None else Some(s[0].uid)
  }

  lemma FirstIsNext(t: Table, b: nat, k: nat, order: nat, hash: Hash)
    requires FibOk(t, order, hash) && b < |t| && k < |t[b]|
    ensures IsNext(Uids(Flat(t)), t[b][k].uid, FirstUid(From(t, b, k + 1)))
  {
    hide Flat, Placed, Pow2;
    RemoveFlat(t, b, k);
    NextInOrder(Before(t, b, k), t[b][k], From(t, b, k + 1));
  }

  lemma NextInOrder(pre: seq<Node>, e: Node, post: seq<Node>)
    requires Sorted(pre + [e] + post)
    ensures IsNext(Uids(pre + [e] + post), e.uid, FirstUid(post))
  {
    var s := pre + [e] + post;
    var p := |pre|;
    assert s[p] == e;
    if post != [] {
      assert s[p + 1] == post[0];
    }
    forall v | v in Uids(s) && e.uid < v ensures post != [] && post[0].uid <= v {
      var i :| 0 <= i < |s| && s[i].uid == v;
      assert i > p;
      assert s[i] == post[i - p - 1];
    }
  }

  /* ---------- Resizing ---------- */

  // The new chains filled so far: `done` are closed, `chain` is the one being filled.
  predicate Filling(done: Table, chain: seq<Node>, order: nat) {
    order <= 16 && |done| < Pow2(order) && Placed(done, order) && ChainPlaced(chain, |done|, order)
  }

  lemma Close(done: Table, chain: seq<Node>, order: nat)
    requires order <= 16 && Placed(done, order) && ChainPlaced(chain, |done|, order)
    ensures Placed(done + [chain], order) && ChainPlaced([], |done| + 1, order)
    ensures Flat(done + [chain]) == Flat(done) + chain
  {
    hide ChainPlaced, Flat;
    FlatAppend(done, [chain]);
    FlatOne(chain);
    assert ChainPlaced([], |done| + 1, order) by { EmptyPlaced(|done| + 1, order); }
    var t := done + [chain];
    forall b | 0 <= b < |t| ensures ChainPlaced(t[b], b, order) {
      assert b < |done| ==> t[b] == done[b];
    }
  }

  lemma EmptyPlaced(b: nat, order: nat)
    requires order <= 16
    ensures ChainPlaced([], b, order)
  {
  }

  // One node goes to its new chain, after the chains before it are closed.
  method Place(done0: Table, chain0: seq<Node>, e: Node, order: nat) returns (done: Table, chain: seq<Node>)
    requires Filling(done0, chain0, order) && e.Primary() < 0x10000 && |done0| <= Bucket(e.Primary(), order)
    ensures Filling(done, chain, order) && |done| == Bucket(e.Primary(), order)
    ensures Flat(done) + chain == Flat(done0) + chain0 + [e]
  {
    hide Flat, Placed, Pow2;
    done, chain := done0, chain0;
    BucketBound(e.Primary(), order);
    var nh := Bucket(e.Primary(), order);
    while nh > |done|
      invariant Filling(done, chain, order) && |done| <= nh && Flat(done) + chain == Flat(done0) + chain0
    {
      Close(done, chain, order);
      done := done + [chain];
      chain := [];
    }
    chain := chain + [e];
  }

  predicate AllFrom(s: seq<Node>, order: nat, ni: nat)
    requires order <= 16
  {
    forall n :: n in s ==> n.Primary() < 0x10000 && Bucket(n.Primary(), order) >= ni
  }

  // Nodes read later have no smaller bucket.
  lemma LaterBuckets(pre: seq<Node>, e: Node, post: seq<Node>, order: nat)
    requires order <= 16 && Sorted(pre + [e] + post) && e.Primary() < 0x10000 && AllFrom(post, order, 0)
    ensures AllFrom(post, order, Bucket(e.Primary(), order))
  {
    var s := pre + [e] + post;
    assert s[|pre|] == e;
    forall n | n in post ensures Bucket(n.Primary(), order) >= Bucket(e.Primary(), order) {
      var i :| 0 <= i < |post| && post[i] == n;
      assert s[|pre| + 1 + i] == n;
      ShrMono(e.Primary(), n.Primary(), 16 - order);
    }
  }

  // One step of the walk over the old table.
  lemma WalkStep(t: Table, i: nat, j: nat, order: nat, hash: Hash, to: nat)
    requires FibOk(t, order, hash) && i < |t| && j < |t[i]| && to <= 16
    ensures Before(t, i, j) + [t[i][j]] == Before(t, i, j + 1)
    ensures t[i][j].Primary() < 0x10000 && AllFrom(From(t, i, j + 1), to, Bucket(t[i][j].Primary(), to))
  {
    hide Flat, Bucket;
    assert t[i][..j] + [t[i][j]] == t[i][..j + 1];
    assert ChainPlaced(t[i], i, order);
    RemoveFlat(t, i, j);
    forall n | n in From(t, i, j + 1) ensures n.Primary() < 0x10000 {
      assert n in Flat(t);
      InItsChain(t, order, n);
    }
    LaterBuckets(Before(t, i, j), t[i][j], From(t, i, j + 1), to);
  }

  lemma ChainEnd(t: Table, i: nat)
    requires i < |t|
    ensures Before(t, i, 0) == Flat(t[..i]) && Before(t, i, |t[i]|) == Flat(t[..i + 1])
    ensures From(t, i, 0) == Flat(t[i..]) && From(t, i, |t[i]|) == Flat(t[i + 1..])
  {
    hide Flat;
    assert t[..i + 1] == t[..i] + [t[i]] && t[i..] == [t[i]] + t[i + 1..];
    FlatAppend(t[..i], [t[i]]);
    FlatAppend([t[i]], t[i + 1..]);
    FlatOne(t[i]);
    assert t[i][..|t[i]|] == t[i] && t[i][0..] == t[i];
  }

  lemma AllStart(t: Table, order: nat, hash: Hash, to: nat)
    requires FibOk(t, order, hash) && to <= 16
    ensures AllFrom(Flat(t), to, 0)
  {
    hide Flat, Bucket;
    forall n | n in Flat(t) ensures n.Primary() < 0x10000 {
      InItsChain(t, order, n);
    }
  }

  // fib_rehash: the nodes move to new chains in one pass over the old ones
  method Redistribute(was: Table, wasOrder: nat, order: nat, ghost hash: Hash) returns (t: Table)
    requires FibOk(was, wasOrder, hash) && order <= 16
    ensures FibOk(t, order, hash) && Flat(t) == Flat(was)
  {
    hide Flat, Placed, FlatOk, Pow2, AllFrom, Bucket;
    t := [];
    var chain: seq<Node> := [];
    StartFilling(order);
    AllStart(was, wasOrder, hash, order);
    var i := 0;
    assert was[..0] == [] && was[0..] == was;
    while i < |was|
      invariant 0 <= i <= |was| && Filling(t, chain, order)
      invariant Flat(t) + chain == Flat(was[..i]) && AllFrom(Flat(was[i..]), order, |t|)
    {
      ChainEnd(was, i);
      var j := 0;
      while j < |was[i]|
        invariant 0 <= j <= |was[i]| && Filling(t, chain, order)
        invariant Flat(t) + chain == Before(was, i, j) && AllFrom(From(was, i, j), order, |t|)
      {
        WalkStep(was, i, j, wasOrder, hash, order);
        FirstFrom(was, i, j, order, |t|);
        t, chain := Place(t, chain, was[i][j], order);
        j := j + 1;
      }
      i := i + 1;
    }
    assert was[..i] == was;
    while |t| < Pow2(order)
      invariant |t| <= Pow2(order) && Placed(t, order) && ChainPlaced(chain, |t|, order) && Flat(t) + chain == Flat(was)
      invariant |t| == Pow2(order) ==> chain == []
    {
      Close(t, chain, order);
      t := t + [chain];
      chain := [];
    }
    assert Flat(t) + [] == Flat(t);
  }

  lemma StartFilling(order: nat)
    requires order <= 16
    ensures Filling([], [], order) && Flat([]) == []
  {
    BucketBound(0, order);
  }

  lemma FirstFrom(t: Table, i: nat, j: nat, order: nat, ni: nat)
    requires i < |t| && j < |t[i]| && order <= 16 && AllFrom(From(t, i, j), order, ni)
    ensures t[i][j].Primary() < 0x10000 && Bucket(t[i][j].Primary(), order) >= ni
  {
    assert From(t, i, j)[0] == t[i][j];
  }

  method EmptyTable(order: nat) returns (t: Table)
    requires order <= 16
    ensures |t| == Pow2(order) && Placed(t, order) && Flat(t) == []
  {
    t := [];
    while |t| < Pow2(order)
      invariant |t| <= Pow2(order) && Placed(t, order) && Flat(t) == []
    {
      EmptyPlaced(|t|, order);
      Close(t, [], order);
      t := t + [[]];
    }
  }

  /* ---------- Walking chains ---------- */

  function FirstNode(s: seq<Node>): Option<Node> {
    if s == [] then None else Some(s[0])
  }

  // The node at place k of chain b, or the first one of the next chain that has any.
  method Following(t: Table, b: nat, k: nat) returns (r: Option<Node>)
    requires b < |t| && k <= |t[b]|
    ensures r == FirstNode(From(t, b, k))
  {
    if k < |t[b]| {
      return Some(t[b][k]);
    }
    var h := b + 1;
    while h < |t| && t[h] == []
      invariant b < h <= |t| && Flat(t[b + 1..]) == Flat(t[h..])
    {
      assert t[h..][1..] == t[h + 1..];
      h := h + 1;
    }
    r := if h < |t| then Some(t[h][0]) else None;
  }

  // Where a new node of primary hash h goes and its id: the first one that is free.
  method Slot(c: seq<Node>, h: nat) returns (k: nat, uid: nat)
    requires Sorted(c) && |Crowd(c, h)| < 0x10000
    ensures k <= |c| && uid / 0x10000 == h
    ensures forall j :: 0 <= j < |c| ==> if j < k then c[j].uid < uid else c[j].uid > uid
  {
    k, uid := 0, h * 0x10000;
    while k < |c| && c[k].uid < uid
      invariant 0 <= k <= |c| && forall j :: 0 <= j < k ==> c[j].uid < uid
    {
      k := k + 1;
    }
    while k < |c| && c[k].uid == uid
      invariant 0 <= k <= |c| && h * 0x10000 <= uid <= h * 0x10000 + 0x10000
      invariant forall j :: 0 <= j < k ==> c[j].uid < uid
      invariant k < |c| ==> c[k].uid >= uid
      invariant forall x :: h * 0x10000 <= x < uid ==> Taken(c, x)
    {
      assert Taken(c, uid);
      FreeId(c, h, uid);
      k, uid := k + 1, uid + 1;
    }
    FreeId(c, h, uid);
  }

  /* ---------- The FIB ---------- */

  const HI_MARK := 4
  const HI_MAX := 16
  const LO_MARK := 5
  const LO_MIN := 10
  const STEP := 2

  // A table is resized when it holds more than four entries a chain, or fewer than one in five chains;
  // the largest size has no upper limit, small ones no lower limit.
  predicate LimitsOf(order: nat, min: nat, max: nat) {
    (order <= 14 ==> max == 4 * Pow2(order)) && (order > 14 ==> max == 0xFFFFFFFF) &&
    (order >= 12 ==> min == Pow2(order) / 5) && (order < 12 ==> min == 0)
  }

  class ForwardingTable {
    const ipaHash: Hash
    var order: nat
    var table: Table
    var entries: nat
    var entriesMin: nat
    var entriesMax: nat
    var readers: Readers
    var iters: map<It, Iterator>
    ghost var home: map<It, Option<nat>>

    ghost predicate TableOk()
      reads this`order, this`table, this`entries, this`entriesMin, this`entriesMax
    {
      FibOk(table, order, ipaHash) && entries == |Flat(table)| &&
      (order > HI_MAX - STEP ==> entriesMax == 0xFFFFFFFF) && (order < LO_MIN + STEP ==> entriesMin == 0)
    }

    ghost predicate Valid()
      reads this
    {
      TableOk() && ReadersOk(Uids(Flat(table)), readers, iters, home)
    }

    // Every prefix is held once.
    ghost predicate Contains(k: Key)
      reads this`table
    {
      exists n :: n in Flat(table) && n.key == k
    }

    // fib_init
    constructor (hash: Hash, hashOrder: nat)
      requires hashOrder <= HI_MAX
      ensures Valid() && ipaHash == hash && Flat(table) == [] && home == map[]
      ensures order == (if hashOrder == 0 then 10 else hashOrder) && entriesMin == 0
    {
      ipaHash := hash;
      order := if hashOrder == 0 then 10 else hashOrder;
      table, entries, entriesMin := [], 0, 0;
      entriesMax := 0;
      readers, iters, home := map[], map[], map[];
      new;
      HtAlloc();
      entriesMin := 0;
      table := EmptyTable(order);
    }

    // fib_ht_alloc: the limits of the new size
    method HtAlloc()
      requires order <= HI_MAX
      modifies this`entriesMin, this`entriesMax
      ensures (order > HI_MAX - STEP ==> entriesMax == 0xFFFFFFFF) && (order < LO_MIN + STEP ==> entriesMin == 0)
      ensures LimitsOf(order, entriesMin, entriesMax)
    {
      var hashSize := Pow2(order);
      entriesMax := if order > HI_MAX - STEP then 0xFFFFFFFF else hashSize * HI_MARK;
      entriesMin := if order < LO_MIN + STEP then 0 else hashSize / LO_MARK;
    }

    // fib_rehash: the reading order does not change
    method Rehash(newOrder: nat)
      requires newOrder <= HI_MAX && FibOk(table, order, ipaHash) && entries == |Flat(table)|
      modifies this`order, this`table, this`entriesMin, this`entriesMax
      ensures TableOk() && Flat(table) == old(Flat(table)) && order == newOrder && LimitsOf(order, entriesMin, entriesMax)
    {
      hide FibOk, Flat;
      var was, wasOrder := table, order;
      order := newOrder;
      OrderBound(was, wasOrder, ipaHash);
      HtAlloc();
      table := Redistribute(was, wasOrder, order, ipaHash);
    }

    // fib_find
    method Find(a: IpAddr, len: nat) returns (r: Option<Node>)
      requires Valid()
      ensures r.Some? ==> r.value in Flat(table) && r.value.key == Key(a, len)
      ensures r.None? ==> !Contains(Key(a, len))
    {
      hide Flat, ReadersOk;
      var b := Bucket(ipaHash(a), order);
      BucketBound(ipaHash(a), order);
      var i := 0;
      while i < |table[b]| && table[b][i].key != Key(a, len)
        invariant 0 <= i <= |table[b]| && forall j :: 0 <= j < i ==> table[b][j].key != Key(a, len)
      {
        i := i + 1;
      }
      if i < |table[b]| {
        FlatMember(table, table[b][i]);
        return Some(table[b][i]);
      }
      NotInChain(table, order, ipaHash, Key(a, len), b);
      r := None;
    }

    // fib_get: the caller keeps fewer than 65536 nodes of one primary hash
    method Get(a: IpAddr, len: nat) returns (e: Node)
      requires Valid() && |Crowd(Flat(table), ipaHash(a))| < 0x10000
      modifies this
      ensures Valid() && home == old(home)
      ensures e in Flat(table) && e.key == Key(a, len)
      ensures old(Contains(Key(a, len))) ==> Flat(table) == old(Flat(table))
      ensures !old(Contains(Key(a, len))) ==>
        e.uid !in Uids(old(Flat(table))) && forall n :: n in Flat(table) <==> n in old(Flat(table)) || n == e
      ensures forall k :: Contains(k) <==> old(Contains(k)) || k == Key(a, len)
      ensures order == if !old(Contains(Key(a, len))) && old(entries) > old(entriesMax) then old(order) + 2 else old(order)
      ensures order != old(order) ==> LimitsOf(order, entriesMin, entriesMax)
    {
      hide Flat, ReadersOk, Crowd, Placed, FlatOk;
      var found := Find(a, len);
      if found.Some? {
        return found.value;
      }
      var h := ipaHash(a);
      var b := Bucket(h, order);
      BucketBound(h, order);
      ChainFacts(table, order, ipaHash, b, h);
      var k, uid := Slot(table[b], h);
      e := Node(Key(a, len), uid);
      ghost var t := table;
      InsertReady(t, order, ipaHash, b, k, e);
      table := table[b := InsertAt(table[b], k, e)];
      InsertUids(Flat(t), Flat(table), e, readers, iters, home);
      entries := entries + 1;
      if entries - 1 > entriesMax {
        TooMany(table, order, ipaHash);
        Rehash(order + STEP);
      }
    }

    // Place of a node in its chain
    method Locate(e: Node) returns (b: nat, k: nat)
      requires Valid() && e in Flat(table)
      ensures b < |table| && k < |table[b]| && table[b][k] == e
    {
      hide Flat, ReadersOk, Bucket;
      InItsChain(table, order, e);
      HashOf(Flat(table), ipaHash, e);
      b := Bucket(ipaHash(e.key.prefix), order);
      k := 0;
      while table[b][k] != e
        invariant 0 <= k < |table[b]| && exists j :: k <= j < |table[b]| && table[b][j] == e
        decreases |table[b]| - k
      {
        k := k + 1;
      }
    }

    // The node read after e.
    method Next(e: Node) returns (r: Option<Node>)
      requires Valid() && e in Flat(table)
      ensures r.Some? ==> r.value in Flat(table)
      ensures IsNext(Uids(Flat(table)), e.uid, UidOf(r))
    {
      hide Flat, ReadersOk, FibOk, IsNext;
      var b, k := Locate(e);
      r := Following(table, b, k + 1);
      FirstIsNext(table, b, k, order, ipaHash);
      FirstInTable(table, b, k + 1);
    }

    // fib_delete: readers of the node move to the next one
    method Delete(e: Node)
      requires Valid() && e in Flat(table)
      modifies this
      ensures Valid() && forall n :: n in Flat(table) <==> n in old(Flat(table)) && n != e
      ensures exists next :: IsNext(old(Uids(Flat(table))), e.uid, next) && home == Moved(old(home), e.uid, next)
      ensures order == if old(entries) < old(entriesMin) then old(order) - 2 else old(order)
      ensures order != old(order) ==> LimitsOf(order, entriesMin, entriesMax)
    {
      hide Flat, ReadersOk, Placed, FlatOk, IsNext;
      var next := Next(e);
      var b, k := Locate(e);
      ghost var t := table;
      var u := UidOf(next);
      DeleteReady(t, order, ipaHash, b, k, next);
      table := table[b := RemoveAt(table[b], k)];
      MergeReaders(Uids(Flat(t)), e.uid, u);
      assert IsNext(Uids(Flat(t)), e.uid, u) && home == Moved(old(home), e.uid, u);
      entries := entries - 1;
      if entries + 1 < entriesMin {
        Rehash(order - STEP);
      }
    }

    // fib_merge_readers, with the readers of node u going to node `to` or to the end
    method MergeReaders(ghost uids: set<nat>, u: nat, to: Option<nat>)
      requires ReadersOk(uids, readers, iters, home) && (to.Some? ==> to.value in uids && to.value != u)
      modifies this`readers, this`iters, this`home
      ensures ReadersOk(uids - {u}, readers, iters, home) && home == Moved(old(home), u, to)
    {
      hide ReadersOk, NullsLast;
      var l := ListOf(readers, u);
      ListFacts(uids, readers, iters, home, u);
      if to.Some? {
        MergeOk(uids, readers, iters, home, u, to.value);
        readers := (readers - {u})[to.value := ListOf(readers, to.value) + l];
        var k := 0;
        while k < |l| && iters[l[k]].node.Some?
          invariant 0 <= k <= |l| && iters == Nulled(old(iters), l[..k])
          modifies this`iters
        {
          NullNext(old(iters), iters, l, k);
          iters := iters[l[k] := iters[l[k]].(node := None)];
          k := k + 1;
        }
        NullStop(old(iters), l, k);
      } else {
        EndOk(uids, readers, iters, home, u);
        readers := readers - {u};
        var k := 0;
        while k < |l|
          invariant 0 <= k <= |l| && iters == Ended(old(iters), l[..k])
          modifies this`iters
        {
          EndNext(old(iters), iters, l, k);
          iters := iters[l[k] := iters[l[k]].(linked := false)];
          k := k + 1;
        }
        assert l[..k] == l;
      }
      home := Moved(home, u, to);
    }

    // fib_route: the longest prefix that covers a
    method Route(a: IpAddr, len0: nat) returns (r: Option<Node>)
      requires Valid() && len0 <= 32
      ensures r.Some? ==> r.value in Flat(table) && CoveredBy(a, len0, r.value.key)
      ensures forall k :: Contains(k) && CoveredBy(a, len0, k) ==> r.Some? && k.pxlen <= r.value.key.pxlen
    {
      hide Flat, ReadersOk, FibOk, And, MkMask;
      var len: int := len0;
      while len >= 0
        invariant -1 <= len <= len0
        invariant forall k :: Contains(k) && CoveredBy(a, len0, k) ==> k.pxlen <= len
      {
        var a0 := And(a, MkMask(len));
        r := Find(a0, len);
        if r.Some? {
          return;
        }
        len := len - 1;
      }
      r := None;
    }

    // fit_init: a new iterator waits at the first node
    method FitInit(it: It)
      requires Valid() && it !in home
      modifies this`readers, this`iters, this`home
      ensures Valid() && home == old(home)[it := FirstUid(Flat(table))]
    {
      hide FibOk, ReadersOk;
      SomeChain(table, order, ipaHash);
      var n := Following(table, 0, 0);
      ChainEnd(table, 0);
      assert table[0..] == table;
      HomeKeys(Uids(Flat(table)), readers, iters, home);
      if n.Some? {
        UidsAre(Flat(table));
        FitPut(it, n.value);
      } else {
        EndedOk(Uids(Flat(table)), readers, iters, home, it);
        iters := iters[it := Iterator(false, None)];
        home := home[it := None];
      }
    }

    // fit_put
    method FitPut(it: It, n: Node)
      requires Valid() && it !in home && n in Flat(table)
      modifies this`readers, this`iters, this`home
      ensures Valid() && home == old(home)[it := Some(n.uid)]
    {
      hide FibOk, ReadersOk, Flat;
      UidsAre(Flat(table));
      PutOk(Uids(Flat(table)), readers, iters, home, it, n.uid);
      iters := iters[it := Iterator(true, Some(n.uid))];
      readers := readers[n.uid := [it] + ListOf(readers, n.uid)];
      home := home[it := Some(n.uid)];
    }

    // fit_put_next
    method FitPutNext(it: It, e: Node)
      requires Valid() && it !in home && e in Flat(table)
      modifies this`readers, this`iters, this`home
      ensures Valid()
      ensures exists next :: IsNext(Uids(Flat(table)), e.uid, next) && home == old(home)[it := next]
    {
      hide FibOk, ReadersOk, Flat, IsNext;
      var n := Next(e);
      if n.Some? {
        FitPut(it, n.value);
      } else {
        EndedOk(Uids(Flat(table)), readers, iters, home, it);
        iters := iters[it := Iterator(false, None)];
        home := home[it := None];
      }
      assert IsNext(Uids(Flat(table)), e.uid, UidOf(n));
    }

    // fit_get: the id of the node where the iterator waits, which it leaves
    method FitGet(it: It) returns (r: Option<nat>)
      requires Valid() && it in home
      modifies this`readers, this`iters, this`home
      ensures Valid() && home == old(home) - {it} && r == old(home[it])
    {
      hide FibOk, Flat, ReadersOk;
      HomeKeys(Uids(Flat(table)), readers, iters, home);
      if !iters[it].linked {
        DropOk(Uids(Flat(table)), readers, iters, home, it);
        iters, home := iters - {it}, home - {it};
        return None;
      }
      HangsOn(Uids(Flat(table)), readers, iters, home, it);
      var u: nat;
      if iters[it].node.Some? {
        u := iters[it].node.value;
      } else {
        // the cached node was lost in a merge: back along the list to the node it hangs on
        u :| u in readers && it in readers[u];
        ListFacts(Uids(Flat(table)), readers, iters, home, u);
      }
      var k := 0;
      while readers[u][k] != it
        invariant 0 <= k < |readers[u]| && exists j :: k <= j < |readers[u]| && readers[u][j] == it
        decreases |readers[u]| - k
      {
        k := k + 1;
      }
      TakeOk(Uids(Flat(table)), readers, iters, home, it, u, k);
      readers := readers[u := RemoveAt(readers[u], k)];
      iters, home := iters - {it}, home - {it};
      r := Some(u);
    }
  }

  function UidOf(n: Option<Node>): Option<nat> {
    if n.None? then None else Some(n.value.uid)
  }

  // Key k covers the network a/len: what fib_route looks for.
  predicate CoveredBy(a: IpAddr, len: nat, k: Key)
    requires len <= 32
  {
    k.pxlen <= len && k.prefix == And(a, MkMask(k.pxlen))
  }

  lemma HashOf(s: seq<Node>, hash: Hash, e: Node)
    requires Hashed(s, hash) && e in s
    ensures e.Primary() == hash(e.key.prefix)
  {
  }

  lemma FirstInTable(t: Table, b: nat, k: nat)
    requires b < |t| && k <= |t[b]|
    ensures From(t, b, k) != [] ==> From(t, b, k)[0] in Flat(t)
    ensures UidOf(FirstNode(From(t, b, k))) == FirstUid(From(t, b, k))
  {
    BeforeFrom(t, b, k);
  }

  lemma DeleteReady(t: Table, order: nat, hash: Hash, b: nat, k: nat, next: Option<Node>)
    requires FibOk(t, order, hash) && b < |t| && k < |t[b]|
    requires IsNext(Uids(Flat(t)), t[b][k].uid, UidOf(next)) && (next.Some? ==> next.value in Flat(t))
    ensures var t' := t[b := RemoveAt(t[b], k)];
      FibOk(t', order, hash) && |Flat(t')| == |Flat(t)| - 1 && (forall n :: n in Flat(t') <==> n in Flat(t) && n != t[b][k]) &&
      Uids(Flat(t')) == Uids(Flat(t)) - {t[b][k].uid} && (next.Some? ==> next.value.uid in Uids(Flat(t)) && next.value.uid != t[b][k].uid)
  {
    hide Flat, Pow2, Bucket, Placed, FlatOk;
    var e, t' := t[b][k], t[b := RemoveAt(t[b], k)];
    RemoveNode(t, order, hash, b, k);
    UidsAre(Flat(t));
    UidsAre(Flat(t'));
    FlatMember(t, e);
    SameIdSameNode(Flat(t), hash, e);
  }

  lemma SameIdSameNode(s: seq<Node>, hash: Hash, e: Node)
    requires FlatOk(s, hash) && e in s
    ensures forall n :: n in s && n.uid == e.uid ==> n == e
  {
    forall n | n in s && n.uid == e.uid ensures n == e {
      var i :| 0 <= i < |s| && s[i] == n;
      var j :| 0 <= j < |s| && s[j] == e;
      assert !(i < j) && !(j < i);
    }
  }

  lemma ListFacts(uids: set<nat>, readers: Readers, iters: map<It, Iterator>, home: map<It, Option<nat>>, u: nat)
    requires ReadersOk(uids, readers, iters, home)
    ensures var l := ListOf(readers, u);
      (forall it :: it in l ==> it in iters && it in home && home[it] == Some(u)) && Distinct(l) && NullsLast(l, iters)
  {
    assert u in readers ==> ListOk(readers[u], u, iters, home);
  }

  lemma NullNext(was: map<It, Iterator>, iters: map<It, Iterator>, l: seq<It>, k: nat)
    requires k < |l| && l[k] in was && iters == Nulled(was, l[..k]) && l[k] in iters
    ensures iters[l[k] := iters[l[k]].(node := None)] == Nulled(was, l[..k + 1])
  {
    assert l[..k + 1] == l[..k] + [l[k]];
  }

  lemma NullStop(was: map<It, Iterator>, l: seq<It>, k: nat)
    requires k <= |l| && (forall it :: it in l ==> it in was) && Distinct(l) && NullsLast(l, was)
    requires k < |l| ==> l[k] in was && Nulled(was, l[..k])[l[k]].node.None?
    ensures Nulled(was, l[..k]) == Nulled(was, l)
  {
    if k < |l| {
      forall j | 0 <= j < k ensures l[..k][j] != l[k] {
      }
      assert l[k] !in l[..k];
    }
    NulledRest(was, l, k);
  }

  lemma EndNext(was: map<It, Iterator>, iters: map<It, Iterator>, l: seq<It>, k: nat)
    requires k < |l| && l[k] in was && iters == Ended(was, l[..k]) && l[k] in iters
    ensures iters[l[k] := iters[l[k]].(linked := false)] == Ended(was, l[..k + 1])
  {
    assert l[..k + 1] == l[..k] + [l[k]];
  }

  lemma SomeChain(t: Table, order: nat, hash: Hash)
    requires FibOk(t, order, hash)
    ensures |t| > 0
  {
    BucketBound(0, order);
  }

  lemma HomeKeys(uids: set<nat>, readers: Readers, iters: map<It, Iterator>, home: map<It, Option<nat>>)
    requires ReadersOk(uids, readers, iters, home)
    ensures home.Keys == iters.Keys
  {
  }

  lemma EndedOk(uids: set<nat>, readers: Readers, iters: map<It, Iterator>, home: map<It, Option<nat>>, it: It)
    requires ReadersOk(uids, readers, iters, home) && it !in home
    ensures ReadersOk(uids, readers, iters[it := Iterator(false, None)], home[it := None])
  {
    forall u | u in readers ensures ListOk(readers[u], u, iters[it := Iterator(false, None)], home[it := None]) {
      KeptIn(readers[u], u, iters, home);
      ListKept(readers[u], u, iters, home, iters[it := Iterator(false, None)], home[it := None]);
    }
  }

  lemma DropOk(uids: set<nat>, readers: Readers, iters: map<It, Iterator>, home: map<It, Option<nat>>, it: It)
    requires ReadersOk(uids, readers, iters, home) && it in home && !iters[it].linked
    ensures home[it].None? && ReadersOk(uids, readers, iters - {it}, home - {it})
  {
    forall u | u in readers ensures ListOk(readers[u], u, iters - {it}, home - {it}) {
      KeptIn(readers[u], u, iters, home);
      ListKept(readers[u], u, iters, home, iters - {it}, home - {it});
    }
  }

  // A linked iterator hangs on its home, which its cached node, if any, names.
  lemma HangsOn(uids: set<nat>, readers: Readers, iters: map<It, Iterator>, home: map<It, Option<nat>>, it: It)
    requires ReadersOk(uids, readers, iters, home) && it in home && iters[it].linked
    ensures home[it].Some? && home[it].value in readers && it in readers[home[it].value]
    ensures iters[it].node in {None, home[it]}
  {
    assert Hangs(readers, it, home[it].value);
    assert ListOk(readers[home[it].value], home[it].value, iters, home);
  }

  // What the insertion of a new node needs to know of its chain.
  lemma ChainFacts(t: Table, order: nat, hash: Hash, b: nat, h: nat)
    requires FibOk(t, order, hash) && b < |t|
    ensures Sorted(t[b]) && |Crowd(t[b], h)| <= |Crowd(Flat(t), h)|
  {
    hide Flat, Pow2, Placed;
    FlatSplit(t, b);
    var pre, post := Flat(t[..b]), Flat(t[b + 1..]);
    MiddleSorted(pre, t[b], post);
    forall x | x in Crowd(t[b], h) ensures x in Crowd(Flat(t), h) {
      var i :| 0 <= i < |t[b]| && t[b][i].Primary() == h && t[b][i].uid == x;
      assert (pre + t[b] + post)[|pre| + i] == t[b][i];
    }
    SmallerSet(Crowd(t[b], h), Crowd(Flat(t), h));
  }

  lemma MiddleSorted(pre: seq<Node>, c: seq<Node>, post: seq<Node>)
    requires Sorted(pre + c + post)
    ensures Sorted(c)
  {
    var s := pre + c + post;
    forall i, j | 0 <= i < j < |c| ensures c[i].uid < c[j].uid {
      assert s[|pre| + i] == c[i] && s[|pre| + j] == c[j];
    }
  }

  lemma InsertReady(t: Table, order: nat, hash: Hash, b: nat, k: nat, e: Node)
    requires FibOk(t, order, hash) && b < |t| && k <= |t[b]|
    requires e.Primary() == hash(e.key.prefix) && Bucket(e.Primary(), order) == b
    requires forall j :: 0 <= j < |t[b]| ==> if j < k then t[b][j].uid < e.uid else t[b][j].uid > e.uid
    requires forall n :: n in Flat(t) ==> n.key != e.key
    ensures var t' := t[b := InsertAt(t[b], k, e)];
      FibOk(t', order, hash) && |Flat(t')| == |Flat(t)| + 1 && (forall n :: n in Flat(t') <==> n in Flat(t) || n == e) &&
      e.uid !in Uids(Flat(t))
  {
    hide Flat, Pow2, Bucket;
    forall j | 0 <= j < |t[b]| ensures t[b][j].key != e.key {
      FlatMember(t, t[b][j]);
    }
    InsertNode(t, order, hash, b, k, e);
    forall i | 0 <= i < |Flat(t)| ensures Flat(t)[i].uid != e.uid {
      IdsDiffer(t[b := InsertAt(t[b], k, e)], e, Flat(t)[i]);
    }
  }

  lemma IdsDiffer(t: Table, e: Node, n: Node)
    requires Sorted(Flat(t)) && e in Flat(t) && n in Flat(t) && n.key != e.key
    ensures n.uid != e.uid
  {
    hide Flat;
    var i :| 0 <= i < |Flat(t)| && Flat(t)[i] == e;
    var j :| 0 <= j < |Flat(t)| && Flat(t)[j] == n;
    assert i < j || j < i;
  }

  lemma InsertUids(s: seq<Node>, s': seq<Node>, e: Node, readers: Readers, iters: map<It, Iterator>, home: map<It, Option<nat>>)
    requires ReadersOk(Uids(s), readers, iters, home) && forall n :: n in s' <==> n in s || n == e
    ensures Uids(s') == Uids(s) + {e.uid} && ReadersOk(Uids(s'), readers, iters, home)
  {
    UidsAre(s);
    UidsAre(s');
  }

  lemma UidsAre(s: seq<Node>)
    ensures forall n :: n in s ==> n.uid in Uids(s)
    ensures forall u :: u in Uids(s) ==> exists n :: n in s && n.uid == u
  {
    forall u | u in Uids(s) ensures exists n :: n in s && n.uid == u {
      var i :| 0 <= i < |s| && s[i].uid == u;
      assert s[i] in s;
    }
  }

  // The table of the largest size never grows again.
  lemma TooMany(t: Table, order: nat, hash: Hash)
    requires FibOk(t, order, hash)
    ensures |Flat(t)| <= 0x1_0000_0000
  {
    hide Flat, Placed, Pow2;
    var s := Flat(t);
    forall i | 0 <= i < |s| ensures s[i].uid < 0x1_0000_0000 {
      assert s[i].Primary() == hash(s[i].key.prefix);
    }
    SortedBound(s, 0x1_0000_0000);
  }

  lemma OrderBound(t: Table, order: nat, hash: Hash)
    requires FibOk(t, order, hash)
    ensures order <= 16
  {
  }

  // A key missing from its chain is missing from the table.
  lemma NotInChain(t: Table, order: nat, hash: Hash, k: Key, b: nat)
    requires FibOk(t, order, hash) && b == Bucket(hash(k.prefix), order) && b < |t|
    requires forall j :: 0 <= j < |t[b]| ==> t[b][j].key != k
    ensures forall n :: n in Flat(t) ==> n.key != k
  {
    hide Flat, Bucket;
    forall n | n in Flat(t) ensures n.key != k {
      InItsChain(t, order, n);
    }
  }
}
