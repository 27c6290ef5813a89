/**
 * The prefix trie of filter/trie.c on the heap: nodes linked by pointers, masks updated in place on
 * the way down. Every node carries its prefix as a ghost constant; `view` is the abstract trie.
 */
module Trie {

  import opened Addr
  import opened TrieModel
  import opened Options

  class TrieNode {
    const plen: nat
    const addr: IpAddr
    const mask: IpAddr
    var accept: IpAddr
    var c0: TrieNode?
    var c1: TrieNode?
    ghost const key: Prefix

    constructor (plen: nat, paddr: IpAddr, pmask: IpAddr, amask: IpAddr, ghost k: Prefix)
      ensures this.plen == plen && addr == paddr && mask == pmask && accept == amask && c0 == null && c1 == null
      ensures key == k
    {
      this.plen := plen;
      addr := paddr;
      mask := pmask;
      accept := amask;
      c0, c1 := null, null;
      key := k;
    }

    // The constant fields agree with the ghost prefix.
    ghost predicate Keyed() {
      plen == |key| && addr == Pad(key) && mask == MkMask(|key|)
    }

    // The abstract node.
    ghost function Value(): Node
      reads this
    {
      Node(accept, KeyAt(c0), KeyAt(c1))
    }

    function Child(b: bool): TrieNode?
      reads this
    {
      if b then c1 else c0
    }

    ghost predicate Within(nodes: set<TrieNode>)
      reads this
    {
      (c0 == null || c0 in nodes) && (c1 == null || c1 in nodes)
    }

    // attach_node: the child's own bit tells which side it belongs to
    method Attach(child: TrieNode)
      requires Keyed() && child.Keyed() && |key| < |child.key|
      modifies this`c0, this`c1
      ensures c0 == if child.key[|key|] then old(c0) else child
      ensures c1 == if child.key[|key|] then child else old(c1)
      ensures Value() == old(Value()).WithChild(child.key[|key|], child.key)
    {
      if child.addr[plen] {
        c1 := child;
      } else {
        c0 := child;
      }
    }
  }

  ghost function KeyAt(n: TrieNode?): Option<Prefix> {
    if n == null then None else Some(n.key)
  }

  ghost predicate AllKeyed(nodes: set<TrieNode>) {
    forall n :: n in nodes ==> n.Keyed()
  }

  // No two nodes have the same prefix.
  ghost predicate Distinct(nodes: set<TrieNode>) {
    forall n, m :: n in nodes && m in nodes && n.key == m.key ==> n == m
  }

  ghost predicate Closed(some: set<TrieNode>, nodes: set<TrieNode>)
    reads some
  {
    forall n :: n in some ==> n.Within(nodes)
  }

  ghost predicate Agrees(n: TrieNode, view: View)
    reads n
  {
    n.key in view && view[n.key] == n.Value()
  }

  ghost predicate Mirrored(nodes: set<TrieNode>, view: View)
    reads nodes
  {
    forall n :: n in nodes ==> Agrees(n, view)
  }

  function EmptyView(): View {
    map[[] := Node(MkMask(0), None, None)]
  }

  lemma EmptyTrie()
    ensures TrieOk(EmptyView(), {})
  {
  }

  // The empty prefix matches the patterns whose lengths start at zero.
  ghost predicate MatchesZero(pats: set<Pattern>) {
    exists p :: p in pats && p.low == 0
  }

  lemma MatchesZeroWith(pats: set<Pattern>, p: Pattern)
    ensures MatchesZero(pats + {p}) <==> MatchesZero(pats) || p.low == 0
  {
    assert p in pats + {p};
    if q :| q in pats && q.low == 0 {
      assert q in pats + {p};
    }
  }

  // w is v with a new node a below o.
  ghost predicate Entered(v: View, w: View, o: Prefix, a: Prefix, node: Node) {
    o in v && o in w && |o| < |a| && w[o] == v[o].WithChild(a[|o|], a) && a !in v && a in w && w[a] == node &&
    forall k :: k in v && k != o ==> k in w && w[k] == v[k]
  }

  lemma EnteredBelow(v: View, w: View, o: Prefix, a: Prefix, node: Node)
    requires Entered(v, w, o, a, node)
    ensures o in v && o in w && |o| < |a| && w[o] == v[o].WithChild(a[|o|], a) && a !in v
  {
  }

  lemma LeafEntered(v: View, o: Prefix, a: Prefix, accept: IpAddr)
    requires LeafPlace(v, o, a) && a !in v
    ensures Entered(v, AddLeaf(v, o, a, accept), o, a, Node(accept, None, None))
  {
  }

  lemma BetweenEntered(v: View, o: Prefix, a: Prefix, n: Prefix, accept: IpAddr)
    requires BetweenPlace(v, o, a, n) && a !in v
    ensures Entered(v, AddBetween(v, o, a, n, accept), o, a, Node(accept, None, None).WithChild(n[|a|], n))
  {
  }

  /* ---------- The walk towards the place of a pattern ---------- */

  // The test for being out of path compares the bits both prefixes have.
  lemma OutOfPath(k: Prefix, a: Prefix)
    ensures var cmask := And(MkMask(|k|), MkMask(|a|));
      And(Pad(a), cmask) == And(Pad(k), cmask) <==> Extends(k, a) || Extends(a, k)
  {
    var m := if |k| < |a| then |k| else |a|;
    MasksMeet(|k|, |a|);
    MaskedEqual(Pad(a), Pad(k), m);
    assert Pad(a)[..m] == a[..m] && Pad(k)[..m] == k[..m];
    assert |k| <= |a| ==> k[..m] == k;
    assert |a| <= |k| ==> a[..m] == a;
    if Extends(k, a) && |a| <= |k| {
      ExtendsSame(k, a);
    }
    if Extends(a, k) && |k| <= |a| {
      ExtendsSame(a, k);
    }
  }

  // The cursor: o is on the way to a and n, if any, is its child in that direction.
  ghost predicate Walking(v: View, o: Prefix, n: Option<Prefix>, a: Prefix) {
    o in v && |o| < |a| && Extends(o, a) && v[o].Child(a[|o|]) == n
  }

  lemma WayTo(v: View, o: Prefix, k: Prefix)
    requires ShapeOk(v) && o in v && k in v
    ensures |o| < |k| && Extends(o, k) ==> OnWay(v, o, k)
  {
  }

  // No node lies between o and its child n.
  lemma NothingBetween(v: View, o: Prefix, n: Prefix, a: Prefix, k: Prefix)
    requires ShapeOk(v) && Walking(v, o, Some(n), a) && k in v && Extends(k, n) && |k| < |n|
    ensures |k| < |o| + 1
  {
    assert HasChild(v, o, a[|o|], n);
    TurnsTowards(o, k, n);
    WayTo(v, o, k);
  }

  lemma PadAgree(a: Prefix, n: Prefix, len: nat, m: nat)
    requires len <= 32
    ensures m <= len && m <= |a| && m <= |n| && Pad(a)[..len] == Pad(n)[..len] ==> a[..m] == n[..m]
  {
    if m <= len && m <= |a| && m <= |n| && Pad(a)[..len] == Pad(n)[..len] {
      assert a[..m] == Pad(a)[..len][..m] && n[..m] == Pad(n)[..len][..m];
    }
  }

  // The longest prefix that two prefixes out of each other's path share.
  ghost function Meet(a: Prefix, n: Prefix): Prefix {
    var len := PxLen(Pad(a), Pad(n));
    if len < |a| then a[..len] else a
  }

  lemma MeetShared(a: Prefix, n: Prefix)
    requires !Extends(n, a) && !Extends(a, n)
    ensures |Meet(a, n)| == PxLen(Pad(a), Pad(n)) < |a| && |Meet(a, n)| < |n| && a[|Meet(a, n)|] != n[|Meet(a, n)|]
    ensures Extends(Meet(a, n), a) && Extends(Meet(a, n), n)
  {
    var len := PxLen(Pad(a), Pad(n));
    PadAgree(a, n, len, |a|);
    PadAgree(a, n, len, |n|);
    PadAgree(a, n, len, len);
    assert a[..|a|] == a && n[..|n|] == n;
  }

  lemma MeetBits(p: Pattern, n: Prefix)
    requires ValidPattern(p)
    ensures Meet(KeyOf(p), n) == p.px[..|Meet(KeyOf(p), n)|]
  {
  }

  // The new branching node of two prefixes lies strictly between the cursor and its child.
  lemma BranchPoint(v: View, o: Prefix, n: Prefix, a: Prefix)
    requires ShapeOk(v) && Walking(v, o, Some(n), a) && !Extends(n, a) && !Extends(a, n)
    ensures BranchPlace(v, o, Meet(a, n), n, a)
  {
    hide PxLen, PathsOk, Meet;
    assert HasChild(v, o, a[|o|], n);
    MeetShared(a, n);
    ExtendsBit(o, a, |Meet(a, n)|);
    ExtendsBit(o, n, |Meet(a, n)|);
    ExtendsLinear(o, Meet(a, n), a);
  }

  // What the trie is before and after the leaf of the pattern is attached to its branching node.
  lemma BranchTrie(v: View, pats: set<Pattern>, p: Pattern, o: Prefix, n: Prefix)
    requires Inserting(v, pats, p, |o| + 1) && Walking(v, o, Some(n), KeyOf(p)) && n in v
    requires !Extends(n, KeyOf(p)) && !Extends(KeyOf(p), n)
    ensures BranchPlace(v, o, Meet(KeyOf(p), n), n, KeyOf(p))
    ensures TrieOk(AddBranch(v, p, o, Meet(KeyOf(p), n), n), pats + {p})
  {
    hide ShapeOk, AcceptOk, TrieOk, AddBranch, Meet;
    BranchPoint(v, o, n, KeyOf(p));
    FinishBranch(v, pats, p, o, Meet(KeyOf(p), n), n);
  }

  lemma BranchEntered(v: View, pats: set<Pattern>, p: Pattern, o: Prefix, b: Prefix, n: Prefix)
    requires Inserting(v, pats, p, |o| + 1) && BranchPlace(v, o, b, n, KeyOf(p))
    ensures Entered(v, Branching(v, p, o, b, n), o, b, Node(BranchMask(p, v[n].accept, |b|), None, None).WithChild(n[|b|], n))
    ensures Entered(Branching(v, p, o, b, n), AddBranch(v, p, o, b, n), b, KeyOf(p), Node(MaskOf(p), None, None))
  {
    hide ShapeOk, AcceptOk, MaskOf, BranchMask, Entered;
    BranchingShape(v, pats, p, o, b, n);
    BetweenEntered(v, o, b, n, BranchMask(p, v[n].accept, |b|));
    AddLeafShape(Branching(v, p, o, b, n), b, KeyOf(p), MaskOf(p));
    LeafEntered(Branching(v, p, o, b, n), b, KeyOf(p), MaskOf(p));
  }

  lemma AllPassed(v: View, n: Prefix, d: nat)
    requires forall k :: k in v && Extends(k, n) && |k| < |n| ==> |k| < d
    ensures Passed(v, n, d)
  {
    forall k | k in v && k != n && Extends(k, n) ensures |k| < d {
      if |k| == |n| {
        ExtendsSame(k, n);
      }
    }
  }

  lemma BetweenTrie(v: View, pats: set<Pattern>, p: Pattern, o: Prefix, n: Prefix)
    requires Inserting(v, pats, p, |o| + 1) && Walking(v, o, Some(n), KeyOf(p)) && n in v
    requires Extends(KeyOf(p), n) && |KeyOf(p)| < |n|
    ensures var a, acc := KeyOf(p), BetweenMask(p, v[n].accept);
      BetweenPlace(v, o, a, n) && Entered(v, AddBetween(v, o, a, n, acc), o, a, Node(acc, None, None).WithChild(n[|a|], n)) &&
      TrieOk(AddBetween(v, o, a, n, acc), pats + {p})
  {
    hide AcceptOk, PatternKeysIn, CompressedOk, BetweenMask, TrieOk, KeyOf, Extends, LinksOk, PathsOk;
    AddBetweenShape(v, o, KeyOf(p), n, BetweenMask(p, v[n].accept));
    FinishBetween(v, pats, p, o, n);
    BetweenEntered(v, o, KeyOf(p), n, BetweenMask(p, v[n].accept));
  }

  lemma LeafTrie(v: View, pats: set<Pattern>, p: Pattern, o: Prefix)
    requires Inserting(v, pats, p, |o| + 1) && Walking(v, o, None, KeyOf(p))
    ensures var a := KeyOf(p);
      LeafPlace(v, o, a) && Entered(v, AddLeaf(v, o, a, MaskOf(p)), o, a, Node(MaskOf(p), None, None)) &&
      TrieOk(AddLeaf(v, o, a, MaskOf(p)), pats + {p})
  {
    hide AcceptOk, PatternKeysIn, CompressedOk, MaskOf, TrieOk, KeyOf, Extends, LinksOk, PathsOk;
    AddLeafShape(v, o, KeyOf(p), MaskOf(p));
    FinishLeaf(v, pats, p, o);
    LeafEntered(v, o, KeyOf(p), MaskOf(p));
  }

  /* ---------- The matching walk ---------- */

  // The walk for q has come to k: nothing above k accepts q, the rest that could is at or below k.
  ghost predicate Searching(v: View, q: Prefix, n: Option<Prefix>)
    requires q != []
  {
    match n
    case None => forall m :: m in v && (Extends(m, q) || Extends(q, m)) ==> !v[m].accept[|q| - 1]
    case Some(k) =>
      k in v && (forall m :: m in v && (Extends(m, q) || Extends(q, m)) && !Extends(k, m) ==> !v[m].accept[|q| - 1])
  }

  lemma ZeroMeaning(pats: set<Pattern>)
    requires ValidPatterns(pats)
    ensures SetMatches(pats, []) <==> MatchesZero(pats)
  {
    if p :| p in pats && p.low == 0 {
      assert PatternMatches(p, []);
    }
  }

  lemma SearchStarts(v: View, pats: set<Pattern>, q: Prefix)
    requires TrieOk(v, pats) && q != []
    ensures Searching(v, q, Some([]))
  {
  }

  lemma SearchLeaves(v: View, q: Prefix, k: Prefix)
    requires q != [] && Searching(v, q, Some(k)) && !Extends(k, q) && !Extends(q, k)
    ensures !ViewMatches(v, q)
  {
    forall m | m in v && (Extends(m, q) || Extends(q, m)) ensures !v[m].accept[|q| - 1] {
      OffPath(k, q, m);
    }
  }

  lemma OffPath(k: Prefix, q: Prefix, m: Prefix)
    requires !Extends(k, q) && !Extends(q, k) && (Extends(m, q) || Extends(q, m))
    ensures !Extends(k, m)
  {
    if Extends(k, m) {
      if Extends(m, q) {
        ExtendsTrans(k, m, q);
      } else if |k| <= |q| {
        ExtendsLinear(k, q, m);
      } else {
        ExtendsLinear(q, k, m);
      }
    }
  }

  lemma SearchHits(v: View, q: Prefix, k: Prefix)
    requires q != [] && k in v && (Extends(k, q) || Extends(q, k)) && v[k].accept[|q| - 1]
    ensures ViewMatches(v, q)
  {
  }

  lemma SearchEnds(v: View, pats: set<Pattern>, q: Prefix, k: Prefix)
    requires TrieOk(v, pats) && q != [] && Searching(v, q, Some(k)) && k in v && |q| <= |k|
    requires (Extends(k, q) || Extends(q, k)) && !v[k].accept[|q| - 1]
    ensures !ViewMatches(v, q)
  {
    hide TrieOk;
    forall m | m in v && (Extends(m, q) || Extends(q, m)) ensures !v[m].accept[|q| - 1] {
      if Extends(k, m) {
        AcceptBelow(v, pats, k, m, |q| - 1);
      }
    }
  }

  lemma SearchStep(v: View, pats: set<Pattern>, q: Prefix, k: Prefix)
    requires TrieOk(v, pats) && q != [] && Searching(v, q, Some(k)) && k in v && |k| < |q|
    requires (Extends(k, q) || Extends(q, k)) && !v[k].accept[|q| - 1]
    ensures Searching(v, q, v[k].Child(q[|k|]))
    ensures var c := v[k].Child(q[|k|]); c.Some? ==> |k| < |c.value|
  {
    hide AcceptOk, PatternKeysIn, CompressedOk, Searching;
    var c := v[k].Child(q[|k|]);
    if c.Some? {
      assert HasChild(v, k, q[|k|], c.value);
    }
    forall m | m in v && (Extends(m, q) || Extends(q, m)) && (c == None || !Extends(c.value, m)) ensures !v[m].accept[|q| - 1] {
      StepMisses(v, q, k, m);
    }
    SearchNext(v, q, k);
  }

  lemma SearchNext(v: View, q: Prefix, k: Prefix)
    requires k in v && |k| < |q|
    requires var c := v[k].Child(q[|k|]);
      (c.Some? ==> c.value in v) &&
      forall m :: m in v && (Extends(m, q) || Extends(q, m)) && (c == None || !Extends(c.value, m)) ==> !v[m].accept[|q| - 1]
    ensures Searching(v, q, v[k].Child(q[|k|]))
  {
  }

  // A node that could accept q lies below the child towards q, above k or is k.
  lemma StepMisses(v: View, q: Prefix, k: Prefix, m: Prefix)
    requires ShapeOk(v) && q != [] && Searching(v, q, Some(k)) && k in v && |k| < |q|
    requires (Extends(k, q) || Extends(q, k)) && !v[k].accept[|q| - 1]
    requires m in v && (Extends(m, q) || Extends(q, m))
    requires v[k].Child(q[|k|]) == None || !Extends(v[k].Child(q[|k|]).value, m)
    ensures !v[m].accept[|q| - 1]
  {
    WayTo(v, k, m);
    ExtendsBit(m, q, |k|);
    ExtendsBit(q, m, |k|);
    if Extends(k, m) && |k| == |m| {
      ExtendsSame(k, m);
    }
  }

  lemma SearchNone(v: View, q: Prefix)
    requires q != [] && Searching(v, q, None)
    ensures !ViewMatches(v, q)
  {
  }

  lemma PadBits(q: Prefix, i: nat)
    ensures i < |q| ==> Pad(q)[i] == q[i]
  {
  }

  /* ---------- Comparing tries ---------- */

  // The nodes at and below two places are the same.
  ghost predicate Equal(v: View, w: View, a: Option<Prefix>, b: Option<Prefix>)
    requires ShapeOk(v) && ShapeOk(w) && (a.Some? ==> a.value in v) && (b.Some? ==> b.value in w)
    decreases if a.Some? then 33 - |a.value| else 0
  {
    if a == None || b == None then a == b
    else
      ChildrenIn(v, a.value);
      ChildrenIn(w, b.value);
      a == b && v[a.value].accept == w[b.value].accept && Equal(v, w, v[a.value].c0, w[b.value].c0) &&
      Equal(v, w, v[a.value].c1, w[b.value].c1)
  }

  lemma ChildrenIn(v: View, k: Prefix)
    requires ShapeOk(v) && k in v
    ensures v[k].c0.Some? ==> v[k].c0.value in v && |k| < |v[k].c0.value|
    ensures v[k].c1.Some? ==> v[k].c1.value in v && |k| < |v[k].c1.value|
  {
    if v[k].c0.Some? {
      assert HasChild(v, k, false, v[k].c0.value);
    }
    if v[k].c1.Some? {
      assert HasChild(v, k, true, v[k].c1.value);
    }
  }

  lemma SamePad(a: Prefix, b: Prefix)
    ensures |a| == |b| && Pad(a) == Pad(b) ==> a == b
  {
    assert Pad(a)[..|a|] == a && Pad(b)[..|b|] == b;
  }

  // Every node of either trie is reached, with equal nodes on the way.
  lemma {:induction false} EqualReaches(v: View, w: View, n: Prefix, k: Prefix)
    requires ShapeOk(v) && ShapeOk(w) && n in v && n in w && Equal(v, w, Some(n), Some(n))
    requires Extends(n, k) && (k in v || k in w)
    ensures k in v && k in w && v[k] == w[k]
    decreases |k| - |n|
  {
    if |n| == |k| {
      ExtendsSame(n, k);
      ChildrenIn(v, n);
      ChildrenIn(w, n);
    } else {
      var u := if k in v then v else w;
      assert OnWay(u, n, k);
      ChildrenIn(v, n);
      ChildrenIn(w, n);
      EqualReaches(v, w, u[n].Child(k[|n|]).value, k);
    }
  }

  lemma {:induction false} EqualRefl(v: View, n: Option<Prefix>)
    requires ShapeOk(v) && (n.Some? ==> n.value in v)
    ensures Equal(v, v, n, n)
    decreases if n.Some? then 33 - |n.value| else 0
  {
    if n.Some? {
      ChildrenIn(v, n.value);
      EqualRefl(v, v[n.value].c0);
      EqualRefl(v, v[n.value].c1);
    }
  }

  lemma EqualIsSame(v: View, pats: set<Pattern>, w: View, others: set<Pattern>)
    requires TrieOk(v, pats) && TrieOk(w, others)
    ensures Equal(v, w, Some([]), Some([])) <==> v == w
  {
    hide AcceptOk, PatternKeysIn, CompressedOk, Equal, LinksOk, PathsOk;
    if v == w {
      EqualRefl(v, Some([]));
    }
    if Equal(v, w, Some([]), Some([])) {
      forall k: Prefix | k in v || k in w ensures k in v && k in w && v[k] == w[k] {
        EqualReaches(v, w, [], k);
      }
    }
  }

  // Equal sets of patterns give equal tries, equal tries give equal answers.
  lemma SamePatterns(v: View, pats: set<Pattern>, w: View, others: set<Pattern>)
    requires TrieOk(v, pats) && TrieOk(w, others)
    ensures pats == others ==> v == w
    ensures v == w && MatchesZero(pats) == MatchesZero(others) ==>
      forall q: Prefix :: SetMatches(pats, q) <==> SetMatches(others, q)
  {
    hide TrieOk, SetMatches, MatchesZero, ViewMatches;
    if pats == others {
      Canonical(v, w, pats);
    }
    if v == w && MatchesZero(pats) == MatchesZero(others) {
      forall q: Prefix ensures SetMatches(pats, q) <==> SetMatches(others, q) {
        if q == [] {
          TrieZero(v, pats);
          TrieZero(w, others);
        } else {
          MatchMeaning(v, pats, q);
          MatchMeaning(w, others, q);
        }
      }
    }
  }

  lemma TrieZero(v: View, pats: set<Pattern>)
    requires TrieOk(v, pats)
    ensures SetMatches(pats, []) <==> MatchesZero(pats)
  {
    ZeroMeaning(pats);
  }

  class Trie {
    var zero: bool
    const root: TrieNode
    ghost var nodes: set<TrieNode>
    ghost var view: View
    ghost var pats: set<Pattern>

    constructor ()
      ensures Valid() && pats == {} && fresh(nodes)
    {
      zero := false;
      var r := new TrieNode(0, Pad([]), MkMask(0), MkMask(0), []);
      root := r;
      nodes := {r};
      view := EmptyView();
      pats := {};
      new;
      EmptyTrie();
    }

    ghost predicate Structure()
      reads this`nodes, this`view, nodes
    {
      AllKeyed(nodes) && Distinct(nodes) && Closed(nodes, nodes) && Mirrored(nodes, view) && root in nodes && root.key == []
    }

    ghost predicate Valid()
      reads this, nodes
    {
      Structure() && TrieOk(view, pats) && zero == MatchesZero(pats)
    }

    // In-place update of one accept mask.
    method SetAccept(n: TrieNode, acc: IpAddr)
      requires Structure() && n in nodes
      modifies this`view, n`accept
      ensures Structure() && n.key in old(view) && view == old(view)[n.key := old(view)[n.key].(accept := acc)]
    {
      assert Agrees(n, view);
      n.accept := acc;
      view := view[n.key := view[n.key].(accept := acc)];
      forall m | m in nodes ensures Agrees(m, view) {
        assert old(Agrees(m, view));
      }
    }

    // A new leaf linked below node o.
    method NewLeaf(o: TrieNode, plen: nat, paddr: IpAddr, pmask: IpAddr, amask: IpAddr, ghost a: Prefix, ghost w: View)
      returns (an: TrieNode)
      requires Structure() && o in nodes && Entered(view, w, o.key, a, Node(amask, None, None))
      requires plen == |a| && paddr == Pad(a) && pmask == MkMask(|a|)
      modifies this`nodes, this`view, o`c0, o`c1
      ensures Structure() && view == w && nodes == old(nodes) + {an} && fresh(an) && an.key == a
    {
      Apart(o);
      an := new TrieNode(plen, paddr, pmask, amask, a);
      o.Attach(an);
      Enter(o, an, w);
    }

    // A new node linked between o and its child n.
    method NewBetween(o: TrieNode, n: TrieNode, plen: nat, paddr: IpAddr, pmask: IpAddr, amask: IpAddr,
                      ghost a: Prefix, ghost w: View)
      returns (an: TrieNode)
      requires Structure() && o in nodes && n in nodes && |a| < |n.key|
      requires Entered(view, w, o.key, a, Node(amask, None, None).WithChild(n.key[|a|], n.key))
      requires plen == |a| && paddr == Pad(a) && pmask == MkMask(|a|)
      modifies this`nodes, this`view, o`c0, o`c1
      ensures Structure() && view == w && nodes == old(nodes) + {an} && fresh(an) && an.key == a
    {
      Apart(o);
      hide Structure, AllKeyed, Mirrored, Distinct, Closed, Pad, MkMask, Entered;
      EnteredBelow(view, w, o.key, a, Node(amask, None, None).WithChild(n.key[|a|], n.key));
      an := new TrieNode(plen, paddr, pmask, amask, a);
      o.Attach(an);
      an.Attach(n);
      Enter(o, an, w);
    }

    // All nodes but o keep agreeing with the view while o is relinked.
    ghost predicate AllBut(o: TrieNode)
      reads this, nodes - {o}
    {
      AllKeyed(nodes) && Distinct(nodes) && Mirrored(nodes - {o}, view) && Closed(nodes - {o}, nodes) &&
      root in nodes && root.key == [] && forall n :: n in nodes ==> n.key in view
    }

    lemma Apart(o: TrieNode)
      requires Structure() && o in nodes
      ensures AllBut(o) && o.Keyed() && Agrees(o, view) && o.Within(nodes)
    {
      forall n | n in nodes ensures n.key in view {
        assert Agrees(n, view);
      }
    }

    ghost method Enter(o: TrieNode, an: TrieNode, w: View)
      requires AllBut(o) && o in nodes && an !in nodes && an.Keyed() && o.Within(nodes + {an}) && an.Within(nodes)
      requires o.key in w && o.Value() == w[o.key] && Entered(view, w, o.key, an.key, an.Value())
      modifies this`nodes, this`view
      ensures Structure() && view == w && nodes == old(nodes) + {an}
    {
      Joins(nodes, an);
      Relinked(nodes, o, an, view, w);
      view := w;
      nodes := nodes + {an};
    }

    // What trie_add_prefix computes of its arguments before the walk.
    static ghost predicate Prepared(p: Pattern, px: IpAddr, plen: nat, paddr: IpAddr, pmask: IpAddr, amask: IpAddr) {
      ValidPattern(p) && px == p.px && plen == |KeyOf(p)| && paddr == Pad(KeyOf(p)) && pmask == MkMask(plen) &&
      amask == MaskOf(p)
    }

    // State of the walk: o is the last node passed, n the next one to look at.
    ghost predicate At(o: TrieNode?, n: TrieNode?, p: Pattern)
      reads this`nodes, this`view, this`pats, nodes
    {
      Structure() && ValidPattern(p) && Inserting(view, pats, p, if o == null then 0 else |o.key| + 1) &&
      (n != null ==> n in nodes) &&
      if o == null then n == root else o in nodes && Walking(view, o.key, KeyAt(n), KeyOf(p))
    }

    lemma Facts(o: TrieNode, n: TrieNode, p: Pattern)
      requires At(o, n, p)
      ensures Structure() && o in nodes && n in nodes && n.plen == |n.key| && n.addr == Pad(n.key) && n.mask == MkMask(|n.key|)
      ensures ValidPattern(p) && Inserting(view, pats, p, |o.key| + 1) && Walking(view, o.key, Some(n.key), KeyOf(p))
      ensures ShapeOk(view) && n.key in view && view[n.key].accept == n.accept
    {
      hide ShapeOk, AcceptOk, Pad, MkMask, Extends, PatternKeysIn, CompressedOk;
      assert n.Keyed() && Agrees(n, view);
    }

    // The pattern leaves the path between o and n: a branching node and a leaf are added.
    method Branch(o: TrieNode, n: TrieNode, px: IpAddr, plen: nat, paddr: IpAddr, pmask: IpAddr, amask: IpAddr, ghost p: Pattern)
      returns (an: TrieNode)
      requires At(o, n, p) && !Extends(n.key, KeyOf(p)) && !Extends(KeyOf(p), n.key)
      requires Prepared(p, px, plen, paddr, pmask, amask)
      modifies this`nodes, this`view, o`c0, o`c1
      ensures Structure() && TrieOk(view, pats + {p}) && an in nodes && an.key == KeyOf(p) && fresh(nodes - old(nodes))
    {
      hide At, Inserting, ShapeOk, Structure, TrieOk, BranchPlace, AddBranch, Branching, PxLen, MkMask, Pad,
        Entered, Extends, MaskOf, Meet, And, Or, KeyOf;
      Facts(o, n, p);
      ghost var a, v, nk := KeyOf(p), view, n.key;
      ghost var b := Meet(a, nk);
      BranchTrie(v, pats, p, o.key, nk);
      BranchEntered(v, pats, p, o.key, b, nk);
      MeetShared(a, nk);
      MeetBits(p, nk);
      var blen := PxLen(paddr, n.addr);
      var bmask := MkMask(blen);
      var baddr := And(px, bmask);
      var baccm := And(Or(amask, n.accept), bmask);
      MaskedIsPad(px, blen);
      var bn := NewBetween(o, n, blen, baddr, bmask, baccm, b, Branching(v, p, o.key, b, nk));
      an := NewLeaf(bn, plen, paddr, pmask, amask, a, AddBranch(v, p, o.key, b, nk));
    }

    // The pattern's node is put between o and n.
    method Between(o: TrieNode, n: TrieNode, plen: nat, paddr: IpAddr, pmask: IpAddr, amask0: IpAddr, ghost p: Pattern)
      returns (an: TrieNode)
      requires At(o, n, p) && Extends(KeyOf(p), n.key) && |KeyOf(p)| < |n.key|
      requires Prepared(p, p.px, plen, paddr, pmask, amask0)
      modifies this`nodes, this`view, o`c0, o`c1
      ensures Structure() && TrieOk(view, pats + {p}) && an in nodes && an.key == KeyOf(p) && fresh(nodes - old(nodes))
    {
      hide At, Inserting, ShapeOk, Structure, TrieOk, AddBetween, MkMask, Pad, Entered, Extends, MaskOf, And, Or, KeyOf;
      Facts(o, n, p);
      BetweenTrie(view, pats, p, o.key, n.key);
      var amask := Or(amask0, And(n.accept, pmask));
      an := NewBetween(o, n, plen, paddr, pmask, amask, KeyOf(p), AddBetween(view, o.key, KeyOf(p), n.key, amask));
    }

    // No node in the direction of the pattern: it becomes a leaf of o.
    method Tail(o: TrieNode, plen: nat, paddr: IpAddr, pmask: IpAddr, amask: IpAddr, ghost p: Pattern)
      returns (an: TrieNode)
      requires At(o, null, p) && Prepared(p, p.px, plen, paddr, pmask, amask)
      modifies this`nodes, this`view, o`c0, o`c1
      ensures Structure() && TrieOk(view, pats + {p}) && an in nodes && an.key == KeyOf(p) && fresh(nodes - old(nodes))
    {
      hide Inserting, ShapeOk, Structure, Walking, TrieOk, AddLeaf, MkMask, Pad, Entered, Extends, MaskOf, KeyOf;
      LeafTrie(view, pats, p, o.key);
      an := NewLeaf(o, plen, paddr, pmask, amask, KeyOf(p), AddLeaf(view, o.key, KeyOf(p), amask));
    }

    // n is the node of the pattern.
    method Found(ghost o: TrieNode?, n: TrieNode, amask: IpAddr, ghost p: Pattern)
      requires At(o, n, p) && n.key == KeyOf(p) && amask == MaskOf(p)
      modifies this`view, n`accept
      ensures Structure() && TrieOk(view, pats + {p})
    {
      hide Inserting, ShapeOk, Structure, TrieOk, Extends, MaskOf, KeyOf, Or;
      Arrived(o, n, p);
      ghost var v := view;
      AllPassed(v, n.key, if o == null then 0 else |o.key| + 1);
      SetAccept(n, Or(n.accept, amask));
      FinishHere(v, pats, p, if o == null then 0 else |o.key| + 1, view);
    }

    // n is on the way to the pattern: its mask takes the lengths within its own, the walk goes on below it.
    method Pass(ghost o: TrieNode?, n: TrieNode, paddr: IpAddr, amask: IpAddr, ghost p: Pattern) returns (next: TrieNode?)
      requires At(o, n, p) && Extends(n.key, KeyOf(p)) && |n.key| < |KeyOf(p)|
      requires amask == MaskOf(p) && paddr == Pad(KeyOf(p))
      modifies this`view, n`accept
      ensures At(n, next, p) && (next != null ==> |n.key| < |next.key|)
    {
      hide Inserting, ShapeOk, Structure, Extends, MaskOf, KeyOf, Or, And, MkMask;
      Arrived(o, n, p);
      ghost var v := view;
      SetAccept(n, Or(n.accept, And(amask, n.mask)));
      PassNode(v, pats, p, if o == null then 0 else |o.key| + 1, n.key, view);
      next := if paddr[n.plen] then n.c1 else n.c0;
      Onwards(n, next, p);
    }

    // Between the last node and n there is no other on the way.
    lemma Arrived(o: TrieNode?, n: TrieNode, p: Pattern)
      requires At(o, n, p)
      ensures n in nodes && Structure() && n.key in view && view[n.key].accept == n.accept && n.Keyed()
      ensures (if o == null then 0 else |o.key| + 1) <= |n.key|
      ensures forall k :: k in view && Extends(k, n.key) && |k| < |n.key| ==> |k| < if o == null then 0 else |o.key| + 1
    {
      hide AcceptOk, PatternKeysIn, CompressedOk, Extends, KeyOf, PathsOk;
      assert Agrees(n, view);
      if o != null {
        assert HasChild(view, o.key, KeyOf(p)[|o.key|], n.key);
        forall k | k in view && Extends(k, n.key) && |k| < |n.key| ensures |k| < |o.key| + 1 {
          NothingBetween(view, o.key, n.key, KeyOf(p), k);
        }
      }
    }

    lemma Onwards(n: TrieNode, next: TrieNode?, p: Pattern)
      requires Structure() && n in nodes && Inserting(view, pats, p, |n.key| + 1)
      requires Extends(n.key, KeyOf(p)) && |n.key| < |KeyOf(p)|
      requires next == n.Child(KeyOf(p)[|n.key|])
      ensures At(n, next, p) && (next != null ==> |n.key| < |next.key|)
    {
      hide AcceptOk, PatternKeysIn, CompressedOk, Extends, KeyOf, PathsOk;
      assert Agrees(n, view) && n.Within(nodes);
      if next != null {
        assert HasChild(view, n.key, KeyOf(p)[|n.key|], next.key);
      }
    }

    // trie_add_prefix
    method AddPrefix(px: IpAddr, plen0: nat, l0: nat, h: nat) returns (an: TrieNode)
      requires Valid() && ValidPattern(Pattern(px, plen0, l0, h))
      modifies this, nodes
      ensures Valid() && pats == old(pats) + {Pattern(px, plen0, l0, h)}
      ensures an in nodes && an.key == KeyOf(Pattern(px, plen0, l0, h)) && fresh(nodes - old(nodes))
    {
      hide TrieOk, Inserting, Structure, Walking, Pad, MkMask, And, Or, Xor, Extends, MatchesZero;
      ghost var p := Pattern(px, plen0, l0, h);
      MatchesZeroWith(pats, p);
      var l := l0;
      if l == 0 {
        zero := true;
      } else {
        l := l - 1;
      }
      var plen := plen0;
      if h < plen {
        plen := h;
      }
      var amask := Xor(MkMask(l), MkMask(h));
      var pmask := MkMask(plen);
      var paddr := And(px, pmask);
      MaskedIsPad(px, plen);
      var o: TrieNode?, n: TrieNode? := null, root;
      Depart(p);
      while n != null
        invariant At(o, n, p) && (n == null ==> o != null)
        invariant unchanged(this`pats) && nodes == old(nodes) && zero == (old(zero) || l0 == 0)
        decreases if n == null then 0 else 33 - |n.key|
      {
        Look(o, n, p);
        var cmask := And(n.mask, pmask);
        if And(paddr, cmask) != And(n.addr, cmask) {
          an := Branch(o, n, px, plen, paddr, pmask, amask, p);
          pats := pats + {p};
          return;
        }
        if plen < n.plen {
          an := Between(o, n, plen, paddr, pmask, amask, p);
          pats := pats + {p};
          return;
        }
        if plen == n.plen {
          Found(o, n, amask, p);
          pats := pats + {p};
          return n;
        }
        var next := Pass(o, n, paddr, amask, p);
        o, n := n, next;
      }
      an := Tail(o, plen, paddr, pmask, amask, p);
      pats := pats + {p};
    }

    lemma Depart(p: Pattern)
      requires Structure() && TrieOk(view, pats) && ValidPattern(p)
      ensures At(null, root, p)
    {
      StartInserting(view, pats, p);
    }

    // What the comparison of masked addresses tells at node n.
    lemma Look(o: TrieNode?, n: TrieNode, p: Pattern)
      requires At(o, n, p)
      ensures n in nodes && n.plen == |n.key| && n.addr == Pad(n.key) && n.mask == MkMask(|n.key|)
      ensures var cmask := And(MkMask(|n.key|), MkMask(|KeyOf(p)|));
        And(Pad(KeyOf(p)), cmask) == And(Pad(n.key), cmask) <==> Extends(n.key, KeyOf(p)) || Extends(KeyOf(p), n.key)
      ensures !Extends(n.key, KeyOf(p)) && !Extends(KeyOf(p), n.key) ==> o != null
      ensures Extends(KeyOf(p), n.key) && |KeyOf(p)| < |n.key| ==> o != null
      ensures |KeyOf(p)| < |n.key| ==> !Extends(n.key, KeyOf(p))
      ensures Extends(n.key, KeyOf(p)) || Extends(KeyOf(p), n.key) ==>
        if |n.key| == |KeyOf(p)| then n.key == KeyOf(p) else |n.key| < |KeyOf(p)| ==> Extends(n.key, KeyOf(p))
    {
      hide Inserting, And, MkMask, Pad, KeyOf;
      OutOfPath(n.key, KeyOf(p));
    }

    // trie_match_prefix
    method MatchPrefix(px: IpAddr, plen: nat) returns (r: bool)
      requires Valid() && plen <= 32
      ensures r <==> SetMatches(pats, px[..plen])
    {
      hide TrieOk, Structure, Searching, And, MkMask, Pad, SetMatches, Extends, ViewMatches, MatchesZero;
      var pmask := MkMask(plen);
      var paddr := And(px, pmask);
      ghost var q := px[..plen];
      if plen == 0 {
        TrieZero(view, pats);
        return zero;
      }
      var plentest := plen - 1;
      MaskedIsPad(px, plen);
      MatchMeaning(view, pats, q);
      SearchStarts(view, pats, q);
      var n: TrieNode? := root;
      Seen(root);
      while n != null
        invariant n != null ==> n in nodes
        invariant Searching(view, q, KeyAt(n))
        decreases if n == null then 0 else 33 - |n.key|
      {
        Seen(n);
        var cmask := And(n.mask, pmask);
        OutOfPath(n.key, q);
        if And(paddr, cmask) != And(n.addr, cmask) {
          SearchLeaves(view, q, n.key);
          return false;
        }
        if n.accept[plentest] {
          SearchHits(view, q, n.key);
          return true;
        }
        if plen <= n.plen {
          SearchEnds(view, pats, q, n.key);
          return false;
        }
        SearchStep(view, pats, q, n.key);
        PadBits(q, n.plen);
        n := if paddr[n.plen] then n.c1 else n.c0;
      }
      SearchNone(view, q);
      r := false;
    }

    // Node n of the trie and its abstract node.
    lemma Seen(n: TrieNode)
      requires Structure()
      ensures root in nodes && root.key == []
      ensures n in nodes ==>
        n.plen == |n.key| && n.addr == Pad(n.key) && n.mask == MkMask(|n.key|) && n.key in view && view[n.key] == n.Value() &&
        n.Within(nodes)
    {
      hide Pad, MkMask;
      if n in nodes {
        assert n.Keyed() && Agrees(n, view);
      }
    }

    // trie_same
    method Same(other: Trie) returns (r: bool)
      requires Valid() && other.Valid()
      ensures r <==> zero == other.zero && view == other.view
      ensures pats == other.pats ==> r
      ensures r ==> forall q: Prefix :: SetMatches(pats, q) <==> SetMatches(other.pats, q)
    {
      hide TrieOk, SetMatches, MatchesZero, Equal, Structure;
      Seen(root);
      other.Seen(other.root);
      EqualIsSame(view, pats, other.view, other.pats);
      SamePatterns(view, pats, other.view, other.pats);
      if zero != other.zero {
        return false;
      }
      r := NodeSame(this, root, other, other.root);
    }
  }

  // trie_node_same
  method NodeSame(t1: Trie, a: TrieNode?, t2: Trie, b: TrieNode?) returns (r: bool)
    requires t1.Valid() && t2.Valid() && (a != null ==> a in t1.nodes) && (b != null ==> b in t2.nodes)
    requires (a != null ==> a.key in t1.view) && (b != null ==> b.key in t2.view)
    ensures r <==> Equal(t1.view, t2.view, KeyAt(a), KeyAt(b))
    decreases if a == null then 0 else 33 - |a.key|
  {
    hide AcceptOk, PatternKeysIn, CompressedOk, Trie.Structure, MatchesZero, Pad, PathsOk;
    if a == null && b == null {
      return true;
    }
    if a == null || b == null {
      return false;
    }
    t1.Seen(a);
    t2.Seen(b);
    SamePad(a.key, b.key);
    if a.plen != b.plen || a.addr != b.addr || a.accept != b.accept {
      return false;
    }
    ChildrenIn(t1.view, a.key);
    ChildrenIn(t2.view, b.key);
    r := NodeSame(t1, a.c0, t2, b.c0);
    if r {
      r := NodeSame(t1, a.c1, t2, b.c1);
    }
  }

  lemma Joins(nodes: set<TrieNode>, an: TrieNode)
    requires AllKeyed(nodes) && Distinct(nodes) && an.Keyed() && forall n :: n in nodes ==> n.key != an.key
    ensures AllKeyed(nodes + {an}) && Distinct(nodes + {an})
  {
  }

  // Linking a new node below o changes nothing else.
  lemma Relinked(nodes: set<TrieNode>, o: TrieNode, an: TrieNode, v: View, w: View)
    requires Mirrored(nodes - {o}, v) && Closed(nodes - {o}, nodes) && o in nodes && Distinct(nodes + {an})
    requires Agrees(o, w) && Agrees(an, w) && forall k :: k in v && k != o.key && k != an.key ==> k in w && w[k] == v[k]
    requires o.Within(nodes + {an}) && an.Within(nodes)
    ensures Mirrored(nodes + {an}, w) && Closed(nodes + {an}, nodes + {an})
  {
    forall n | n in nodes + {an} ensures Agrees(n, w) && n.Within(nodes + {an}) {
      if n != o && n != an {
        assert n in nodes - {o} && Agrees(n, v) && n.Within(nodes);
      }
    }
  }
}
