/**
 * The compressed trie of prefix patterns (filter/trie.c) as a map from node prefixes to nodes, and
 * what must hold of it. The heap version is in Trie.dfy.
 */
module TrieModel {

  import opened Addr
  import opened Options

  // What trie_add_prefix is called with: px/plen{l,h}.
  datatype Pattern = Pattern(px: IpAddr, plen: nat, low: nat, high: nat)

  // The configuration grammar admits no other bounds.
  predicate ValidPattern(p: Pattern) {
    p.plen <= 32 && p.low <= p.high <= 32
  }

  // Documented meaning: prefix q matches when it agrees with the pattern on the bits they share
  // and its length is within the bounds.
  predicate PatternMatches(p: Pattern, q: Prefix) {
    p.low <= |q| <= p.high &&
    forall i :: 0 <= i < |q| && i < p.plen && i < 32 ==> p.px[i] == q[i]
  }

  ghost predicate SetMatches(pats: set<Pattern>, q: Prefix) {
    exists p :: p in pats && PatternMatches(p, q)
  }

  datatype Node = Node(accept: IpAddr, c0: Option<Prefix>, c1: Option<Prefix>)
  {
    function Child(b: bool): Option<Prefix> {
      if b then c1 else c0
    }

    function WithChild(b: bool, k: Prefix): Node {
      if b then this.(c1 := Some(k)) else this.(c0 := Some(k))
    }
  }

  type View = map<Prefix, Node>

  // The prefix of the node a pattern is stored in; lengths beyond `high` are cut off.
  function KeyOf(p: Pattern): Prefix
    requires ValidPattern(p)
  {
    p.px[..if p.high < p.plen then p.high else p.plen]
  }

  /* ---------- Invariants ---------- */

  predicate HasChild(v: View, k: Prefix, b: bool, c: Prefix) {
    k in v && v[k].Child(b) == Some(c)
  }

  // Children are more specific nodes of the trie, in the direction of their bit.
  ghost predicate LinksOk(v: View) {
    forall k: Prefix, b: bool, c: Prefix :: HasChild(v, k, b, c) ==> c in v && Turns(k, b, c)
  }

  // On the way to m, node n has a child that is still on the way to m.
  predicate OnWay(v: View, n: Prefix, m: Prefix)
    requires n in v && |n| < |m|
  {
    v[n].Child(m[|n|]).Some? && Extends(v[n].Child(m[|n|]).value, m)
  }

  ghost predicate PathsOk(v: View) {
    forall n, m :: n in v && m in v && |n| < |m| && Extends(n, m) ==> OnWay(v, n, m)
  }

  ghost predicate ShapeOk(v: View) {
    [] in v && LinksOk(v) && PathsOk(v)
  }

  // Pattern p makes node k accept prefixes of length i + 1: up to the node's own length any
  // pattern at or below the node does (mask M2), beyond it only one at the node itself (mask M1).
  predicate Contributes(p: Pattern, k: Prefix, i: nat)
    requires ValidPattern(p)
  {
    (if i < |k| then Extends(k, KeyOf(p)) else KeyOf(p) == k) && p.low <= i + 1 <= p.high
  }

  ghost predicate ValidPatterns(pats: set<Pattern>) {
    forall p :: p in pats ==> ValidPattern(p)
  }

  ghost predicate AcceptOk(accept: IpAddr, k: Prefix, pats: set<Pattern>)
    requires ValidPatterns(pats)
  {
    forall i :: 0 <= i < 32 ==> (accept[i] <==> exists p :: p in pats && Contributes(p, k, i))
  }

  ghost predicate MasksOk(v: View, pats: set<Pattern>)
    requires ValidPatterns(pats)
  {
    forall k :: k in v ==> AcceptOk(v[k].accept, k, pats)
  }

  ghost predicate PatternKeysIn(v: View, pats: set<Pattern>)
    requires ValidPatterns(pats)
  {
    forall p :: p in pats ==> KeyOf(p) in v
  }

  // No useless nodes: every node but the root holds a pattern or branches, and has a pattern below.
  ghost predicate Needed(v: View, k: Prefix, pats: set<Pattern>)
    requires ValidPatterns(pats) && k in v
  {
    k == [] ||
    (((exists p :: p in pats && KeyOf(p) == k) || (v[k].c0.Some? && v[k].c1.Some?)) &&
     exists p :: p in pats && Extends(k, KeyOf(p)))
  }

  ghost predicate CompressedOk(v: View, pats: set<Pattern>)
    requires ValidPatterns(pats)
  {
    forall k :: k in v ==> Needed(v, k, pats)
  }

  ghost predicate TrieOk(v: View, pats: set<Pattern>) {
    ValidPatterns(pats) && ShapeOk(v) && MasksOk(v, pats) && PatternKeysIn(v, pats) && CompressedOk(v, pats)
  }

  /* ---------- Matching ---------- */

  // Some node on the path of q, or below q, accepts the length of q.
  predicate ViewMatches(v: View, q: Prefix)
    requires q != []
  {
    exists k :: k in v && (Extends(k, q) || Extends(q, k)) && v[k].accept[|q| - 1]
  }

  // The nodes say what the patterns say.
  lemma MatchMeaning(v: View, pats: set<Pattern>, q: Prefix)
    requires TrieOk(v, pats) && q != []
    ensures ViewMatches(v, q) <==> SetMatches(pats, q)
  {
    hide ShapeOk, CompressedOk, Extends, KeyOf, PatternMatches;
    if ViewMatches(v, q) {
      var k :| k in v && (Extends(k, q) || Extends(q, k)) && v[k].accept[|q| - 1];
      NodeAcceptsRightly(v, pats, k, q);
    }
    if SetMatches(pats, q) {
      var p :| p in pats && PatternMatches(p, q);
      PatternAccepts(v, pats, p, q);
    }
  }

  lemma PatternAccepts(v: View, pats: set<Pattern>, p: Pattern, q: Prefix)
    requires TrieOk(v, pats) && q != [] && p in pats && PatternMatches(p, q)
    ensures ViewMatches(v, q)
  {
    hide ShapeOk, CompressedOk, KeyOf, Extends;
    MatchesComparable(p, q);
    assert AcceptOk(v[KeyOf(p)].accept, KeyOf(p), pats);
    OwnContribution(p, q);
  }

  lemma OwnContribution(p: Pattern, q: Prefix)
    requires ValidPattern(p) && PatternMatches(p, q) && q != []
    ensures Contributes(p, KeyOf(p), |q| - 1)
  {
  }

  lemma NodeAcceptsRightly(v: View, pats: set<Pattern>, k: Prefix, q: Prefix)
    requires TrieOk(v, pats) && q != []
    requires k in v && (Extends(k, q) || Extends(q, k)) && v[k].accept[|q| - 1]
    ensures SetMatches(pats, q)
  {
    assert AcceptOk(v[k].accept, k, pats);
    var p :| p in pats && Contributes(p, k, |q| - 1);
    if |q| <= |k| {
      if Extends(k, q) {
        ExtendsSame(k, q);
      }
      ExtendsTrans(q, k, KeyOf(p));
    }
    ComparableMatches(p, q);
  }

  lemma ComparableMatches(p: Pattern, q: Prefix)
    requires ValidPattern(p) && p.low <= |q| <= p.high
    requires Extends(KeyOf(p), q) || Extends(q, KeyOf(p))
    ensures PatternMatches(p, q)
  {
    var k := KeyOf(p);
    forall i | 0 <= i < |q| && i < p.plen && i < 32 ensures p.px[i] == q[i] {
      assert i < |k|;
      assert p.px[i] == k[i];
      if Extends(k, q) {
        assert q[..|k|][i] == q[i];
      } else {
        assert k[..|q|][i] == k[i];
      }
    }
  }

  lemma MatchesComparable(p: Pattern, q: Prefix)
    requires ValidPattern(p) && PatternMatches(p, q)
    ensures Extends(KeyOf(p), q) || Extends(q, KeyOf(p))
  {
    var k := KeyOf(p);
    if |k| <= |q| {
      assert q[..|k|] == k;
    } else {
      assert k[..|q|] == q;
    }
  }

  // What a descendant accepts within the node's own length, the node accepts.
  lemma AcceptBelow(v: View, pats: set<Pattern>, k: Prefix, m: Prefix, i: nat)
    requires TrieOk(v, pats) && k in v && m in v && Extends(k, m) && i < |k|
    ensures v[m].accept[i] ==> v[k].accept[i]
  {
    assert AcceptOk(v[m].accept, m, pats) && AcceptOk(v[k].accept, k, pats);
    if v[m].accept[i] {
      var p :| p in pats && Contributes(p, m, i);
      ExtendsTrans(k, m, KeyOf(p));
      assert Contributes(p, k, i);
    }
  }

  /* ---------- Insertion: the three ways a node enters the trie ---------- */

  // A leaf a below o, in a direction where o has no child.
  function AddLeaf(v: View, o: Prefix, a: Prefix, accept: IpAddr): View
    requires o in v && |o| < |a|
  {
    v[o := v[o].WithChild(a[|o|], a)][a := Node(accept, None, None)]
  }

  // A node a between o and its child n.
  function AddBetween(v: View, o: Prefix, a: Prefix, n: Prefix, accept: IpAddr): View
    requires o in v && |o| < |a| < |n|
  {
    v[o := v[o].WithChild(a[|o|], a)][a := Node(accept, None, None).WithChild(n[|a|], n)]
  }

  predicate LeafPlace(v: View, o: Prefix, a: Prefix) {
    o in v && |o| < |a| && Extends(o, a) && v[o].Child(a[|o|]) == None
  }

  predicate BetweenPlace(v: View, o: Prefix, a: Prefix, n: Prefix) {
    o in v && |o| < |a| < |n| && Extends(o, a) && Extends(a, n) && HasChild(v, o, a[|o|], n)
  }

  // Nothing in the trie is at or below the place of a new leaf.
  lemma NothingBelowLeaf(v: View, o: Prefix, a: Prefix, m: Prefix)
    requires ShapeOk(v) && LeafPlace(v, o, a) && m in v
    ensures !Turns(o, a[|o|], m) && !Extends(a, m)
  {
    assert Turns(o, a[|o|], a);
    if Extends(a, m) {
      TurnsExtend(o, a[|o|], a, m);
    }
  }

  // Everything at or below the place of a node between o and n is at or below n.
  lemma BelowBetween(v: View, o: Prefix, a: Prefix, n: Prefix, m: Prefix)
    requires ShapeOk(v) && BetweenPlace(v, o, a, n) && m in v
    ensures Turns(o, a[|o|], m) ==> Extends(n, m)
    ensures Extends(a, m) ==> Extends(n, m)
    ensures m != a
  {
    assert Turns(o, a[|o|], a);
    if Extends(a, m) {
      TurnsExtend(o, a[|o|], a, m);
    }
  }

  lemma AddLeafShape(v: View, o: Prefix, a: Prefix, accept: IpAddr)
    requires ShapeOk(v) && LeafPlace(v, o, a)
    ensures ShapeOk(AddLeaf(v, o, a, accept)) && a !in v
  {
    var w := AddLeaf(v, o, a, accept);
    NothingBelowLeaf(v, o, a, o);
    if a in v {
      NothingBelowLeaf(v, o, a, a);
    }
    forall k: Prefix, b: bool, c: Prefix | HasChild(w, k, b, c) ensures c in w && Turns(k, b, c) {
      if k == o && b == a[|o|] {
        assert c == a;
      } else {
        assert HasChild(v, k, b, c);
      }
    }
    forall n, m | n in w && m in w && |n| < |m| && Extends(n, m) ensures OnWay(w, n, m) {
      if n == a {
        NothingBelowLeaf(v, o, a, m);
      } else if m == a {
        LeafPath(v, o, a, n);
      } else {
        assert OnWay(v, n, m);
        if n == o && m[|o|] == a[|o|] {
          assert Turns(o, a[|o|], m);
          NothingBelowLeaf(v, o, a, m);
        }
      }
    }
  }

  // Whoever covers the new leaf is o or leads to o.
  lemma LeafPath(v: View, o: Prefix, a: Prefix, n: Prefix)
    requires ShapeOk(v) && LeafPlace(v, o, a) && n in v && |n| < |a| && Extends(n, a)
    ensures n == o || (|n| < |o| && OnWay(v, n, a))
  {
    NothingBelowLeaf(v, o, a, n);
    TurnsTowards(o, n, a);
    LeadsOn(v, o, a, n);
  }

  // A node that covers a and is no longer than o, which covers a too, leads towards a.
  lemma LeadsOn(v: View, o: Prefix, a: Prefix, n: Prefix)
    requires ShapeOk(v) && o in v && n in v && Extends(o, a) && |o| < |a| && Extends(n, a)
    ensures |n| <= |o| ==> n == o || (|n| < |o| && OnWay(v, n, a))
  {
    if |n| <= |o| {
      ExtendsLinear(n, o, a);
      if |n| == |o| {
        ExtendsSame(n, o);
      } else {
        assert OnWay(v, n, o);
        ExtendsBit(o, a, |n|);
        ExtendsTrans(v[n].Child(o[|n|]).value, o, a);
      }
    }
  }

  lemma AddBetweenShape(v: View, o: Prefix, a: Prefix, n: Prefix, accept: IpAddr)
    requires ShapeOk(v) && BetweenPlace(v, o, a, n)
    ensures ShapeOk(AddBetween(v, o, a, n, accept)) && a !in v
  {
    var w := AddBetween(v, o, a, n, accept);
    if a in v {
      BelowBetween(v, o, a, n, a);
    }
    forall k: Prefix, b: bool, c: Prefix | HasChild(w, k, b, c) ensures c in w && Turns(k, b, c) {
      if k == o && b == a[|o|] {
        assert c == a;
      } else if k == a {
        assert c == n && HasChild(v, o, a[|o|], n);
      } else {
        assert HasChild(v, k, b, c);
      }
    }
    forall k, m | k in w && m in w && |k| < |m| && Extends(k, m) ensures OnWay(w, k, m) {
      if k == a {
        BelowBetween(v, o, a, n, m);
        ExtendsBit(n, m, |a|);
      } else if m == a {
        BetweenPath(v, o, a, n, k);
      } else {
        assert OnWay(v, k, m);
        if k == o && m[|o|] == a[|o|] {
          assert v[o].Child(m[|o|]).value == n;
          ExtendsTrans(a, n, m);
        }
      }
    }
  }

  lemma BetweenPath(v: View, o: Prefix, a: Prefix, n: Prefix, k: Prefix)
    requires ShapeOk(v) && BetweenPlace(v, o, a, n) && k in v && |k| < |a| && Extends(k, a)
    ensures k == o || (|k| < |o| && OnWay(v, k, a))
  {
    BelowBetween(v, o, a, n, k);
    TurnsTowards(o, k, a);
    LeadsOn(v, o, a, k);
  }

  /* ---------- What insertion does to the accept masks ---------- */

  // Accepted lengths low..high, with bit i standing for length i + 1.
  function LengthMask(low: nat, high: nat): IpAddr
    requires low <= 32 && high <= 32
  {
    Xor(MkMask(if low == 0 then 0 else low - 1), MkMask(high))
  }

  function MaskOf(p: Pattern): IpAddr
    requires ValidPattern(p)
  {
    LengthMask(p.low, p.high)
  }

  lemma MaskBits(p: Pattern, i: nat)
    requires ValidPattern(p) && i < 32
    ensures MaskOf(p)[i] <==> p.low <= i + 1 <= p.high
  {
  }

  // The node lies on the way to the new pattern: it takes the lengths within its own (M2).
  lemma AcceptOnWay(accept: IpAddr, k: Prefix, pats: set<Pattern>, p: Pattern)
    requires ValidPatterns(pats) && ValidPattern(p) && AcceptOk(accept, k, pats)
    requires Extends(k, KeyOf(p)) && k != KeyOf(p)
    ensures AcceptOk(Or(accept, And(MaskOf(p), MkMask(|k|))), k, pats + {p})
  {
    forall i | 0 <= i < 32
      ensures Or(accept, And(MaskOf(p), MkMask(|k|)))[i] <==> exists q :: q in pats + {p} && Contributes(q, k, i)
    {
      MaskBits(p, i);
      assert p in pats + {p};
    }
  }

  // The node of the pattern exists already.
  lemma AcceptHere(accept: IpAddr, k: Prefix, pats: set<Pattern>, p: Pattern)
    requires ValidPatterns(pats) && ValidPattern(p) && AcceptOk(accept, k, pats) && k == KeyOf(p)
    ensures AcceptOk(Or(accept, MaskOf(p)), k, pats + {p})
  {
    forall i | 0 <= i < 32 ensures Or(accept, MaskOf(p))[i] <==> exists q :: q in pats + {p} && Contributes(q, k, i) {
      MaskBits(p, i);
      assert p in pats + {p};
      assert k[..|k|] == k;
    }
  }

  // The node is not on the way to the pattern.
  lemma AcceptElsewhere(accept: IpAddr, k: Prefix, pats: set<Pattern>, p: Pattern)
    requires ValidPatterns(pats) && ValidPattern(p) && AcceptOk(accept, k, pats) && !Extends(k, KeyOf(p))
    ensures AcceptOk(accept, k, pats + {p})
  {
    assert Extends(k, k);
    forall i | 0 <= i < 32 ensures accept[i] <==> exists q :: q in pats + {p} && Contributes(q, k, i) {
    }
  }

  // A new leaf for the pattern, with no pattern below it.
  lemma AcceptLeaf(pats: set<Pattern>, p: Pattern)
    requires ValidPatterns(pats) && ValidPattern(p)
    requires forall q :: q in pats ==> !Extends(KeyOf(p), KeyOf(q))
    ensures AcceptOk(MaskOf(p), KeyOf(p), pats + {p})
  {
    var k := KeyOf(p);
    assert k[..|k|] == k;
    forall i | 0 <= i < 32 ensures MaskOf(p)[i] <==> exists q :: q in pats + {p} && Contributes(q, k, i) {
      MaskBits(p, i);
      assert p in pats + {p};
      forall q | q in pats ensures !Contributes(q, k, i) {
        assert !Extends(k, KeyOf(q));
      }
    }
  }

  // A new node k above n: what was below k is below n. `own` are the lengths k adds itself.
  lemma AcceptAbove(nacc: IpAddr, n: Prefix, k: Prefix, pats: set<Pattern>, p: Pattern, accept: IpAddr)
    requires ValidPatterns(pats) && ValidPattern(p) && AcceptOk(nacc, n, pats)
    requires Extends(k, n) && |k| < |n| && Extends(k, KeyOf(p))
    requires forall q :: q in pats && Extends(k, KeyOf(q)) ==> Extends(n, KeyOf(q))
    requires MaskAbove(p, nacc, k, accept)
    ensures AcceptOk(accept, k, pats + {p})
  {
    forall i | 0 <= i < 32 ensures accept[i] <==> exists q :: q in pats + {p} && Contributes(q, k, i) {
      MaskBits(p, i);
      assert p in pats + {p};
      if i < |k| && nacc[i] {
        var q :| q in pats && Contributes(q, n, i);
        ExtendsTrans(k, n, KeyOf(q));
        assert Contributes(q, k, i) && q in pats + {p};
      }
      forall q | q in pats && Contributes(q, k, i) ensures i < |k| && nacc[i] {
        assert k[..|k|] == k;
        assert Extends(k, KeyOf(q));
        if KeyOf(q) == k {
          ExtendsSame(k, KeyOf(q));
        }
        assert Contributes(q, n, i);
      }
    }
  }

  /* ---------- The state between the first mask update and the insertion ---------- */

  // Nodes on the way to the pattern that are shorter than d count it already, the others do not.
  ghost predicate Inserting(v: View, pats: set<Pattern>, p: Pattern, d: nat) {
    ValidPatterns(pats) && ValidPattern(p) &&
    ShapeOk(v) && PatternKeysIn(v, pats) && CompressedOk(v, pats) &&
    forall k :: k in v ==> AcceptOk(v[k].accept, k, if Extends(k, KeyOf(p)) && |k| < d then pats + {p} else pats)
  }

  lemma StartInserting(v: View, pats: set<Pattern>, p: Pattern)
    requires TrieOk(v, pats) && ValidPattern(p)
    ensures Inserting(v, pats, p, 0)
  {
  }

  // The walk passes node n, whose mask has been updated.
  lemma PassNode(v: View, pats: set<Pattern>, p: Pattern, d: nat, n: Prefix, w: View)
    requires Inserting(v, pats, p, d) && n in v && Extends(n, KeyOf(p)) && d <= |n| < |KeyOf(p)|
    requires forall k :: k in v && Extends(k, n) && |k| < |n| ==> |k| < d
    requires w == v[n := v[n].(accept := Or(v[n].accept, And(MaskOf(p), MkMask(|n|))))]
    ensures Inserting(w, pats, p, |n| + 1)
  {
    AcceptOnWay(v[n].accept, n, pats, p);
    SameLinks(v, w);
    forall k | k in w
      ensures AcceptOk(w[k].accept, k, if Extends(k, KeyOf(p)) && |k| < |n| + 1 then pats + {p} else pats)
    {
      if k != n && Extends(k, KeyOf(p)) && |k| <= |n| {
        ExtendsLinear(k, n, KeyOf(p));
        if |k| == |n| {
          ExtendsSame(k, n);
        }
      }
    }
    forall k | k in w ensures Needed(w, k, pats) {
      assert Needed(v, k, pats);
    }
  }

  // Changing accept masks does not touch the shape.
  lemma SameLinks(v: View, w: View)
    requires ShapeOk(v) && v.Keys == w.Keys && forall k :: k in v ==> w[k].c0 == v[k].c0 && w[k].c1 == v[k].c1
    ensures ShapeOk(w)
  {
    forall k: Prefix, b: bool, c: Prefix | HasChild(w, k, b, c) ensures c in w && Turns(k, b, c) {
      assert HasChild(v, k, b, c);
    }
    forall n, m | n in w && m in w && |n| < |m| && Extends(n, m) ensures OnWay(w, n, m) {
      assert OnWay(v, n, m);
    }
  }

  // Every node on the way to a is shorter than d.
  ghost predicate Passed(v: View, a: Prefix, d: nat) {
    forall k :: k in v && k != a && Extends(k, a) ==> |k| < d
  }

  // w has the nodes of v with the same masks and at least the same directions.
  ghost predicate Keeps(v: View, w: View, a: Prefix) {
    v.Keys <= w.Keys &&
    forall k :: k in v && k != a ==>
      w[k].accept == v[k].accept && (v[k].c0.Some? ==> w[k].c0.Some?) && (v[k].c1.Some? ==> w[k].c1.Some?)
  }

  ghost predicate GoodNode(w: View, k: Prefix, pats: set<Pattern>)
    requires ValidPatterns(pats) && k in w
  {
    AcceptOk(w[k].accept, k, pats) && Needed(w, k, pats)
  }

  // The nodes that w adds to v, and the one of the pattern, are good.
  ghost predicate NewGood(v: View, w: View, a: Prefix, pats: set<Pattern>)
    requires ValidPatterns(pats)
  {
    forall k :: k in w && (k !in v || k == a) ==> GoodNode(w, k, pats)
  }

  // What it takes to be a trie of the patterns and p.
  lemma Finish(v: View, w: View, pats: set<Pattern>, p: Pattern, d: nat)
    requires Inserting(v, pats, p, d) && ShapeOk(w) && KeyOf(p) in w
    requires Passed(v, KeyOf(p), d) && Keeps(v, w, KeyOf(p))
    requires NewGood(v, w, KeyOf(p), pats + {p})
    ensures TrieOk(w, pats + {p})
  {
    forall k | k in w ensures GoodNode(w, k, pats + {p}) {
      if k in v && k != KeyOf(p) {
        OldNodeGood(v, w, pats, p, d, k);
      }
    }
  }

  lemma OldNodeGood(v: View, w: View, pats: set<Pattern>, p: Pattern, d: nat, k: Prefix)
    requires Inserting(v, pats, p, d) && Passed(v, KeyOf(p), d) && Keeps(v, w, KeyOf(p))
    requires k in v && k != KeyOf(p)
    ensures GoodNode(w, k, pats + {p})
  {
    if !Extends(k, KeyOf(p)) {
      AcceptElsewhere(v[k].accept, k, pats, p);
    }
    assert Needed(v, k, pats);
    if k != [] {
      var q :| q in pats && Extends(k, KeyOf(q));
      assert q in pats + {p};
      if r :| r in pats && KeyOf(r) == k {
        assert r in pats + {p};
      }
    }
  }

  lemma NeededHere(w: View, pats: set<Pattern>, p: Pattern)
    requires ValidPatterns(pats) && ValidPattern(p) && KeyOf(p) in w
    ensures Needed(w, KeyOf(p), pats + {p})
  {
    assert p in pats + {p} && KeyOf(p)[..|KeyOf(p)|] == KeyOf(p);
  }

  lemma FinishHere(v: View, pats: set<Pattern>, p: Pattern, d: nat, w: View)
    requires Inserting(v, pats, p, d) && KeyOf(p) in v && d <= |KeyOf(p)|
    requires Passed(v, KeyOf(p), d)
    requires w == v[KeyOf(p) := v[KeyOf(p)].(accept := Or(v[KeyOf(p)].accept, MaskOf(p)))]
    ensures TrieOk(w, pats + {p})
  {
    hide ShapeOk, CompressedOk, AcceptOk, MaskOf, Passed, TrieOk, PatternKeysIn, Or;
    var a := KeyOf(p);
    AcceptHere(v[a].accept, a, pats, p);
    SameLinks(v, w);
    NeededHere(w, pats, p);
    Finish(v, w, pats, p, d);
  }

  // The walk stops at o without a child towards a.
  lemma LeafPassed(v: View, o: Prefix, a: Prefix)
    requires ShapeOk(v) && LeafPlace(v, o, a)
    ensures Passed(v, a, |o| + 1)
  {
    forall k | k in v && k != a && Extends(k, a) ensures |k| < |o| + 1 {
      if |k| < |a| {
        LeafPath(v, o, a, k);
      } else {
        ExtendsSame(k, a);
      }
    }
  }

  // The walk stops between o and n.
  lemma BetweenPassed(v: View, o: Prefix, b: Prefix, n: Prefix, a: Prefix)
    requires ShapeOk(v) && BetweenPlace(v, o, b, n) && Extends(b, a) && !Extends(n, a)
    ensures Passed(v, a, |o| + 1)
  {
    forall k | k in v && k != a && Extends(k, a) ensures |k| < |o| + 1 {
      BelowBetween(v, o, b, n, k);
      if |k| < |b| {
        ExtendsLinear(k, b, a);
        BetweenPath(v, o, b, n, k);
      } else {
        ExtendsLinear(b, k, a);
        ExtendsTrans(n, k, a);
      }
    }
  }

  // A new leaf for the pattern is a good node.
  lemma LeafGood(v: View, pats: set<Pattern>, p: Pattern, o: Prefix)
    requires ValidPatterns(pats) && ValidPattern(p) && PatternKeysIn(v, pats)
    requires ShapeOk(v) && LeafPlace(v, o, KeyOf(p))
    ensures GoodNode(AddLeaf(v, o, KeyOf(p), MaskOf(p)), KeyOf(p), pats + {p})
  {
    forall q | q in pats ensures !Extends(KeyOf(p), KeyOf(q)) {
      NothingBelowLeaf(v, o, KeyOf(p), KeyOf(q));
    }
    AcceptLeaf(pats, p);
    NeededHere(AddLeaf(v, o, KeyOf(p), MaskOf(p)), pats, p);
  }

  lemma LeafKeeps(v: View, o: Prefix, a: Prefix, accept: IpAddr)
    requires LeafPlace(v, o, a)
    ensures Keeps(v, AddLeaf(v, o, a, accept), a)
  {
  }

  lemma BetweenKeeps(v: View, o: Prefix, b: Prefix, n: Prefix, accept: IpAddr)
    requires BetweenPlace(v, o, b, n)
    ensures Keeps(v, AddBetween(v, o, b, n, accept), b)
  {
  }

  lemma FinishLeaf(v: View, pats: set<Pattern>, p: Pattern, o: Prefix)
    requires Inserting(v, pats, p, |o| + 1) && LeafPlace(v, o, KeyOf(p))
    ensures TrieOk(AddLeaf(v, o, KeyOf(p), MaskOf(p)), pats + {p})
  {
    hide ShapeOk, GoodNode, CompressedOk, AcceptOk, MaskOf, Passed, Keeps, TrieOk, PatternKeysIn;
    AddLeafShape(v, o, KeyOf(p), MaskOf(p));
    LeafGood(v, pats, p, o);
    LeafPassed(v, o, KeyOf(p));
    LeafKeeps(v, o, KeyOf(p), MaskOf(p));
    Finish(v, AddLeaf(v, o, KeyOf(p), MaskOf(p)), pats, p, |o| + 1);
  }

  // The mask of a node at k put above a node with mask nacc.
  predicate MaskAbove(p: Pattern, nacc: IpAddr, k: Prefix, accept: IpAddr)
    requires ValidPattern(p)
  {
    forall i :: 0 <= i < 32 ==> (accept[i] <==> (MaskOf(p)[i] && (i < |k| || k == KeyOf(p))) || (nacc[i] && i < |k|))
  }

  // The accept mask of a node put between o and n.
  lemma NewAbove(v: View, pats: set<Pattern>, p: Pattern, o: Prefix, b: Prefix, n: Prefix, accept: IpAddr)
    requires Inserting(v, pats, p, |o| + 1) && BetweenPlace(v, o, b, n) && Extends(b, KeyOf(p))
    requires n in v && MaskAbove(p, v[n].accept, b, accept)
    ensures AcceptOk(accept, b, pats + {p})
  {
    forall q | q in pats && Extends(b, KeyOf(q)) ensures Extends(n, KeyOf(q)) {
      BelowBetween(v, o, b, n, KeyOf(q));
    }
    AcceptAbove(v[n].accept, n, b, pats, p, accept);
  }

  function BetweenMask(p: Pattern, nacc: IpAddr): IpAddr
    requires ValidPattern(p)
  {
    Or(MaskOf(p), And(nacc, MkMask(|KeyOf(p)|)))
  }

  lemma BetweenMaskAbove(p: Pattern, nacc: IpAddr)
    requires ValidPattern(p)
    ensures MaskAbove(p, nacc, KeyOf(p), BetweenMask(p, nacc)) && Extends(KeyOf(p), KeyOf(p))
  {
  }

  lemma BetweenGood(v: View, pats: set<Pattern>, p: Pattern, o: Prefix, n: Prefix)
    requires Inserting(v, pats, p, |o| + 1) && BetweenPlace(v, o, KeyOf(p), n) && n in v
    ensures var w := AddBetween(v, o, KeyOf(p), n, BetweenMask(p, v[n].accept));
      ShapeOk(w) && NewGood(v, w, KeyOf(p), pats + {p})
  {
    var a, accept := KeyOf(p), BetweenMask(p, v[n].accept);
    hide BetweenMask, ShapeOk, AcceptOk, Needed, MaskAbove, PatternKeysIn, CompressedOk;
    BetweenMaskAbove(p, v[n].accept);
    AddBetweenShape(v, o, a, n, accept);
    NewAbove(v, pats, p, o, a, n, accept);
    NeededHere(AddBetween(v, o, a, n, accept), pats, p);
  }

  lemma FinishBetween(v: View, pats: set<Pattern>, p: Pattern, o: Prefix, n: Prefix)
    requires Inserting(v, pats, p, |o| + 1) && BetweenPlace(v, o, KeyOf(p), n) && n in v
    ensures TrieOk(AddBetween(v, o, KeyOf(p), n, BetweenMask(p, v[n].accept)), pats + {p})
  {
    var a, accept := KeyOf(p), BetweenMask(p, v[n].accept);
    BetweenGood(v, pats, p, o, n);
    BetweenPassed(v, o, a, n, a);
    BetweenKeeps(v, o, a, n, accept);
    Finish(v, AddBetween(v, o, a, n, accept), pats, p, |o| + 1);
  }

  function BranchMask(p: Pattern, nacc: IpAddr, blen: nat): IpAddr
    requires ValidPattern(p) && blen <= 32
  {
    And(Or(MaskOf(p), nacc), MkMask(blen))
  }

  predicate BranchPlace(v: View, o: Prefix, b: Prefix, n: Prefix, a: Prefix) {
    BetweenPlace(v, o, b, n) && n in v && Extends(b, a) && |b| < |a| && a[|b|] != n[|b|]
  }

  function AddBranch(v: View, p: Pattern, o: Prefix, b: Prefix, n: Prefix): View
    requires ValidPattern(p) && BranchPlace(v, o, b, n, KeyOf(p))
  {
    AddLeaf(Branching(v, p, o, b, n), b, KeyOf(p), MaskOf(p))
  }

  // The trie with the branching node b, before the leaf of the pattern is attached to it.
  function Branching(v: View, p: Pattern, o: Prefix, b: Prefix, n: Prefix): View
    requires ValidPattern(p) && BranchPlace(v, o, b, n, KeyOf(p))
  {
    AddBetween(v, o, b, n, BranchMask(p, v[n].accept, |b|))
  }

  lemma BranchingShape(v: View, pats: set<Pattern>, p: Pattern, o: Prefix, b: Prefix, n: Prefix)
    requires ValidPatterns(pats) && ValidPattern(p) && ShapeOk(v) && PatternKeysIn(v, pats)
    requires BranchPlace(v, o, b, n, KeyOf(p))
    ensures var u := Branching(v, p, o, b, n);
      ShapeOk(u) && LeafPlace(u, b, KeyOf(p)) && PatternKeysIn(u, pats) && b !in v
  {
    AddBetweenShape(v, o, b, n, BranchMask(p, v[n].accept, |b|));
  }

  // The pattern leaves the path between o and n: b branches to n and to the new leaf.
  lemma FinishBranch(v: View, pats: set<Pattern>, p: Pattern, o: Prefix, b: Prefix, n: Prefix)
    requires Inserting(v, pats, p, |o| + 1) && BranchPlace(v, o, b, n, KeyOf(p))
    ensures TrieOk(AddBranch(v, p, o, b, n), pats + {p})
  {
    var a := KeyOf(p);
    var u := Branching(v, p, o, b, n);
    BranchGood(v, pats, p, o, b, n);
    BranchingShape(v, pats, p, o, b, n);
    AddLeafShape(u, b, a, MaskOf(p));
    ExtendsBit(n, a, |b|);
    BetweenPassed(v, o, b, n, a);
    BetweenKeeps(v, o, b, n, BranchMask(p, v[n].accept, |b|));
    LeafKeeps(u, b, a, MaskOf(p));
    Finish(v, AddBranch(v, p, o, b, n), pats, p, |o| + 1);
  }

  lemma BranchGood(v: View, pats: set<Pattern>, p: Pattern, o: Prefix, b: Prefix, n: Prefix)
    requires Inserting(v, pats, p, |o| + 1) && BranchPlace(v, o, b, n, KeyOf(p))
    ensures NewGood(v, AddBranch(v, p, o, b, n), KeyOf(p), pats + {p})
  {
    hide ShapeOk, GoodNode, PatternKeysIn, CompressedOk, AcceptOk;
    BranchLeafGood(v, pats, p, o, b, n);
    BranchNodeGood(v, pats, p, o, b, n);
    TwoNewGood(v, AddBranch(v, p, o, b, n), KeyOf(p), b, pats + {p});
  }

  lemma TwoNewGood(v: View, w: View, a: Prefix, b: Prefix, pats: set<Pattern>)
    requires ValidPatterns(pats) && a in w && b in w && GoodNode(w, a, pats) && GoodNode(w, b, pats)
    requires w.Keys == v.Keys + {a, b}
    ensures NewGood(v, w, a, pats)
  {
  }

  lemma BranchLeafGood(v: View, pats: set<Pattern>, p: Pattern, o: Prefix, b: Prefix, n: Prefix)
    requires ValidPatterns(pats) && ValidPattern(p) && ShapeOk(v) && PatternKeysIn(v, pats)
    requires BranchPlace(v, o, b, n, KeyOf(p))
    ensures GoodNode(AddBranch(v, p, o, b, n), KeyOf(p), pats + {p})
  {
    BranchingShape(v, pats, p, o, b, n);
    LeafGood(Branching(v, p, o, b, n), pats, p, b);
  }

  lemma BranchMaskAbove(p: Pattern, nacc: IpAddr, b: Prefix)
    requires ValidPattern(p) && |b| < |KeyOf(p)|
    ensures MaskAbove(p, nacc, b, BranchMask(p, nacc, |b|))
  {
  }

  lemma BranchNodeGood(v: View, pats: set<Pattern>, p: Pattern, o: Prefix, b: Prefix, n: Prefix)
    requires Inserting(v, pats, p, |o| + 1) && BranchPlace(v, o, b, n, KeyOf(p))
    ensures GoodNode(AddBranch(v, p, o, b, n), b, pats + {p})
  {
    hide ShapeOk, AcceptOk, PatternKeysIn, CompressedOk, MaskAbove, MaskOf, BranchMask, Needed;
    var bacc := BranchMask(p, v[n].accept, |b|);
    BranchMaskAbove(p, v[n].accept, b);
    NewAbove(v, pats, p, o, b, n, bacc);
    BranchNeeded(AddBranch(v, p, o, b, n), b, pats, p);
  }

  lemma BranchNeeded(w: View, b: Prefix, pats: set<Pattern>, p: Pattern)
    requires ValidPatterns(pats) && ValidPattern(p) && b in w && w[b].c0.Some? && w[b].c1.Some? && Extends(b, KeyOf(p))
    ensures Needed(w, b, pats + {p})
  {
    assert p in pats + {p};
  }

  /* ---------- Canonical form ---------- */

  // The common prefix of two pattern keys is a node, found by walking from any node above it.
  lemma {:induction false} MeetIsNode(v: View, n: Prefix, p: Prefix, q: Prefix, meet: Prefix)
    requires ShapeOk(v) && n in v && p in v && q in v
    requires Extends(meet, p) && Extends(meet, q) && |meet| < |p| && |meet| < |q| && p[|meet|] != q[|meet|]
    requires Extends(n, meet)
    ensures meet in v
    decreases |meet| - |n|
  {
    if |n| == |meet| {
      ExtendsSame(n, meet);
    } else {
      ExtendsTrans(n, meet, p);
      ExtendsTrans(n, meet, q);
      assert OnWay(v, n, p) && OnWay(v, n, q);
      ExtendsBit(meet, p, |n|);
      ExtendsBit(meet, q, |n|);
      var c := v[n].Child(meet[|n|]).value;
      assert HasChild(v, n, meet[|n|], c);
      ExtendsBit(c, p, |meet|);
      ExtendsBit(c, q, |meet|);
      ExtendsLinear(c, meet, p);
      MeetIsNode(v, c, p, q, meet);
    }
  }

  // k is forced into the trie by the patterns alone.
  ghost predicate Forced(k: Prefix, pats: set<Pattern>)
    requires ValidPatterns(pats)
  {
    k == [] || (exists p :: p in pats && KeyOf(p) == k) ||
    exists p, q :: p in pats && q in pats && Turns(k, false, KeyOf(p)) && Turns(k, true, KeyOf(q))
  }

  lemma NodesAreForced(v: View, pats: set<Pattern>, k: Prefix)
    requires TrieOk(v, pats)
    ensures k in v <==> Forced(k, pats)
  {
    if k in v {
      assert Needed(v, k, pats);
      if k != [] && !(exists p :: p in pats && KeyOf(p) == k) {
        var c0, c1 := v[k].c0.value, v[k].c1.value;
        assert HasChild(v, k, false, c0) && HasChild(v, k, true, c1);
        assert Needed(v, c0, pats) && Needed(v, c1, pats);
        var p :| p in pats && Extends(c0, KeyOf(p));
        var q :| q in pats && Extends(c1, KeyOf(q));
        TurnsExtend(k, false, c0, KeyOf(p));
        TurnsExtend(k, true, c1, KeyOf(q));
      }
    }
    if Forced(k, pats) && k != [] && !(exists p :: p in pats && KeyOf(p) == k) {
      var p, q :| p in pats && q in pats && Turns(k, false, KeyOf(p)) && Turns(k, true, KeyOf(q));
      MeetIsNode(v, [], KeyOf(p), KeyOf(q), k);
    }
  }

  // A child is the shortest node in its direction, so it is determined by the set of nodes.
  lemma ChildrenDetermined(v: View, w: View, k: Prefix, b: bool)
    requires ShapeOk(v) && ShapeOk(w) && v.Keys == w.Keys && k in v
    ensures v[k].Child(b) == w[k].Child(b)
  {
    ChildExtends(v, w, k, b);
    ChildExtends(w, v, k, b);
    if v[k].Child(b).Some? && w[k].Child(b).Some? {
      ExtendsSame(v[k].Child(b).value, w[k].Child(b).value);
    }
  }

  lemma ChildExtends(v: View, w: View, k: Prefix, b: bool)
    requires ShapeOk(v) && ShapeOk(w) && v.Keys == w.Keys && k in v
    ensures v[k].Child(b).Some? ==> w[k].Child(b).Some? && Extends(w[k].Child(b).value, v[k].Child(b).value)
  {
    if v[k].Child(b).Some? {
      var c := v[k].Child(b).value;
      assert HasChild(v, k, b, c);
      assert OnWay(w, k, c);
    }
  }

  // The trie depends on the set of patterns only, not on the order of insertion.
  lemma Canonical(v: View, w: View, pats: set<Pattern>)
    requires TrieOk(v, pats) && TrieOk(w, pats)
    ensures v == w
  {
    forall k: Prefix ensures k in v <==> k in w {
      NodesAreForced(v, pats, k);
      NodesAreForced(w, pats, k);
    }
    assert v.Keys == w.Keys;
    forall k | k in v ensures v[k] == w[k] {
      ChildrenDetermined(v, w, k, false);
      ChildrenDetermined(v, w, k, true);
      assert AcceptOk(v[k].accept, k, pats) && AcceptOk(w[k].accept, k, pats);
      assert v[k].accept == w[k].accept;
    }
  }
}
