/**
 * Extended attribute lists (nest/rt-attr.c) as sequences: what sorting, pruning and merging do to
 * the value found for each attribute id.
 */
module EaModel {

  import opened Options
  import opened Lists

  // `undef` stands for EAF_TYPE_UNDEF and `originated` for the EAF_ORIGINATED bit.
  datatype Eattr = Eattr(id: nat, undef: bool, originated: bool, content: nat)

  type Attrs = seq<Eattr>

  /* ---------- Finding ---------- */

  // The attributes of one id, in order.
  function WithId(s: Attrs, id: nat): Attrs {
    if s == [] then [] else (if s[0].id == id then [s[0]] else []) + WithId(s[1..], id)
  }

  // The first attribute of the id.
  function First(s: Attrs, id: nat): Option<Eattr> {
    var w := WithId(s, id);
    if w == [] then None else Some(w[0])
  }

  // ea_find without EA_ALLOW_UNDEF: a `force undefined' entry hides the attribute
  function Found(a: Option<Eattr>): Option<Eattr> {
    if a.Some? && a.value.undef then None else a
  }

  // What an attribute contributes.
  function One(a: Eattr, id: nat): Attrs {
    if a.id == id then [a] else []
  }

  lemma WithIdCons(a: Eattr, s: Attrs, id: nat)
    ensures WithId([a] + s, id) == One(a, id) + WithId(s, id)
  {
    assert ([a] + s)[1..] == s;
  }

  lemma {:induction false} WithIdConcat(s: Attrs, t: Attrs, id: nat)
    ensures WithId(s + t, id) == WithId(s, id) + WithId(t, id)
  {
    if s == [] {
      assert s + t == t;
    } else {
      WithIdConcat(s[1..], t, id);
      SplitHead(s, t);
      WithIdCons(s[0], s[1..] + t, id);
      WithIdCons(s[0], s[1..], id);
      Associate(One(s[0], id), WithId(s[1..], id), WithId(t, id));
    }
  }

  // A stable rearrangement.
  ghost predicate Stable(s: Attrs, t: Attrs) {
    forall id :: WithId(s, id) == WithId(t, id)
  }

  lemma StableContext(pre: Attrs, s: Attrs, t: Attrs, post: Attrs)
    requires Stable(s, t)
    ensures Stable(pre + s + post, pre + t + post)
  {
    forall id ensures WithId(pre + s + post, id) == WithId(pre + t + post, id) {
      WithIdConcat(pre + s, post, id);
      WithIdConcat(pre, s, id);
      WithIdConcat(pre + t, post, id);
      WithIdConcat(pre, t, id);
    }
  }

  /* ---------- Sorting ---------- */

  predicate Ascending(s: Attrs) {
    forall i, j :: 0 <= i < j < |s| ==> s[i].id <= s[j].id
  }

  // Number of places where an id is followed by a smaller one.
  function Descents(s: Attrs): nat {
    if |s| < 2 then 0 else (if s[0].id > s[1].id then 1 else 0) + Descents(s[1..])
  }

  function Boundary(s: Attrs, t: Attrs): nat {
    if s != [] && t != [] && s[|s| - 1].id > t[0].id then 1 else 0
  }

  lemma {:induction false} DescentsConcat(s: Attrs, t: Attrs)
    ensures Descents(s + t) == Descents(s) + Boundary(s, t) + Descents(t)
  {
    if s == [] {
      assert s + t == t;
    } else if |s| == 1 {
      assert s + t == [s[0]] + t;
      if t != [] {
        assert (s + t)[1..] == t;
      }
    } else {
      assert (s + t)[1..] == s[1..] + t;
      DescentsConcat(s[1..], t);
    }
  }

  lemma {:induction false} AscendingNoDescents(s: Attrs)
    ensures Ascending(s) ==> Descents(s) == 0
  {
    if |s| >= 2 {
      AscendingNoDescents(s[1..]);
    }
  }

  // Merging two runs, the first one's attributes before equal ones of the second.
  function MergeFrom(x: Attrs, y: Attrs, i: nat, j: nat): Attrs
    requires i <= |x| && j <= |y|
    decreases |x| - i + |y| - j
  {
    if i < |x| && (j == |y| || x[i].id <= y[j].id) then [x[i]] + MergeFrom(x, y, i + 1, j)
    else if j < |y| then [y[j]] + MergeFrom(x, y, i, j + 1)
    else []
  }

  // The definition of MergeFrom, for proofs that hide it.
  lemma MergeUnfolds(x: Attrs, y: Attrs, i: nat, j: nat)
    requires i <= |x| && j <= |y|
    ensures MergeFrom(x, y, i, j) ==
      if i < |x| && (j == |y| || x[i].id <= y[j].id) then [x[i]] + MergeFrom(x, y, i + 1, j)
      else if j < |y| then [y[j]] + MergeFrom(x, y, i, j + 1)
      else []
  {
  }

  lemma WithIdFrom(s: Attrs, i: nat, id: nat)
    requires i < |s|
    ensures WithId(s[i..], id) == One(s[i], id) + WithId(s[i + 1..], id)
  {
    WithIdCons(s[i], s[i + 1..], id);
    assert s[i..] == [s[i]] + s[i + 1..];
  }

  lemma {:induction false} MergeStable(x: Attrs, y: Attrs, i: nat, j: nat, id: nat)
    requires Ascending(x) && Ascending(y) && i <= |x| && j <= |y|
    ensures WithId(MergeFrom(x, y, i, j), id) == WithId(x[i..], id) + WithId(y[j..], id)
    decreases |x| - i + |y| - j
  {
    hide WithId, MergeFrom, Ascending;
    MergeUnfolds(x, y, i, j);
    NothingLeft(x, y, id);
    if i < |x| && (j == |y| || x[i].id <= y[j].id) {
      MergeStable(x, y, i + 1, j, id);
      WithIdCons(x[i], MergeFrom(x, y, i + 1, j), id);
      WithIdFrom(x, i, id);
      Associate(One(x[i], id), WithId(x[i + 1..], id), WithId(y[j..], id));
    } else if j < |y| {
      MergeStable(x, y, i, j + 1, id);
      WithIdCons(y[j], MergeFrom(x, y, i, j + 1), id);
      WithIdFrom(y, j, id);
      if y[j].id == id {
        NoneFrom(x, i, id);
      }
      Associate(One(y[j], id), WithId(x[i..], id), WithId(y[j + 1..], id));
    }
  }

  lemma NothingLeft(x: Attrs, y: Attrs, id: nat)
    ensures WithId(x[|x|..], id) == [] && WithId(y[|y|..], id) == [] && WithId([], id) == []
  {
  }

  lemma NoneFrom(x: Attrs, i: nat, id: nat)
    requires Ascending(x) && i <= |x| && (i < |x| ==> x[i].id > id)
    ensures WithId(x[i..], id) == []
  {
    hide WithId;
    NoneAbove(x[i..], id);
  }

  lemma {:induction false} NoneAbove(s: Attrs, id: nat)
    requires forall k :: 0 <= k < |s| ==> s[k].id > id
    ensures WithId(s, id) == []
  {
    if s != [] {
      NoneAbove(s[1..], id);
    }
  }

  predicate AtLeast(s: Attrs, lo: nat) {
    forall k :: 0 <= k < |s| ==> lo <= s[k].id
  }

  // The same from place i on.
  predicate RestAtLeast(s: Attrs, i: nat, lo: nat) {
    forall k :: i <= k < |s| ==> lo <= s[k].id
  }

  lemma AscendingFrom(s: Attrs, i: nat, j: nat)
    requires Ascending(s) && i < |s| && j in {i, i + 1}
    ensures RestAtLeast(s, j, s[i].id)
  {
  }

  lemma RestFrom(s: Attrs, i: nat, lo: nat, hi: nat)
    ensures RestAtLeast(s, i, hi) && lo <= hi ==> RestAtLeast(s, i, lo)
    ensures RestAtLeast(s, i, lo) ==> RestAtLeast(s, i + 1, lo) && (i < |s| ==> lo <= s[i].id)
  {
  }

  lemma Nothing()
    ensures Ascending([]) && forall lo :: AtLeast([], lo)
  {
  }

  lemma Cons(a: Eattr, s: Attrs, lo: nat)
    ensures lo <= a.id && AtLeast(s, lo) ==> AtLeast([a] + s, lo)
    ensures Ascending(s) && AtLeast(s, a.id) ==> Ascending([a] + s)
  {
  }

  lemma {:induction false} MergeAtLeast(x: Attrs, y: Attrs, i: nat, j: nat, lo: nat)
    requires i <= |x| && j <= |y| && RestAtLeast(x, i, lo) && RestAtLeast(y, j, lo)
    ensures AtLeast(MergeFrom(x, y, i, j), lo)
    decreases |x| - i + |y| - j
  {
    hide MergeFrom, AtLeast, RestAtLeast;
    MergeUnfolds(x, y, i, j);
    Nothing();
    RestFrom(x, i, lo, lo);
    RestFrom(y, j, lo, lo);
    if i < |x| && (j == |y| || x[i].id <= y[j].id) {
      MergeAtLeast(x, y, i + 1, j, lo);
      Cons(x[i], MergeFrom(x, y, i + 1, j), lo);
    } else if j < |y| {
      MergeAtLeast(x, y, i, j + 1, lo);
      Cons(y[j], MergeFrom(x, y, i, j + 1), lo);
    }
  }

  lemma {:induction false} MergeLength(x: Attrs, y: Attrs, i: nat, j: nat)
    requires i <= |x| && j <= |y|
    ensures |MergeFrom(x, y, i, j)| == |x| - i + |y| - j
    decreases |x| - i + |y| - j
  {
    if i < |x| && (j == |y| || x[i].id <= y[j].id) {
      MergeLength(x, y, i + 1, j);
    } else if j < |y| {
      MergeLength(x, y, i, j + 1);
    }
  }

  lemma {:induction false} MergeAscending(x: Attrs, y: Attrs, i: nat, j: nat)
    requires Ascending(x) && Ascending(y) && i <= |x| && j <= |y|
    ensures Ascending(MergeFrom(x, y, i, j))
    decreases |x| - i + |y| - j
  {
    hide MergeFrom, Ascending, AtLeast, RestAtLeast;
    MergeUnfolds(x, y, i, j);
    Nothing();
    if i < |x| && (j == |y| || x[i].id <= y[j].id) {
      MergeAscending(x, y, i + 1, j);
      LowestLeft(x, y, i, j);
      MergeAtLeast(x, y, i + 1, j, x[i].id);
      Cons(x[i], MergeFrom(x, y, i + 1, j), 0);
    } else if j < |y| {
      MergeAscending(x, y, i, j + 1);
      LowestLeft(y, x, j, i);
      MergeAtLeast(x, y, i, j + 1, y[j].id);
      Cons(y[j], MergeFrom(x, y, i, j + 1), 0);
    }
  }

  // Nothing that is left is below the head that is taken.
  lemma LowestLeft(s: Attrs, t: Attrs, i: nat, j: nat)
    requires Ascending(s) && Ascending(t) && i < |s| && j <= |t| && (j < |t| ==> s[i].id <= t[j].id)
    ensures RestAtLeast(s, i + 1, s[i].id) && RestAtLeast(t, j, s[i].id)
  {
    AscendingFrom(s, i, i + 1);
    if j < |t| {
      AscendingFrom(t, j, j);
    }
  }

  // Merging two adjacent runs is a stable rearrangement.
  lemma MergeRuns(x: Attrs, y: Attrs)
    requires Ascending(x) && Ascending(y)
    ensures var m := MergeFrom(x, y, 0, 0); Stable(x + y, m) && Ascending(m) && |m| == |x| + |y|
  {
    var m := MergeFrom(x, y, 0, 0);
    MergeAscending(x, y, 0, 0);
    MergeLength(x, y, 0, 0);
    forall id ensures WithId(x + y, id) == WithId(m, id) {
      MergeStable(x, y, 0, 0, id);
      WithIdConcat(x, y, id);
      assert x[0..] == x && y[0..] == y;
    }
  }

  // A bound on the descents of out + rest in the middle of a pass.
  function Budget(out: Attrs, rest: Attrs): nat {
    Descents(out) + (if out != [] && rest != [] then 1 else 0) + Descents(rest)
  }

  lemma BudgetBounds(out: Attrs, rest: Attrs)
    ensures Descents(out + rest) <= Budget(out, rest)
    ensures out == [] ==> Budget(out, rest) == Descents(rest)
  {
    DescentsConcat(out, rest);
  }

  // Merging two maximal runs removes a descent, whatever it does to the neighbours.
  lemma PairShrinks(out: Attrs, x: Attrs, y: Attrs, rest: Attrs, m: Attrs)
    requires Ascending(x) && Ascending(y) && Ascending(m) && x != [] && y != [] && m != []
    requires x[|x| - 1].id > y[0].id && (rest != [] ==> y[|y| - 1].id > rest[0].id)
    ensures Budget(out + m, rest) + 1 <= Budget(out, x + y + rest)
  {
    hide Ascending;
    AscendingNoDescents(x);
    AscendingNoDescents(y);
    AscendingNoDescents(m);
    DescentsConcat(x, y);
    DescentsConcat(x + y, rest);
    DescentsConcat(out, m);
  }

  /* ---------- Pruning ---------- */

  // Where the attributes of the id at i end.
  function GroupEnd(s: Attrs, i: nat, j: nat): (e: nat)
    requires i < j <= |s|
    ensures j <= e <= |s| && (forall k :: j <= k < e ==> s[k].id == s[i].id) && (e < |s| ==> s[e].id != s[i].id)
    decreases |s| - j
  {
    if j < |s| && s[j].id == s[i].id then GroupEnd(s, i, j + 1) else j
  }

  // What is left of the attributes of one id: the first, with the ORIGINATED bit of the last.
  function Survivor(w: Attrs): Attrs {
    if w == [] || w[0].undef then [] else [w[0].(originated := w[|w| - 1].originated)]
  }

  function PruneFrom(s: Attrs, i: nat): Attrs
    requires i <= |s|
    decreases |s| - i
  {
    if i == |s| then [] else
      var e := GroupEnd(s, i, i + 1);
      Survivor(s[i..e]) + PruneFrom(s, e)
  }

  predicate Normal(s: Attrs) {
    (forall i, j :: 0 <= i < j < |s| ==> s[i].id < s[j].id) && forall i :: 0 <= i < |s| ==> !s[i].undef
  }

  lemma {:induction false} AllWithId(s: Attrs, id: nat)
    ensures (forall k :: 0 <= k < |s| ==> s[k].id == id) ==> WithId(s, id) == s
    ensures (forall k :: 0 <= k < |s| ==> s[k].id != id) ==> WithId(s, id) == []
  {
    if s != [] {
      AllWithId(s[1..], id);
    }
  }

  lemma {:induction false} PruneNormal(s: Attrs, i: nat)
    requires Ascending(s) && i <= |s|
    ensures Normal(PruneFrom(s, i)) && (i < |s| ==> AtLeast(PruneFrom(s, i), s[i].id)) && |PruneFrom(s, i)| <= |s| - i
    decreases |s| - i
  {
    if i < |s| {
      var e := GroupEnd(s, i, i + 1);
      PruneNormal(s, e);
      if e < |s| {
        assert s[i].id < s[e].id;
      }
    }
  }

  // One group of a sorted list against an id.
  lemma GroupIds(s: Attrs, i: nat, e: nat, id: nat)
    requires Ascending(s) && i < e <= |s| && e == GroupEnd(s, i, i + 1)
    ensures id == s[i].id ==> WithId(s[i..e], id) == s[i..e] && WithId(s[e..], id) == []
    ensures id != s[i].id ==> WithId(s[i..e], id) == []
    ensures WithId(Survivor(s[i..e]), id) == if id == s[i].id then Survivor(s[i..e]) else []
  {
    hide GroupEnd;
    AllWithId(s[i..e], id);
    AllWithId(s[e..], id);
    AllWithId(Survivor(s[i..e]), id);
    assert forall k :: 0 <= k < |s[i..e]| ==> s[i..e][k] == s[i + k];
    if e < |s| {
      assert s[i].id < s[e].id;
      assert forall k :: 0 <= k < |s[e..]| ==> s[e..][k] == s[e + k] && s[e].id <= s[e + k].id;
    }
  }

  lemma SurvivorOf(a: Attrs, b: Attrs)
    ensures a == [] ==> Survivor(a) == [] && Survivor(a + b) == Survivor(b)
    ensures b == [] ==> Survivor(b) == [] && Survivor(a + b) == Survivor(a)
  {
    assert a == [] ==> a + b == b;
    assert b == [] ==> a + b == a;
  }

  lemma WithIdSplit(s: Attrs, i: nat, e: nat, id: nat)
    requires i <= e <= |s|
    ensures WithId(s[i..], id) == WithId(s[i..e], id) + WithId(s[e..], id)
  {
    hide WithId;
    assert s[i..] == s[i..e] + s[e..];
    WithIdConcat(s[i..e], s[e..], id);
  }

  lemma PruneEnds(s: Attrs, id: nat)
    ensures PruneFrom(s, |s|) == [] && WithId([], id) == [] && Survivor(WithId(s[|s|..], id)) == []
  {
  }

  lemma PruneUnfolds(s: Attrs, i: nat)
    requires i < |s|
    ensures var e := GroupEnd(s, i, i + 1); PruneFrom(s, i) == Survivor(s[i..e]) + PruneFrom(s, e)
  {
  }

  // Pruning keeps, of each id, what counts.
  lemma {:induction false} PruneKeeps(s: Attrs, i: nat, id: nat)
    requires Ascending(s) && i <= |s|
    ensures WithId(PruneFrom(s, i), id) == Survivor(WithId(s[i..], id))
    decreases |s| - i
  {
    PruneEnds(s, id);
    hide WithId, GroupEnd, Ascending, Survivor, PruneFrom;
    if i < |s| {
      var e := GroupEnd(s, i, i + 1);
      PruneUnfolds(s, i);
      PruneKeeps(s, e, id);
      WithIdSplit(s, i, e, id);
      WithIdConcat(Survivor(s[i..e]), PruneFrom(s, e), id);
      GroupIds(s, i, e, id);
      SurvivorOf(WithId(s[i..e], id), WithId(s[e..], id));
    }
  }

  /* ---------- Normalisation ---------- */

  // The override chain as one list: earlier segments hide later ones.
  function Merged(chain: seq<Attrs>): Attrs {
    if chain == [] then [] else chain[0] + Merged(chain[1..])
  }

  // ea__find on a chain
  function FirstInChain(chain: seq<Attrs>, id: nat): Option<Eattr> {
    if chain == [] then None
    else if First(chain[0], id).Some? then First(chain[0], id)
    else FirstInChain(chain[1..], id)
  }

  lemma {:induction false} MergedFirst(chain: seq<Attrs>, id: nat)
    ensures First(Merged(chain), id) == FirstInChain(chain, id)
  {
    if chain != [] {
      MergedFirst(chain[1..], id);
      WithIdConcat(chain[0], Merged(chain[1..]), id);
    }
  }

  // Equal but for the ORIGINATED bit.
  predicate SameValue(a: Option<Eattr>, b: Option<Eattr>) {
    match a
    case None => b.None?
    case Some(x) => b.Some? && x.(originated := b.value.originated) == b.value
  }

  // A list sorted in a stable way and pruned gives every id the value it had.
  lemma NormalisedFinds(s: Attrs, t: Attrs, id: nat)
    requires Stable(s, t) && Ascending(t)
    ensures SameValue(Found(First(s, id)), First(PruneFrom(t, 0), id))
  {
    PruneKeeps(t, 0, id);
    assert t[0..] == t;
  }

  // The last attribute of the id stands at place k.
  predicate LastAt(s: Attrs, id: nat, k: int) {
    0 <= k < |s| && s[k].id == id && forall j :: k < j < |s| ==> s[j].id != id
  }

  // Every value carries the ORIGINATED bit of the last attribute of its id.
  ghost predicate LastBits(s: Attrs, t: Attrs) {
    forall id, k :: LastAt(s, id, k) && First(t, id).Some? ==> First(t, id).value.originated == s[k].originated
  }

  lemma LastWithId(s: Attrs, id: nat, k: int)
    requires LastAt(s, id, k)
    ensures WithId(s, id) != [] && WithId(s, id)[|WithId(s, id)| - 1] == s[k]
  {
    hide WithId;
    assert s == s[..k] + s[k..];
    WithIdConcat(s[..k], s[k..], id);
    WithIdFrom(s, k, id);
    AllWithId(s[k + 1..], id);
  }

  lemma NormalisedBits(s: Attrs, t: Attrs)
    requires Stable(s, t) && Ascending(t)
    ensures LastBits(s, PruneFrom(t, 0))
  {
    hide PruneFrom, WithId, LastAt, Ascending;
    forall id, k | LastAt(s, id, k) && First(PruneFrom(t, 0), id).Some?
      ensures 0 <= k < |s| && First(PruneFrom(t, 0), id).value.originated == s[k].originated
    {
      LastWithId(s, id, k);
      PruneKeeps(t, 0, id);
      assert t[0..] == t;
      LastInside(s, id, k);
    }
  }

  lemma LastInside(s: Attrs, id: nat, k: int)
    requires LastAt(s, id, k)
    ensures 0 <= k < |s|
  {
  }
}
