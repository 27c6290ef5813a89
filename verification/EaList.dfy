/**
 * Sorting, pruning and searching extended attribute lists in place (nest/rt-attr.c): a natural
 * mergesort over the array of attributes, and bisection on normalised lists.
 */
module EaList {

  import opened EaModel
  import opened Options

  lemma SplitArray(s: Attrs, i: nat, j: nat)
    requires i <= j <= |s|
    ensures s == s[..i] + s[i..j] + s[j..]
  {
  }

  // Copies the run that starts at a[s0] to b[p0..].
  method CopyRun(a: array<Eattr>, b: array<Eattr>, n: nat, s0: nat, p0: nat) returns (s: nat, p: nat)
    requires a != b && s0 < n <= a.Length && p0 + n - s0 <= b.Length
    modifies b
    ensures s0 < s <= n && p == p0 + s - s0 && b[p0..p] == a[s0..s] && b[..p0] == old(b[..p0])
    ensures Ascending(a[s0..s]) && (s < n ==> a[s - 1].id > a[s].id)
  {
    s, p := s0, p0;
    b[p] := a[s];
    p, s := p + 1, s + 1;
    while s < n && b[p - 1].id <= a[s].id
      invariant s0 < s <= n && p == p0 + s - s0 && b[p0..p] == a[s0..s] && b[..p0] == old(b[..p0])
      invariant Ascending(a[s0..s])
    {
      assert b[p - 1] == b[p0..p][p - 1 - p0] == a[s - 1];
      AscendingMore(a[s0..s], a[s]);
      b[p] := a[s];
      p, s := p + 1, s + 1;
      assert a[s0..s] == a[s0..s - 1] + [a[s - 1]];
      assert b[p0..p] == b[p0..p - 1] + [b[p - 1]];
    }
    if s < n {
      assert b[p - 1] == b[p0..p][p - 1 - p0] == a[s - 1];
    }
  }

  lemma AscendingMore(s: Attrs, x: Eattr)
    requires Ascending(s) && s != [] && s[|s| - 1].id <= x.id
    ensures Ascending(s + [x])
  {
  }

  // Merges the runs x = b[..q] and y = b[q..p] back to a[s0..s0 + p].
  method MergeBack(a: array<Eattr>, b: array<Eattr>, s0: nat, q: nat, p: nat)
    requires a != b && q <= p <= b.Length && s0 + p <= a.Length && Ascending(b[..q]) && Ascending(b[q..p])
    modifies a
    ensures a[..] == old(a[..s0]) + MergeFrom(b[..q], b[q..p], 0, 0) + old(a[s0 + p..])
  {
    hide Ascending, MergeFrom, Merging, MergedSoFar;
    ghost var x, y, was := b[..q], b[q..p], a[..];
    ghost var out: Attrs := [];
    var s, lo: nat, hi := s0, 0, q;
    MergedNone(x, y);
    Unmerged(was, s0);
    while lo < q || hi < p
      invariant lo <= q <= hi <= p && s == s0 + lo + hi - q && |out| == s - s0
      invariant MergedSoFar(out, x, y, lo, hi - q) && Merging(a[..], was, out, s0)
      decreases q - lo + p - hi
    {
      ghost var e;
      lo, hi, e := TakeHead(a, b, q, p, s, lo, hi, was, out, s0);
      out := out + [e];
      s := s + 1;
    }
    MergedAll(out, x, y);
    Assembled(a[..], was, out, s0);
  }

  // `out` is what has been merged before places i and j.
  predicate MergedSoFar(out: Attrs, x: Attrs, y: Attrs, i: int, j: int) {
    0 <= i <= |x| && 0 <= j <= |y| && out + MergeFrom(x, y, i, j) == MergeFrom(x, y, 0, 0)
  }

  lemma MergedNone(x: Attrs, y: Attrs)
    ensures MergedSoFar([], x, y, 0, 0)
  {
  }

  lemma MergedAll(out: Attrs, x: Attrs, y: Attrs)
    requires MergedSoFar(out, x, y, |x|, |y|)
    ensures out == MergeFrom(x, y, 0, 0) && |out| == |x| + |y|
  {
    MergeLength(x, y, 0, 0);
  }

  lemma MergedOne(out: Attrs, x: Attrs, y: Attrs, i: int, j: int)
    requires MergedSoFar(out, x, y, i, j) && (i < |x| || j < |y|)
    ensures if i < |x| && (j == |y| || x[i].id <= y[j].id) then MergedSoFar(out + [x[i]], x, y, i + 1, j)
            else MergedSoFar(out + [y[j]], x, y, i, j + 1)
  {
    MergeTake(out, x, y, i, j);
  }

  // The next attribute of the merge: the first run's attributes go before equal ones of the second.
  method TakeHead(a: array<Eattr>, b: array<Eattr>, q: nat, p: nat, s: nat, lo0: nat, hi0: nat, ghost was: Attrs, ghost out: Attrs, s0: nat)
    returns (lo: nat, hi: nat, ghost e: Eattr)
    requires a != b && lo0 <= q <= hi0 <= p <= b.Length && (lo0 < q || hi0 < p)
    requires s == s0 + |out| < a.Length && Merging(a[..], was, out, s0) && MergedSoFar(out, b[..q], b[q..p], lo0, hi0 - q)
    modifies a
    ensures lo0 <= lo <= q <= hi <= p && hi0 <= hi && lo + hi == lo0 + hi0 + 1
    ensures Merging(a[..], was, out + [e], s0) && MergedSoFar(out + [e], b[..q], b[q..p], lo, hi - q)
  {
    hide Merging, MergedSoFar;
    MergedOne(out, b[..q], b[q..p], lo0, hi0 - q);
    lo, hi := lo0, hi0;
    ghost var now := a[..];
    if lo < q && (hi == p || b[lo].id <= b[hi].id) {
      a[s], e := b[lo], b[lo];
      lo := lo + 1;
    } else {
      a[s], e := b[hi], b[hi];
      hi := hi + 1;
    }
    assert a[..] == now[s := e];
    MergingPut(now, was, out, s0, s, e);
  }

  // `out` has been written from place s0 on, the rest is as it was.
  predicate Merging(now: Attrs, was: Attrs, out: Attrs, s0: nat) {
    s0 + |out| <= |now| == |was| && forall k :: 0 <= k < |now| ==> now[k] == if s0 <= k < s0 + |out| then out[k - s0] else was[k]
  }

  lemma Unmerged(was: Attrs, s0: nat)
    requires s0 <= |was|
    ensures Merging(was, was, [], s0)
  {
  }

  lemma MergingPut(now: Attrs, was: Attrs, out: Attrs, s0: nat, s: nat, x: Eattr)
    requires Merging(now, was, out, s0) && s == s0 + |out| < |now|
    ensures Merging(now[s := x], was, out + [x], s0)
  {
  }

  lemma Assembled(now: Attrs, was: Attrs, out: Attrs, s0: nat)
    requires Merging(now, was, out, s0)
    ensures now == was[..s0] + out + was[s0 + |out|..]
  {
  }

  lemma MergeTake(out: Attrs, x: Attrs, y: Attrs, i: nat, j: nat)
    requires i <= |x| && j <= |y| && (i < |x| || j < |y|)
    ensures out + MergeFrom(x, y, i, j) ==
      if i < |x| && (j == |y| || x[i].id <= y[j].id) then (out + [x[i]]) + MergeFrom(x, y, i + 1, j)
      else (out + [y[j]]) + MergeFrom(x, y, i, j + 1)
  {
  }

  // What one step of a pass did: pre + x + y + rest became pre + m + rest, m being x and y merged,
  // or the last run was left alone.
  ghost predicate Paired(was: Attrs, now: Attrs, s0: nat, s: nat, x: Attrs, y: Attrs) {
    s0 + |x| + |y| == s <= |was| && was == was[..s0] + (x + y) + was[s..] && x != [] && y != [] &&
    Ascending(x) && Ascending(y) && x[|x| - 1].id > y[0].id && (s < |was| ==> y[|y| - 1].id > was[s].id) &&
    now == was[..s0] + MergeFrom(x, y, 0, 0) + was[s..]
  }

  // Two adjacent runs are merged, or the last one is left as it is.
  method MergePair(a: array<Eattr>, b: array<Eattr>, s0: nat) returns (s: nat, ghost x: Attrs, ghost y: Attrs)
    requires a != b && s0 < a.Length == b.Length
    modifies a, b
    ensures s0 < s <= a.Length
    ensures Paired(old(a[..]), a[..], s0, s, x, y) || (s == a.Length && a[..] == old(a[..]) && Ascending(a[s0..]) && y == [])
  {
    hide Ascending, MergeFrom;
    ghost var was := a[..];
    var q: nat;
    s, q := CopyRun(a, b, a.Length, s0, 0);
    x, y := b[..q], [];
    assert b[0..q] == b[..q] && a[s0..s] == was[s0..s];
    if s < a.Length {
      var p: nat;
      ghost var s1 := s;
      s, p := CopyRun(a, b, a.Length, s, q);
      x, y := b[..q], b[q..p];
      assert x == was[s0..s1] && y == was[s1..s];
      MergeBack(a, b, s0, q, p);
      SplitArray(was, s0, s);
      assert was[s0..s] == x + y;
    } else {
      assert a[s0..] == a[s0..s];
    }
  }

  // The state of a pass: the first s attributes are done; `last` is where the last pair began.
  ghost predicate Passing(orig: Attrs, now: Attrs, s: nat, last: nat) {
    s <= |now| && Stable(orig, now) && |now| == |orig| && (last == 0 ==> Ascending(now[..s])) && (last > 0 ==> last < s) &&
    (if s == 0 then now == orig && last == 0
     else Budget(now[..s], now[s..]) + 1 <= Descents(orig) || (last == 0 && s == |now|))
  }

  lemma PairStep(orig: Attrs, was: Attrs, now: Attrs, s0: nat, s: nat, last: nat, x: Attrs, y: Attrs)
    requires Passing(orig, was, s0, last) && s0 < |was| && Paired(was, now, s0, s, x, y)
    ensures Passing(orig, now, s, s0)
  {
    hide Ascending, Descents, MergeFrom, WithId;
    var m := MergeFrom(x, y, 0, 0);
    var out, rest := was[..s0], was[s..];
    MergeRuns(x, y);
    StableContext(out, x + y, m, rest);
    StableTrans(orig, was, now);
    assert now[..s] == out + m && now[s..] == rest && was[s0..] == x + y + rest;
    PairShrinks(out, x, y, rest, m);
    if s0 == 0 {
      BudgetBounds(out, was[s0..]);
      assert was[0..] == was;
      assert now[..s] == m;
    }
  }

  lemma StableTrans(a: Attrs, b: Attrs, c: Attrs)
    requires Stable(a, b) && Stable(b, c)
    ensures Stable(a, c)
  {
  }

  // A last run without a partner.
  lemma SingleStep(orig: Attrs, now: Attrs, s0: nat, last: nat)
    requires Passing(orig, now, s0, last) && s0 < |now| && Ascending(now[s0..])
    ensures Passing(orig, now, |now|, s0)
  {
    hide Descents;
    var r := now[s0..];
    assert now[..|now|] == now == now[..s0] + r && now[|now|..] == [];
    AscendingNoDescents(r);
    AscendingNoDescents([]);
    DescentsConcat(now[..s0], r);
    if s0 == 0 {
      assert now[..|now|] == r;
    }
  }

  // One pass of the mergesort. It returns where its last pair began.
  method Pass(a: array<Eattr>, b: array<Eattr>) returns (last: nat)
    requires a != b && a.Length == b.Length
    modifies a, b
    ensures Stable(old(a[..]), a[..])
    ensures last == 0 ==> Ascending(a[..])
    ensures last > 0 ==> Descents(a[..]) < Descents(old(a[..]))
  {
    hide Ascending, Descents, WithId, Paired, Passing, Budget;
    ghost var orig := a[..];
    var s := 0;
    last := 0;
    PassStarts(orig);
    while s < a.Length
      invariant s <= a.Length && Passing(orig, a[..], s, last)
    {
      ghost var was := a[..];
      var next, x, y := MergePair(a, b, s);
      if Paired(was, a[..], s, next, x, y) {
        PairStep(orig, was, a[..], s, next, last, x, y);
      } else {
        assert a[..][s..] == a[s..];
        SingleStep(orig, a[..], s, last);
      }
      last, s := s, next;
    }
    PassEnds(orig, a[..], last);
  }

  lemma PassStarts(orig: Attrs)
    ensures Passing(orig, orig, 0, 0)
  {
  }

  lemma PassEnds(orig: Attrs, now: Attrs, last: nat)
    requires Passing(orig, now, |now|, last)
    ensures Stable(orig, now) && (last == 0 ==> Ascending(now)) && (last > 0 ==> Descents(now) < Descents(orig))
  {
    hide Ascending, Descents, WithId;
    assert now[..|now|] == now && now[|now|..] == [];
    BudgetBounds(now, []);
    assert now + [] == now;
  }

  // ea_do_sort: every pass but the last makes the number of descents smaller
  method DoSort(a: array<Eattr>)
    modifies a
    ensures Ascending(a[..]) && Stable(old(a[..]), a[..])
  {
    hide Ascending, Descents, WithId;
    var b := new Eattr[a.Length](_ => Eattr(0, false, false, 0));
    var ss := Pass(a, b);
    while ss > 0
      invariant Stable(old(a[..]), a[..]) && (ss == 0 ==> Ascending(a[..]))
      decreases ss > 0, Descents(a[..])
    {
      ghost var was := a[..];
      ss := Pass(a, b);
      StableTrans(old(a[..]), was, a[..]);
    }
  }

  // ea_do_prune: what is left is moved to the front; its length is returned
  method DoPrune(a: array<Eattr>) returns (i: nat)
    requires Ascending(a[..])
    modifies a
    ensures i <= a.Length && a[..i] == PruneFrom(old(a[..]), 0)
  {
    hide Ascending, PruneFrom, Survivor;
    ghost var was := a[..];
    var s := 0;
    i := 0;
    while s < a.Length
      invariant i <= s <= a.Length && a[..i] + PruneFrom(was, s) == PruneFrom(was, 0)
      invariant forall k :: s <= k < a.Length ==> a[k] == was[k]
    {
      var s0 := s;
      s := s + 1;
      while s < a.Length && a[s].id == a[s - 1].id
        invariant s0 < s <= a.Length && forall k :: s0 <= k < s ==> was[k].id == was[s0].id
      {
        s := s + 1;
      }
      GroupIs(was, s0, s);
      PruneStep(a[..i], was, s0, s);
      // the first of the group overrides the others; where the value comes from, the last one tells
      if !a[s0].undef {
        ghost var done := a[..i];
        a[i] := a[s0].(originated := a[s - 1].originated);
        i := i + 1;
        assert a[..i] == done + [was[s0].(originated := was[s - 1].originated)];
      }
    }
    PruneStop(was);
    assert a[..i] + [] == a[..i];
  }

  lemma GroupIs(s: Attrs, i: nat, e: nat)
    requires i < e <= |s| && (forall k :: i <= k < e ==> s[k].id == s[i].id) && (e < |s| ==> s[e].id != s[i].id)
    ensures GroupEnd(s, i, i + 1) == e
  {
  }

  lemma PruneStop(s: Attrs)
    ensures PruneFrom(s, |s|) == []
  {
  }

  lemma PruneStep(done: Attrs, s: Attrs, i: nat, e: nat)
    requires i < e <= |s| && GroupEnd(s, i, i + 1) == e
    ensures done + PruneFrom(s, i) ==
      (if s[i].undef then done else done + [s[i].(originated := s[e - 1].originated)]) + PruneFrom(s, e)
  {
    assert s[i..e][0] == s[i] && s[i..e][e - i - 1] == s[e - 1];
    assert PruneFrom(s, i) == Survivor(s[i..e]) + PruneFrom(s, e);
  }

  /* ---------- Lists of attributes ---------- */

  // An ea_list: `sorted` is EALF_SORTED and `bisect` EALF_BISECT.
  class EaList {
    var attrs: array<Eattr>
    var count: nat
    var sorted: bool
    var bisect: bool

    constructor (s: Attrs)
      ensures Valid() && Contents() == s && !sorted && !bisect && fresh(attrs)
    {
      var a := new Eattr[|s|](i requires 0 <= i < |s| => s[i]);
      attrs, count, sorted, bisect := a, |s|, false, false;
      new;
      assert attrs[..] == s;
    }

    // Lists flagged as sorted are normal; only normal lists are searched by bisection.
    ghost predicate Valid()
      reads this, attrs
    {
      count <= attrs.Length && (sorted ==> Normal(attrs[..count])) && (bisect ==> sorted) && (!sorted ==> count == attrs.Length)
    }

    ghost function Contents(): Attrs
      reads this, attrs
    {
      if count <= attrs.Length then attrs[..count] else attrs[..]
    }

    // ea_sort for one list
    method Sort()
      requires Valid()
      modifies this, attrs
      ensures Valid() && sorted && attrs == old(attrs)
      ensures old(sorted) ==> Contents() == old(Contents())
      ensures !old(sorted) ==> SameMeaning(old(Contents()), Contents()) && LastBits(old(Contents()), Contents())
      ensures old(count) > 5 && old(sorted) ==> bisect
    {
      hide Normal, Stable, Ascending, SameValue, Found, First, SameMeaning, LastBits, PruneFrom;
      if !sorted {
        ghost var was := attrs[..];
        DoSort(attrs);
        ghost var mid := attrs[..];
        count := DoPrune(attrs);
        PruneNormal(mid, 0);
        assert was == old(Contents());
        NormalisedMeans(was, mid);
        NormalisedBits(was, mid);
        sorted := true;
      }
      if count > 5 {
        bisect := true;
      }
    }

    // ea__find in one list: by bisection if the list allows it
    method Find(id: nat) returns (r: Option<Eattr>)
      requires Valid()
      ensures r == First(Contents(), id)
    {
      hide First, Ascending;
      ghost var c := Contents();
      if bisect {
        var l, h: int := 0, count - 1;
        while l <= h
          invariant 0 <= l <= h + 1 <= count
          invariant forall k :: 0 <= k < l ==> c[k].id < id
          invariant forall k :: h < k < count ==> c[k].id > id
        {
          var m := (l + h) / 2;
          assert attrs[m] == c[m];
          if attrs[m].id == id {
            OnlyOne(c, m, id);
            return Some(attrs[m]);
          } else if attrs[m].id < id {
            l := m + 1;
          } else {
            h := m - 1;
          }
        }
        NotThere(c, id);
        return None;
      }
      var m := 0;
      while m < count
        invariant 0 <= m <= count && forall k :: 0 <= k < m ==> c[k].id != id
      {
        assert attrs[m] == c[m];
        if attrs[m].id == id {
          FirstIs(c, m, id);
          return Some(attrs[m]);
        }
        m := m + 1;
      }
      NotThere(c, id);
      r := None;
    }
  }

  // Every id has the value it had, with the ORIGINATED flag as pruning leaves it.
  ghost predicate SameMeaning(s: Attrs, t: Attrs) {
    forall id :: SameValue(Found(First(s, id)), First(t, id))
  }

  lemma NormalisedMeans(s: Attrs, t: Attrs)
    requires Stable(s, t) && Ascending(t)
    ensures SameMeaning(s, PruneFrom(t, 0))
  {
    forall id ensures SameValue(Found(First(s, id)), First(PruneFrom(t, 0), id)) {
      NormalisedFinds(s, t, id);
    }
  }

  lemma NotThere(s: Attrs, id: nat)
    requires forall k :: 0 <= k < |s| ==> s[k].id != id
    ensures First(s, id) == None
  {
    AllWithId(s, id);
  }

  lemma FirstIs(s: Attrs, m: nat, id: nat)
    requires m < |s| && s[m].id == id && forall k :: 0 <= k < m ==> s[k].id != id
    ensures First(s, id) == Some(s[m])
  {
    assert s == s[..m] + s[m..] && s[m..][0] == s[m];
    WithIdConcat(s[..m], s[m..], id);
    AllWithId(s[..m], id);
  }

  lemma OnlyOne(s: Attrs, m: nat, id: nat)
    requires m < |s| && s[m].id == id && Normal(s)
    ensures First(s, id) == Some(s[m])
  {
    forall k | 0 <= k < m ensures s[k].id != id {
      assert s[k].id < s[m].id;
    }
    FirstIs(s, m, id);
  }

  /* ---------- Override chains ---------- */

  // The segments of a chain from the i-th on.
  ghost function Segments(chain: seq<EaList>, i: nat): seq<Attrs>
    requires i <= |chain|
    reads set e | e in chain, set e: EaList | e in chain :: e.attrs
    decreases |chain| - i
  {
    if i == |chain| then [] else [chain[i].Contents()] + Segments(chain, i + 1)
  }

  // ea_merge: the segments one after the other in a new list
  method Merge(chain: seq<EaList>) returns (r: EaList)
    requires forall e :: e in chain ==> e.Valid()
    ensures fresh(r) && fresh(r.attrs) && r.Valid() && !r.sorted && r.Contents() == Merged(Segments(chain, 0))
  {
    var s: Attrs := [];
    var i := 0;
    while i < |chain|
      invariant 0 <= i <= |chain| && s + Merged(Segments(chain, i)) == Merged(Segments(chain, 0))
    {
      assert chain[i] in chain;
      assert Merged(Segments(chain, i)) == chain[i].Contents() + Merged(Segments(chain, i + 1));
      s := s + chain[i].attrs[..chain[i].count];
      i := i + 1;
    }
    assert s + [] == s;
    r := new EaList(s);
  }

  // The normal form rta_lookup gives an override chain: every id has the value it had.
  method Normalise(chain: seq<EaList>) returns (r: EaList)
    requires chain != [] && forall e :: e in chain ==> e.Valid()
    modifies chain[0], chain[0].attrs
    ensures r.Valid() && r.sorted
    ensures forall id :: SameValue(Found(FirstInChain(old(Segments(chain, 0)), id)), First(r.Contents(), id))
  {
    hide First, Found, SameValue, Merged, FirstInChain, Normal;
    ghost var segs := Segments(chain, 0);
    if |chain| > 1 {
      r := Merge(chain);
    } else {
      r := chain[0];
      assert Segments(chain, 1) == [] && segs == [r.Contents()];
      OneSegment(r.Contents());
    }
    ghost var was := r.Contents();
    assert was == Merged(segs);
    r.Sort();
    forall id ensures SameValue(Found(FirstInChain(segs, id)), First(r.Contents(), id)) {
      MergedFirst(segs, id);
      NormalFound(r.Contents(), id);
    }
  }

  lemma NormalFound(s: Attrs, id: nat)
    requires Normal(s)
    ensures SameValue(Found(First(s, id)), First(s, id))
  {
    WithIdIn(s, id);
  }

  lemma {:induction false} WithIdIn(s: Attrs, id: nat)
    ensures forall k :: 0 <= k < |WithId(s, id)| ==> WithId(s, id)[k] in s
  {
    if s != [] {
      WithIdIn(s[1..], id);
    }
  }

  lemma OneSegment(s: Attrs)
    ensures Merged([s]) == s
  {
    assert [s][1..] == [];
  }
}
