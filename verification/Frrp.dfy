/**
 * The poisoning search of the experiment (framework/experiments/frrp_and_default_routes/frrp.py):
 * starting from the path measured without poisons, it poisons the ASes on each newly found path in
 * turn, announces, measures again, and recurses when the new path has an edge not seen before.
 *
 * Whatever the measurements answer, over a finite set of ASes the search ends, and no announcement
 * poisons what must not be poisoned.
 */
module Frrp {

  import opened Sets

  // The AS that hosts the prefix, and two that are not to be poisoned together.
  const ORIGIN := 3450
  const WOW := 12083
  const L3 := 3356

  // What a measurement gives: no probe, a probe that fails, an error while waiting, a result that
  // cannot be read, lost connectivity, or a path.
  datatype Answer = NoProbe | ProbeFailed | WaitFailed | BadResult | Lost | Path(asns: seq<nat>)

  type Edge = (nat, nat)

  // Sets of poisons that may be announced for a source.
  predicate MayAnnounce(src: nat, poisons: set<nat>) {
    src !in poisons && ORIGIN !in poisons && !(WOW in poisons && L3 in poisons)
  }

  ghost predicate Within(universe: set<nat>, edges: set<Edge>) {
    forall e :: e in edges ==> e.0 in universe && e.1 in universe
  }

  function AllEdges(universe: set<nat>): set<Edge> {
    set a, b | a in universe && b in universe :: (a, b)
  }

  // The first n edges of a path, and all of them.
  function EdgesTo(asns: seq<nat>, n: nat): set<Edge>
    requires n < |asns| || n == 0
  {
    if n == 0 then {} else EdgesTo(asns, n - 1) + {(asns[n - 1], asns[n])}
  }

  function EdgesOf(asns: seq<nat>): set<Edge> {
    if asns == [] then {} else EdgesTo(asns, |asns| - 1)
  }

  // Answers only name ASes of the universe.
  ghost predicate Known(universe: set<nat>, asns: seq<nat>) {
    forall i :: 0 <= i < |asns| ==> asns[i] in universe
  }

  ghost predicate AllKnown(universe: set<nat>, answers: nat -> Answer) {
    forall t: nat :: answers(t).Path? ==> Known(universe, answers(t).asns)
  }

  predicate AllMayAnnounce(src: nat, announced: seq<set<nat>>) {
    forall k :: 0 <= k < |announced| ==> MayAnnounce(src, announced[k])
  }

  // What has led to a new path is not announced again.
  predicate NotRepeated(announced: seq<set<nat>>, useful: seq<bool>, cache: set<set<nat>>) {
    |useful| == |announced| && (forall j :: 0 <= j < |useful| && useful[j] ==> announced[j] in cache) &&
    forall j, k :: 0 <= j < k < |announced| && useful[j] ==> announced[j] != announced[k]
  }

  // An AS of the path needs no further try on top of the given poisons.
  predicate Tried(src: nat, poisons: set<nat>, asn: nat, announced: seq<set<nat>>, cache: set<set<nat>>) {
    var p := poisons + {asn};
    MayAnnounce(src, p) ==> p in cache || p in announced
  }

  predicate Failed(a: Answer) {
    a.NoProbe? || a.ProbeFailed?
  }

  // A path found while a set of ASes was poisoned.
  datatype Found = Found(poisons: set<nat>, path: seq<nat>)

  // Every useful announcement found the path that was measured after it.
  predicate Recorded(announced: seq<set<nat>>, useful: seq<bool>, asked: seq<nat>, found: seq<Found>, answers: nat -> Answer) {
    |useful| == |announced| == |asked| &&
    forall j :: 0 <= j < |useful| && useful[j] ==> answers(asked[j]).Path? && Found(announced[j], answers(asked[j]).asns) in found
  }

  // The ASes of all paths found, from the given record on, have been tried on top of their poisons.
  predicate AllTried(src: nat, found: seq<Found>, from: nat, announced: seq<set<nat>>, cache: set<set<nat>>) {
    forall k :: from <= k < |found| ==> PathTried(src, found[k], announced, cache)
  }

  predicate PathTried(src: nat, f: Found, announced: seq<set<nat>>, cache: set<set<nat>>) {
    forall i :: 0 <= i < |f.path| ==> Tried(src, f.poisons, f.path[i], announced, cache)
  }

  // No measurement in this time failed.
  ghost predicate Smooth(answers: nat -> Answer, from: nat, to: nat) {
    forall t: nat :: from <= t < to ==> !Failed(answers(t))
  }

  class Search {
    const src: nat
    // the measurements, in the order they are made
    const answers: nat -> Answer
    ghost const universe: set<nat>
    var step: nat
    var edges: set<Edge>
    var cache: set<set<nat>>
    var announced: seq<set<nat>>
    // calls of Measure so far, and the announcements that led to a new path
    ghost var calls: nat
    ghost var useful: seq<bool>
    // when each announcement was measured, and the paths found
    ghost var asked: seq<nat>
    ghost var found: seq<Found>

    ghost predicate Valid()
      reads this
    {
      Within(universe, edges) && AllKnown(universe, answers) && AllMayAnnounce(src, announced) &&
      NotRepeated(announced, useful, cache) && Recorded(announced, useful, asked, found, answers)
    }

    constructor (src: nat, answers: nat -> Answer, ghost universe: set<nat>)
      requires AllKnown(universe, answers)
      ensures Valid() && edges == {} && cache == {} && announced == [] && calls == 0 && step == 0 && found == []
      ensures this.src == src && this.universe == universe && this.answers == answers
    {
      this.src, this.answers, this.universe := src, answers, universe;
      step, edges, cache, announced, calls, useful, asked, found := 0, {}, {}, [], 0, [], [], [];
    }

    // submit_traceroute and wait_on_measurement
    method Ask() returns (a: Answer)
      modifies this`step
      ensures a == answers(old(step)) && step == old(step) + 1
    {
      a := answers(step);
      step := step + 1;
    }

    // add_path, for a successful traceroute: true when the path has an edge not seen before
    method AddPath(asns: seq<nat>) returns (isNew: bool)
      requires Valid() && Known(universe, asns)
      modifies this`edges
      ensures Valid() && edges == old(edges) + EdgesOf(asns)
      ensures isNew <==> !(EdgesOf(asns) <= old(edges))
      ensures forall i :: 0 <= i < |asns| - 1 ==> (asns[i], asns[i + 1]) in edges
      ensures forall e :: e in edges && e !in old(edges) ==> exists i :: 0 <= i < |asns| - 1 && e == (asns[i], asns[i + 1])
      ensures isNew <==> exists i :: 0 <= i < |asns| - 1 && (asns[i], asns[i + 1]) !in old(edges)
    {
      EdgesAre(asns, if asns == [] then 0 else |asns| - 1);
      isNew := false;
      var i := 0;
      while i + 1 < |asns|
        invariant (i < |asns| || i == 0) && Within(universe, edges) && edges == old(edges) + EdgesTo(asns, i)
        invariant isNew <==> !(EdgesTo(asns, i) <= old(edges))
      {
        if (asns[i], asns[i + 1]) !in edges {
          isNew := true;
          edges := edges + {(asns[i], asns[i + 1])};
        }
        i := i + 1;
      }
    }

    // measure_single_source. A path is given to every call but the first one, which measures the
    // path without poisons itself; `parent` is the poison set of the caller. The ASes of the path are
    // tried in turn, all of them unless a measurement fails.
    method Measure(path0: seq<nat>, poisons: set<nat>, ghost parent: set<nat>) returns (ghost path: seq<nat>, ghost tried: nat)
      requires Valid() && MayAnnounce(src, poisons) && Known(universe, path0)
      requires path0 != [] ==> poisons in cache && parent < poisons
      modifies this
      ensures Valid() && edges >= old(edges) && cache >= old(cache) && old(announced) <= announced && step >= old(step)
      ensures calls + |old(edges)| <= old(calls) + 1 + |edges|
      ensures path == if path0 == [] then FirstPath(answers(old(step)), old(edges)) else path0
      ensures tried <= |path| && forall i :: 0 <= i < tried ==> Tried(src, poisons, path[i], announced, cache)
      ensures tried < |path| ==> !Smooth(answers, old(step), step)
      ensures old(found) <= found && (Smooth(answers, old(step), step) ==> AllTried(src, found, |old(found)|, announced, cache))
      ensures path0 == [] && path != [] ==> found[|old(found)|..] != [] && found[|old(found)|] == Found(poisons, path)
      decreases |AllEdges(universe) - edges|, 3
    {
      hide Within, AllKnown, MayAnnounce, AllMayAnnounce, Known, EdgesOf, NotRepeated, Tried, Smooth, Recorded, AllTried, PathTried;
      NoneTried(src, found, announced, cache);
      calls := calls + 1;
      var hops := path0;
      if hops == [] {
        hops := MeasureFirst(poisons);
        if hops == [] {
          NoneTried(src, found, announced, cache);
          return [], 0;
        }
      }
      path := hops;
      SmallerSet(AllEdges(universe) - edges, AllEdges(universe) - old(edges));
      ghost var mid, f := step, found;
      tried := TryAll(hops, poisons);
      SmoothParts(answers, old(step), mid, step);
      if path0 == [] && tried == |path| {
        FirstTried(src, found, |old(found)|, poisons, hops, announced, cache);
      }
    }

    // The loop over the ASes of a path
    method TryAll(hops: seq<nat>, poisons: set<nat>) returns (i: nat)
      requires Valid() && MayAnnounce(src, poisons) && poisons in cache
      modifies this
      ensures Valid() && edges >= old(edges) && cache >= old(cache) && old(announced) <= announced && step >= old(step)
      ensures calls + |old(edges)| <= old(calls) + |edges|
      ensures i <= |hops| && forall k :: 0 <= k < i ==> Tried(src, poisons, hops[k], announced, cache)
      ensures i < |hops| ==> !Smooth(answers, old(step), step)
      ensures old(found) <= found && (Smooth(answers, old(step), step) ==> AllTried(src, found, |old(found)|, announced, cache))
      decreases |AllEdges(universe) - edges|, 2
    {
      hide Within, AllKnown, MayAnnounce, AllMayAnnounce, Known, EdgesOf, NotRepeated, Tried, Smooth, Recorded, AllTried, PathTried;
      NoneTried(src, found, announced, cache);
      i := 0;
      var go := true;
      while i < |hops| && go
        invariant i <= |hops| && Valid() && poisons in cache
        invariant edges >= old(edges) && cache >= old(cache) && old(announced) <= announced && step >= old(step)
        invariant calls + |old(edges)| <= old(calls) + |edges|
        invariant forall k :: 0 <= k < i ==> Tried(src, poisons, hops[k], announced, cache)
        invariant !go ==> !Smooth(answers, old(step), step)
        invariant old(found) <= found && (Smooth(answers, old(step), step) ==> AllTried(src, found, |old(found)|, announced, cache))
        decreases |hops| - i
      {
        SmallerSet(AllEdges(universe) - edges, AllEdges(universe) - old(edges));
        ghost var a, c, f, t := announced, cache, found, step;
        go := TryPoison(hops[i], poisons);
        SmoothParts(answers, old(step), t, step);
        StillAllTried(src, f, found, |old(found)|, a, c, announced, cache);
        StillTried(src, poisons, hops[..i], a, c, announced, cache);
        i := i + 1;
      }
    }

    // The measurement a search starts with; no path if it is of no use.
    method MeasureFirst(poisons: set<nat>) returns (hops: seq<nat>)
      requires Valid()
      modifies this`step, this`edges, this`cache, this`found
      ensures Valid() && edges >= old(edges) && |edges| >= |old(edges)| && cache >= old(cache) && step == old(step) + 1
      ensures hops == FirstPath(answers(old(step)), old(edges)) && Known(universe, hops) && (hops != [] ==> poisons in cache)
      ensures found == if hops == [] then old(found) else old(found) + [Found(poisons, hops)]
    {
      hide Within, AllKnown, AllMayAnnounce, NotRepeated;
      var first := Ask();
      if !first.Path? {
        return [];
      }
      Answered(universe, answers, step - 1);
      var isNew := AddPath(first.asns);
      SmallerSet(old(edges), edges);
      if !isNew {
        return [];
      }
      CacheMore(announced, useful, cache, poisons);
      cache, found := cache + {poisons}, found + [Found(poisons, first.asns)];
      hops := first.asns;
    }

    // One AS of the path is poisoned besides; false when the measurements have to stop.
    method TryPoison(asn: nat, poisons: set<nat>) returns (go: bool)
      requires Valid() && MayAnnounce(src, poisons) && poisons in cache
      modifies this
      ensures Valid() && edges >= old(edges) && cache >= old(cache) && old(announced) <= announced && step >= old(step)
      ensures calls + |old(edges)| <= old(calls) + |edges|
      ensures Tried(src, poisons, asn, announced, cache)
      ensures !MayAnnounce(src, poisons + {asn}) || poisons + {asn} in old(cache) ==>
        go && announced == old(announced) && step == old(step)
      ensures MayAnnounce(src, poisons + {asn}) && poisons + {asn} !in old(cache) ==>
        old(announced) + [poisons + {asn}] <= announced && step > old(step) && (go <==> !Failed(answers(old(step)))) &&
        (answers(old(step)).Path? && !(EdgesOf(answers(old(step)).asns) <= old(edges)) ==>
           poisons + {asn} in cache && edges >= old(edges) + EdgesOf(answers(old(step)).asns))
      ensures old(found) <= found && (Smooth(answers, old(step), step) ==> AllTried(src, found, |old(found)|, announced, cache))
      ensures MayAnnounce(src, poisons + {asn}) && poisons + {asn} !in old(cache) && answers(old(step)).Path? &&
              !(EdgesOf(answers(old(step)).asns) <= old(edges)) ==>
        |found| > |old(found)| && found[|old(found)|] == Found(poisons + {asn}, answers(old(step)).asns)
      decreases |AllEdges(universe) - edges|, 1
    {
      hide Within, AllKnown, AllMayAnnounce, Known, EdgesOf, NotRepeated, Recorded, AllTried, PathTried, Smooth;
      NoneTried(src, found, announced, cache);
      var current := poisons + {asn};
      if asn == src || asn == ORIGIN {
        return true;
      }
      // not both of the two large ones
      if WOW in current && L3 in current {
        return true;
      }
      if current in cache {
        return true;
      }
      assert current != poisons && poisons < current;
      go := Poison(current, poisons);
      assert announced[|old(announced)|] == current;
    }

    // The announcement of a new set, the measurement after it and the search of the path it finds
    method Poison(current: set<nat>, ghost poisons: set<nat>) returns (go: bool)
      requires Valid() && MayAnnounce(src, current) && current !in cache && poisons < current
      modifies this
      ensures Valid() && edges >= old(edges) && cache >= old(cache) && old(announced) + [current] <= announced && step > old(step)
      ensures calls + |old(edges)| <= old(calls) + |edges|
      ensures go <==> !Failed(answers(old(step)))
      ensures old(found) <= found && (Smooth(answers, old(step), step) ==> AllTried(src, found, |old(found)|, announced, cache))
      ensures var a := answers(old(step));
        a.Path? && !(EdgesOf(a.asns) <= old(edges)) ==>
          current in cache && edges >= old(edges) + EdgesOf(a.asns) && |found| > |old(found)| && found[|old(found)|] == Found(current, a.asns)
      decreases |AllEdges(universe) - edges|, 0
    {
      hide Within, AllKnown, AllMayAnnounce, Known, EdgesOf, NotRepeated, Recorded, AllTried, PathTried, Smooth, MayAnnounce, Tried;
      NoneTried(src, found, announced + [current], cache);
      SmoothOne(answers, step);
      Announce(current);
      var a := Ask();
      if a.NoProbe? || a.ProbeFailed? {
        return false;
      }
      if !a.Path? {
        return true;
      }
      Answered(universe, answers, step - 1);
      var isNew := AddPath(a.asns);
      SmallerSet(old(edges), edges);
      if isNew {
        Fewer(universe, old(edges), old(edges), edges);
        SmoothLater(answers, old(step), step);
        Follow(a.asns, current, poisons);
      }
      go := true;
    }

    // The recursive call for the path that the last announcement has found
    method Follow(path: seq<nat>, current: set<nat>, ghost poisons: set<nat>)
      requires Valid() && MayAnnounce(src, current) && Known(universe, path) && path != [] && poisons < current
      requires announced != [] && announced[|announced| - 1] == current && |asked| == |announced|
      requires asked[|announced| - 1] < step && answers(asked[|announced| - 1]) == Path(path)
      modifies this
      ensures Valid() && edges >= old(edges) && cache >= old(cache) + {current} && old(announced) <= announced && step >= old(step)
      ensures calls + |old(edges)| <= old(calls) + 1 + |edges|
      ensures old(found) + [Found(current, path)] <= found
      ensures Smooth(answers, old(step), step) ==> AllTried(src, found, |old(found)|, announced, cache)
      decreases |AllEdges(universe) - edges|, 4
    {
      hide Within, AllKnown, AllMayAnnounce, Known, EdgesOf, NotRepeated, Recorded, AllTried, PathTried, Smooth, MayAnnounce, Tried;
      NoteFound(current, path);
      ghost var _, tried := Measure(path, current, poisons);
      if tried == |path| {
        FirstTried(src, found, |old(found)|, current, path, announced, cache);
      }
    }

    // make_announcement
    method Announce(poisons: set<nat>)
      requires Valid() && MayAnnounce(src, poisons) && poisons !in cache
      modifies this`announced, this`useful, this`asked
      ensures Valid() && announced == old(announced) + [poisons] && asked == old(asked) + [step] && |asked| == |announced|
    {
      announced, useful, asked := announced + [poisons], useful + [false], asked + [step];
    }

    // The last announcement was useful: its poison set is cached with the path.
    method NoteFound(poisons: set<nat>, path: seq<nat>)
      requires Valid() && announced != [] && announced[|announced| - 1] == poisons
      requires asked[|announced| - 1] < step && answers(asked[|announced| - 1]) == Path(path)
      modifies this`cache, this`useful, this`found
      ensures Valid() && cache == old(cache) + {poisons} && found == old(found) + [Found(poisons, path)]
    {
      hide Within, AllKnown, AllMayAnnounce;
      Useful(announced, useful, cache);
      RecordMore(announced, useful, asked, found, answers, Found(poisons, path));
      hide NotRepeated, Recorded;
      cache, useful, found := cache + {poisons}, useful[|announced| - 1 := true], found + [Found(poisons, path)];
    }
  }

  // The path a search starts with, if it is usable.
  function FirstPath(a: Answer, edges: set<Edge>): seq<nat> {
    if a.Path? && !(EdgesOf(a.asns) <= edges) then a.asns else []
  }

  lemma {:induction false} EdgesAre(asns: seq<nat>, n: nat)
    requires n < |asns| || n == 0
    ensures forall e :: e in EdgesTo(asns, n) <==> exists i :: 0 <= i < n && e == (asns[i], asns[i + 1])
  {
    if n > 0 {
      EdgesAre(asns, n - 1);
      forall e | e in EdgesTo(asns, n) ensures exists i :: 0 <= i < n && e == (asns[i], asns[i + 1]) {
        if e == (asns[n - 1], asns[n]) {
          assert 0 <= n - 1 < n;
        } else {
          assert e in EdgesTo(asns, n - 1);
          var i :| 0 <= i < n - 1 && e == (asns[i], asns[i + 1]);
          assert 0 <= i < n;
        }
      }
    }
  }

  lemma NoneTried(src: nat, found: seq<Found>, announced: seq<set<nat>>, cache: set<set<nat>>)
    ensures AllTried(src, found, |found|, announced, cache)
  {
  }

  lemma SmoothOne(answers: nat -> Answer, t: nat)
    ensures Smooth(answers, t, t) && (Smooth(answers, t, t + 1) <==> !Failed(answers(t)))
  {
  }

  lemma SmoothLater(answers: nat -> Answer, a: nat, b: nat)
    requires a <= b
    ensures forall c: nat :: b <= c && Smooth(answers, a, c) ==> Smooth(answers, b, c)
  {
  }

  lemma SmoothParts(answers: nat -> Answer, a: nat, b: nat, c: nat)
    requires a <= b <= c
    ensures Smooth(answers, a, c) ==> Smooth(answers, a, b) && Smooth(answers, b, c)
  {
  }

  lemma StillAllTried(src: nat, f: seq<Found>, f': seq<Found>, from: nat, a: seq<set<nat>>, c: set<set<nat>>, a': seq<set<nat>>, c': set<set<nat>>)
    requires from <= |f| && f <= f' && a <= a' && c <= c'
    ensures AllTried(src, f, from, a, c) && AllTried(src, f', |f|, a', c') ==> AllTried(src, f', from, a', c')
  {
    if AllTried(src, f, from, a, c) && AllTried(src, f', |f|, a', c') {
      forall k | from <= k < |f'| ensures PathTried(src, f'[k], a', c') {
        if k < |f| {
          assert PathTried(src, f[k], a, c);
        }
      }
    }
  }

  // The path of a record has been tried, and those of the records after it.
  lemma FirstTried(src: nat, found: seq<Found>, k: nat, poisons: set<nat>, path: seq<nat>, announced: seq<set<nat>>, cache: set<set<nat>>)
    requires k < |found| && found[k] == Found(poisons, path)
    requires forall i :: 0 <= i < |path| ==> Tried(src, poisons, path[i], announced, cache)
    ensures AllTried(src, found, k + 1, announced, cache) ==> AllTried(src, found, k, announced, cache)
  {
  }

  lemma RecordMore(announced: seq<set<nat>>, useful: seq<bool>, asked: seq<nat>, found: seq<Found>, answers: nat -> Answer, f: Found)
    requires Recorded(announced, useful, asked, found, answers)
    ensures Recorded(announced, useful, asked, found + [f], answers)
    ensures announced != [] && f.poisons == announced[|announced| - 1] && answers(asked[|announced| - 1]) == Path(f.path) ==>
      Recorded(announced, useful[|announced| - 1 := true], asked, found + [f], answers)
  {
  }

  lemma CacheMore(announced: seq<set<nat>>, useful: seq<bool>, cache: set<set<nat>>, poisons: set<nat>)
    requires NotRepeated(announced, useful, cache)
    ensures NotRepeated(announced, useful, cache + {poisons})
  {
  }

  lemma Useful(announced: seq<set<nat>>, useful: seq<bool>, cache: set<set<nat>>)
    requires NotRepeated(announced, useful, cache) && announced != []
    ensures |useful| == |announced|
    ensures NotRepeated(announced, useful[|announced| - 1 := true], cache + {announced[|announced| - 1]})
  {
  }

  lemma StillTried(src: nat, poisons: set<nat>, asns: seq<nat>, a: seq<set<nat>>, c: set<set<nat>>, a': seq<set<nat>>, c': set<set<nat>>)
    requires a <= a' && c <= c'
    ensures forall k :: 0 <= k < |asns| && Tried(src, poisons, asns[k], a, c) ==> Tried(src, poisons, asns[k], a', c')
  {
  }

  lemma Answered(universe: set<nat>, answers: nat -> Answer, t: nat)
    requires AllKnown(universe, answers) && answers(t).Path?
    ensures Known(universe, answers(t).asns)
  {
  }

  // A new edge brings the graph nearer to the complete one.
  lemma Fewer(universe: set<nat>, was: set<Edge>, before: set<Edge>, now: set<Edge>)
    requires Within(universe, now) && was <= before < now
    ensures |AllEdges(universe) - now| < |AllEdges(universe) - was| && |before| + 1 <= |now|
  {
    var e :| e in now && e !in before;
    assert e in AllEdges(universe) - was && e !in AllEdges(universe) - now;
    SmallerSet(AllEdges(universe) - now, AllEdges(universe) - was);
    SmallerSet(before, now);
  }

  // A search from scratch: the number of calls is bounded by the number of edges found.
  method Run(src: nat, answers: nat -> Answer, ghost universe: set<nat>) returns (s: Search)
    requires AllKnown(universe, answers)
    ensures s.calls <= 1 + |s.edges| && |s.edges| <= |AllEdges(universe)|
    ensures AllMayAnnounce(src, s.announced) && NotRepeated(s.announced, s.useful, s.cache)
    ensures Recorded(s.announced, s.useful, s.asked, s.found, answers)
    ensures FirstPath(answers(0), {}) != [] ==> s.found != [] && s.found[0] == Found({}, FirstPath(answers(0), {}))
    ensures Smooth(answers, 0, s.step) ==> AllTried(src, s.found, 0, s.announced, s.cache)
  {
    s := new Search(src, answers, universe);
    ghost var path, tried := s.Measure([], {}, {});
    assert s.edges <= AllEdges(universe);
    SmallerSet(s.edges, AllEdges(universe));
  }
}
