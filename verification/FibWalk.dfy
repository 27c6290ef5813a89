/**
 * Walks over a FIB that are suspended and resumed while entries come and go (FIB_ITERATE_* in
 * nest/route.h). Entries are named by their unique ids, whose order is the reading order.
 *
 * Main result: in every run, a finished walk has visited every entry that was there all the time,
 * and no walk ever went back (WalksComplete).
 */
module FibWalk {

  import opened Fib
  import opened FibTable
  import opened Options

  // Suspended at an entry or at the end; reading an entry; or finished.
  datatype Pos = Parked(u: nat) | AtEnd | Reading(u: nat) | Done

  // `lasting` are the entries present since the start; `reread` tells that the walk was suspended
  // at an entry it had read already (FIB_ITERATE_PUT).
  datatype Walk = Walk(pos: Pos, lasting: set<nat>, visited: seq<nat>, reread: bool)

  datatype State = State(uids: set<nat>, walks: map<It, Walk>)

  // `next` is what the FIB tells to be the entry read after the one concerned.
  datatype Event =
    | Insert(u: nat)
    | Delete(u: nat, next: Option<nat>)
    | Init(it: It, first: Option<nat>)
    | Resume(it: It)
    | Step(it: It, next: Option<nat>)
    | Park(it: It)
    | ParkNext(it: It, next: Option<nat>)

  function ParkAt(n: Option<nat>): Pos {
    if n.None? then AtEnd else Parked(n.value)
  }

  function ReadAt(w: Walk, n: Option<nat>): Walk {
    if n.None? then w.(pos := Done) else w.(pos := Reading(n.value), visited := w.visited + [n.value])
  }

  // The FIB changes only while all walks are suspended or finished.
  predicate AllSuspended(s: State) {
    forall it :: it in s.walks ==> !s.walks[it].pos.Reading?
  }

  predicate IsFirst(uids: set<nat>, r: Option<nat>) {
    match r
    case None => uids == {}
    case Some(n) => n in uids && forall v :: v in uids ==> n <= v
  }

  predicate Enabled(s: State, ev: Event) {
    match ev
    case Insert(u) => AllSuspended(s) && u !in s.uids
    case Delete(u, next) => AllSuspended(s) && u in s.uids && IsNext(s.uids, u, next)
    case Init(it, first) => it !in s.walks && IsFirst(s.uids, first)
    case Resume(it) => it in s.walks && (s.walks[it].pos.Parked? || s.walks[it].pos.AtEnd?)
    case Step(it, next) => it in s.walks && s.walks[it].pos.Reading? && IsNext(s.uids, s.walks[it].pos.u, next)
    case Park(it) => it in s.walks && s.walks[it].pos.Reading?
    case ParkNext(it, next) => it in s.walks && s.walks[it].pos.Reading? && IsNext(s.uids, s.walks[it].pos.u, next)
  }

  // A walk after entry u is gone.
  function AfterDelete(w: Walk, u: nat, next: Option<nat>): Walk {
    w.(pos := if w.pos == Parked(u) then ParkAt(next) else w.pos, lasting := w.lasting - {u})
  }

  function Apply(s: State, ev: Event): State
    requires Enabled(s, ev)
  {
    match ev
    case Insert(u) => s.(uids := s.uids + {u})
    case Delete(u, next) => State(s.uids - {u}, map it | it in s.walks :: AfterDelete(s.walks[it], u, next))
    case Init(it, first) => s.(walks := s.walks[it := Walk(ParkAt(first), s.uids, [], false)])
    case Resume(it) =>
      var w := s.walks[it];
      s.(walks := s.walks[it := ReadAt(w, if w.pos.Parked? then Some(w.pos.u) else None)])
    case Step(it, next) => s.(walks := s.walks[it := ReadAt(s.walks[it], next)])
    case Park(it) => s.(walks := s.walks[it := s.walks[it].(pos := Parked(s.walks[it].pos.u), reread := true)])
    case ParkNext(it, next) => s.(walks := s.walks[it := s.walks[it].(pos := ParkAt(next))])
  }

  /* ---------- Invariant ---------- */

  // What is still to come: at or after the place of a suspended walk, after the entry being read.
  predicate Ahead(pos: Pos, v: nat) {
    match pos
    case Parked(u) => u <= v
    case Reading(u) => u < v
    case _ => false
  }

  predicate InOrder(visited: seq<nat>, reread: bool) {
    forall i, j :: 0 <= i < j < |visited| ==> if reread then visited[i] <= visited[j] else visited[i] < visited[j]
  }

  predicate NotPast(w: Walk) {
    match w.pos
    case Parked(u) => forall i :: 0 <= i < |w.visited| ==> if w.reread then w.visited[i] <= u else w.visited[i] < u
    case Reading(u) => w.visited != [] && w.visited[|w.visited| - 1] == u
    case _ => true
  }

  predicate WalkOk(uids: set<nat>, w: Walk) {
    w.lasting <= uids && (w.pos.Parked? || w.pos.Reading? ==> w.pos.u in uids) &&
    (forall v :: v in w.lasting ==> v in w.visited || Ahead(w.pos, v)) && InOrder(w.visited, w.reread) && NotPast(w)
  }

  predicate Ok(s: State) {
    forall it :: it in s.walks ==> WalkOk(s.uids, s.walks[it])
  }

  lemma ReadAtOk(uids: set<nat>, w: Walk, n: Option<nat>)
    requires WalkOk(uids, w) && (n.Some? ==> n.value in uids)
    requires match w.pos
      case Parked(u) => n == Some(u)
      case Reading(u) => IsNext(uids, u, n)
      case AtEnd => n == None
      case Done => false
    ensures WalkOk(uids, ReadAt(w, n))
  {
    var w' := ReadAt(w, n);
    if n.Some? {
      forall v | v in w.visited ensures v in w'.visited {
        var i :| 0 <= i < |w.visited| && w.visited[i] == v;
        assert w'.visited[i] == v;
      }
      assert w'.visited[|w.visited|] == n.value;
    }
  }

  lemma AfterDeleteOk(uids: set<nat>, w: Walk, u: nat, next: Option<nat>)
    requires WalkOk(uids, w) && !w.pos.Reading? && IsNext(uids, u, next)
    ensures WalkOk(uids - {u}, AfterDelete(w, u, next))
  {
  }

  lemma ParkOk(uids: set<nat>, w: Walk, next: Option<nat>)
    requires WalkOk(uids, w) && w.pos.Reading?
    ensures WalkOk(uids, w.(pos := Parked(w.pos.u), reread := true))
    ensures IsNext(uids, w.pos.u, next) ==> WalkOk(uids, w.(pos := ParkAt(next)))
  {
    assert w.visited[|w.visited| - 1] == w.pos.u;
  }

  lemma StepOk(s: State, ev: Event)
    requires Ok(s) && Enabled(s, ev)
    ensures Ok(Apply(s, ev))
  {
    hide WalkOk, ReadAt, AfterDelete, IsNext;
    var s' := Apply(s, ev);
    forall it | it in s'.walks ensures WalkOk(s'.uids, s'.walks[it]) {
      match ev
      case Insert(u) => MoreUids(s.uids, u, s.walks[it]);
      case Delete(u, next) => AfterDeleteOk(s.uids, s.walks[it], u, next);
      case Init(i, first) =>
        if i == it {
          FirstOk(s.uids, first);
        }
      case Resume(i) =>
        if i == it {
          Place(s.uids, s.walks[it], None);
          ReadAtOk(s.uids, s.walks[it], if s.walks[it].pos.Parked? then Some(s.walks[it].pos.u) else None);
        }
      case Step(i, next) =>
        if i == it {
          Place(s.uids, s.walks[it], next);
          ReadAtOk(s.uids, s.walks[it], next);
        }
      case Park(i) =>
        if i == it {
          ParkOk(s.uids, s.walks[it], None);
        }
      case ParkNext(i, next) =>
        if i == it {
          ParkOk(s.uids, s.walks[it], next);
        }
    }
  }

  lemma MoreUids(uids: set<nat>, u: nat, w: Walk)
    requires WalkOk(uids, w)
    ensures WalkOk(uids + {u}, w)
  {
  }

  lemma FirstOk(uids: set<nat>, first: Option<nat>)
    requires IsFirst(uids, first)
    ensures WalkOk(uids, Walk(ParkAt(first), uids, [], false))
  {
  }

  lemma Place(uids: set<nat>, w: Walk, next: Option<nat>)
    requires WalkOk(uids, w)
    ensures w.pos.Parked? ==> w.pos.u in uids
    ensures w.pos.Reading? && IsNext(uids, w.pos.u, next) && next.Some? ==> next.value in uids
  {
  }

  // The states of a run.
  ghost predicate Run(states: seq<State>, events: seq<Event>) {
    |states| == |events| + 1 && states[0].walks == map[] &&
    forall i :: 0 <= i < |events| ==> Enabled(states[i], events[i]) && states[i + 1] == Apply(states[i], events[i])
  }

  lemma {:induction false} RunOk(states: seq<State>, events: seq<Event>, k: nat)
    requires Run(states, events) && k < |states|
    ensures Ok(states[k])
  {
    if k > 0 {
      RunOk(states, events, k - 1);
      StepOk(states[k - 1], events[k - 1]);
    }
  }

  // Finished walks have seen every lasting entry; all walks go forward, and see no entry twice
  // unless they were suspended at it after reading it; a suspended walk waits at a live entry.
  lemma WalksComplete(states: seq<State>, events: seq<Event>, k: nat, it: It)
    requires Run(states, events) && k < |states| && it in states[k].walks
    ensures var w := states[k].walks[it];
      (w.pos.Done? ==> forall v :: v in w.lasting ==> v in w.visited) && InOrder(w.visited, w.reread) &&
      (w.pos.Parked? ==> w.pos.u in states[k].uids)
  {
    RunOk(states, events, k);
    assert WalkOk(states[k].uids, states[k].walks[it]);
  }

  // Entry u was there when event i started the walk, and nothing deleted it before state k.
  ghost predicate Stays(states: seq<State>, events: seq<Event>, i: nat, k: nat, it: It, u: nat)
    requires |states| == |events| + 1
  {
    i < k < |states| && events[i].Init? && events[i].it == it && u in states[i].uids &&
    forall j :: i < j < k && events[j].Delete? ==> events[j].u != u
  }

  lemma {:induction false} StaysLasting(states: seq<State>, events: seq<Event>, i: nat, k: nat, it: It, u: nat)
    requires Run(states, events) && Stays(states, events, i, k, it, u)
    ensures it in states[k].walks && u in states[k].walks[it].lasting
    decreases k
  {
    assert Enabled(states[k - 1], events[k - 1]) && states[k] == Apply(states[k - 1], events[k - 1]);
    if i + 1 < k {
      StaysLasting(states, events, i, k - 1, it, u);
    }
  }

  // In the terms of a run alone: a walk that is over has visited every entry that was there when it
  // started and has not been deleted since, and it has only visited what it has read.
  lemma VisitsWhatStays(states: seq<State>, events: seq<Event>, k: nat, it: It)
    requires Run(states, events) && k < |states| && it in states[k].walks && states[k].walks[it].pos.Done?
    ensures forall i: nat, u :: Stays(states, events, i, k, it, u) ==> u in states[k].walks[it].visited
  {
    WalksComplete(states, events, k, it);
    forall i: nat, u | Stays(states, events, i, k, it, u) ensures u in states[k].walks[it].visited {
      StaysLasting(states, events, i, k, it, u);
    }
  }

  ghost predicate WasRead(states: seq<State>, k: nat, it: It, u: nat) {
    exists j :: 0 <= j <= k && j < |states| && it in states[j].walks && states[j].walks[it].pos == Reading(u)
  }

  lemma {:induction false} VisitedWasRead(states: seq<State>, events: seq<Event>, k: nat, it: It, u: nat)
    requires Run(states, events) && k < |states| && it in states[k].walks && u in states[k].walks[it].visited
    ensures WasRead(states, k, it, u)
  {
    if k > 0 {
      assert Enabled(states[k - 1], events[k - 1]) && states[k] == Apply(states[k - 1], events[k - 1]);
      if it in states[k - 1].walks && u in states[k - 1].walks[it].visited {
        VisitedWasRead(states, events, k - 1, it, u);
        assert WasRead(states, k - 1, it, u);
      } else {
        VisitedNow(states[k - 1], events[k - 1], it, u);
      }
    }
  }

  lemma VisitedNow(s: State, ev: Event, it: It, u: nat)
    requires Enabled(s, ev) && it in Apply(s, ev).walks && u in Apply(s, ev).walks[it].visited
    requires it in s.walks ==> u !in s.walks[it].visited
    ensures Apply(s, ev).walks[it].pos == Reading(u)
  {
  }

  /* ---------- The table takes these steps ---------- */

  // Where the suspended walks wait, as the table knows it.
  function Waiting(s: State): map<It, Option<nat>> {
    map it | it in s.walks && (s.walks[it].pos.Parked? || s.walks[it].pos.AtEnd?) ::
      if s.walks[it].pos.Parked? then Some(s.walks[it].pos.u) else None
  }

  // Each event changes the waiting iterators as the operation of the table does: fib_get and
  // fib_delete, fit_init, fit_get, fit_put and fit_put_next.
  lemma TableSteps(s: State, ev: Event)
    requires Enabled(s, ev)
    ensures match ev
      case Insert(_) => Waiting(Apply(s, ev)) == Waiting(s)
      case Delete(u, next) => Waiting(Apply(s, ev)) == Moved(Waiting(s), u, next)
      case Init(it, first) => Waiting(Apply(s, ev)) == Waiting(s)[it := first]
      case Resume(it) => it in Waiting(s) && Waiting(Apply(s, ev)) == Waiting(s) - {it}
      case Step(it, _) => it !in Waiting(s) && Waiting(Apply(s, ev)) == Waiting(s)
      case Park(it) => Waiting(Apply(s, ev)) == Waiting(s)[it := Some(s.walks[it].pos.u)]
      case ParkNext(it, next) => Waiting(Apply(s, ev)) == Waiting(s)[it := next]
  {
  }

  // The first entry of the reading order is where a new walk starts.
  lemma FirstIsFirst(s: seq<Node>)
    requires Sorted(s)
    ensures IsFirst(Uids(s), FirstUid(s))
  {
    if s == [] {
      assert Uids(s) == {};
    } else {
      assert s[0].uid in Uids(s);
    }
  }
}
