/**
 * Notification of BFD session changes (proto/bfd/bfd.c): the BFD thread links changed sessions to a
 * notify list and kicks a pipe, a hook in the main thread drains the pipe, takes the list and tells
 * the requests of each session.
 *
 * Each event below is one atomic section of one of the threads. Main results, for all runs: no change
 * is lost (RunOk, NothingLost), and the two threads settle with all requests at the latest state
 * (RunSettles). The notify hook is proved with any turns of the others between its sections.
 */
module Bfd {

  import opened Options
  import opened Lists

  type Session = nat
  type Request = nat

  // BFD_STATE_ADMIN_DOWN .. BFD_STATE_UP
  datatype SessionState = AdminDown | Down | Init | Up

  // The BFD thread: idle, or with the lock released and the pipe still to be kicked.
  datatype BfdThread = BfdIdle | ToKick

  // The main thread: outside the hook, pipe drained, list taken, or telling the requests of a
  // session the state that was read.
  datatype MainThread = MainIdle | Drained | Taken | Telling(s: Session, state: SessionState, rest: seq<Request>)

  // A request being added, with the state read for it.
  datatype Adding = Adding(q: Request, s: Session, state: SessionState)

  datatype State = State(
    loc: map<Session, SessionState>,
    requests: map<Session, seq<Request>>,
    told: map<Request, SessionState>,
    notify: seq<Session>,
    taken: seq<Session>,
    pipe: nat,
    bfd: BfdThread,
    main: MainThread,
    adding: Option<Adding>)

  datatype Event =
    | UpdateState(s: Session, state: SessionState)
    | Kick
    | HookStart
    | Take
    | NextSession
    | Tell
    | EndSession
    | HookEnd
    | AddRequest(q: Request, s: Session, created: bool)
    | TellAdded
    | FreeRequest(q: Request, s: Session)

  // NODE_VALID: the session is on the notify list or on the hook's own list
  predicate Linked(st: State, s: Session) {
    s in st.notify || s in st.taken
  }

  // The main thread may change requests outside the hook and inside the hooks of requests.
  predicate MainFree(st: State) {
    st.adding.None? && (st.main.MainIdle? || st.main.Telling?)
  }

  // When a section may run. The lock of the BFD loop that is taken to create and to remove sessions
  // is not needed for anything below, so the model lets the BFD thread go on meanwhile.
  predicate Enabled(st: State, ev: Event) {
    match ev
    case UpdateState(s, _) => st.bfd.BfdIdle? && s in st.loc
    case Kick => st.bfd.ToKick?
    case HookStart => st.main.MainIdle? && st.adding.None? && st.pipe > 0
    case Take => st.main.Drained?
    case NextSession => st.main.Taken? && st.taken != [] && st.taken[0] in st.loc && st.taken[0] in st.requests
    case Tell => st.main.Telling? && st.adding.None? && st.main.rest != []
    case EndSession => st.main.Telling? && st.adding.None? && st.main.rest == []
    case HookEnd => st.main.Taken? && st.taken == []
    case AddRequest(q, s, created) => MainFree(st) && q !in st.told && (created <==> s !in st.loc)
    case TellAdded => st.adding.Some?
    case FreeRequest(q, s) => MainFree(st) && q in st.told && s in st.requests && q in st.requests[s]
  }

  // bfd_session_update_state up to the release of the lock
  function Updated(st: State, s: Session, state: SessionState): State
    requires s in st.loc
  {
    if state == st.loc[s] then st
    else
      var t := st.(loc := st.loc[s := state]);
      if Linked(st, s) then t else t.(notify := st.notify + [s], bfd := ToKick)
  }

  // bfd_remove_session
  function Removed(st: State, s: Session): State {
    st.(loc := st.loc - {s}, requests := st.requests - {s}, notify := Without(st.notify, s), taken := Without(st.taken, s))
  }

  // bfd_add_request: a new session starts down; the request is linked and the state is read
  function Added(st: State, q: Request, s: Session): State {
    var t := if s in st.loc then st else st.(loc := st.loc[s := Down], requests := st.requests[s := []]);
    var list := if s in t.requests then t.requests[s] else [];
    var u := t.(requests := t.requests[s := list + [q]], told := t.told[q := AdminDown], adding := Some(Adding(q, s, t.loc[s])));
    if st.main.Telling? && st.main.s == s then u.(main := st.main.(rest := st.main.rest + [q])) else u
  }

  // bfd_request_free: the session goes with its last request, unless the hook is telling it
  function Freed(st: State, q: Request, s: Session): State
    requires s in st.requests
  {
    var list := Without(st.requests[s], q);
    var telling := st.main.Telling? && st.main.s == s;
    var t := st.(requests := st.requests[s := list], told := st.told - {q},
                 main := if telling then st.main.(rest := Without(st.main.rest, q)) else st.main);
    if list == [] && !telling then Removed(t, s) else t
  }

  function Apply(st: State, ev: Event): State
    requires Enabled(st, ev)
  {
    match ev
    case UpdateState(s, state) => Updated(st, s, state)
    case Kick => st.(bfd := BfdIdle, pipe := st.pipe + 1)
    case HookStart => st.(pipe := 0, main := Drained)
    case Take => st.(taken := st.taken + st.notify, notify := [], main := Taken)
    case NextSession =>
      var s := st.taken[0];
      st.(taken := st.taken[1..], main := Telling(s, st.loc[s], st.requests[s]))
    case Tell =>
      var q := st.main.rest[0];
      st.(told := if q in st.told then st.told[q := st.main.state] else st.told, main := st.main.(rest := st.main.rest[1..]))
    case EndSession =>
      var s := st.main.s;
      if s in st.requests && st.requests[s] == [] then Removed(st.(main := Taken), s) else st.(main := Taken)
    case HookEnd => st.(main := MainIdle)
    case AddRequest(q, s, _) => Added(st, q, s)
    case TellAdded =>
      var a := st.adding.value;
      st.(told := if a.q in st.told then st.told[a.q := a.state] else st.told, adding := None)
    case FreeRequest(q, s) => Freed(st, q, s)
  }

  /* ---------- Invariants ---------- */

  // Everybody who may see the session's new state late is pending or is being told.
  predicate UpToDate(st: State, s: Session, q: Request)
    requires s in st.loc && q in st.told
  {
    st.told[q] == st.loc[s] || Linked(st, s) ||
    (st.main.Telling? && st.main.s == s && q in st.main.rest && st.main.state == st.loc[s]) ||
    (st.adding.Some? && st.adding.value.q == q && st.adding.value.s == s && st.adding.value.state == st.loc[s])
  }

  ghost predicate RequestsOk(st: State) {
    forall s, q :: Has(st, s, q) ==> s in st.loc && q in st.told && UpToDate(st, s, q)
  }

  // A state once read is the current one, or the session is linked again.
  ghost predicate ReadOk(st: State) {
    (st.main.Drained? || st.main.Taken? ==> st.adding.None?) &&
    (st.main.Telling? ==>
      st.main.s in st.loc && st.main.s !in st.taken && (st.main.state == st.loc[st.main.s] || st.main.s in st.notify) &&
      forall q :: q in st.main.rest ==> Has(st, st.main.s, q)) &&
    (st.adding.Some? ==>
      var a := st.adding.value;
      a.s in st.loc && Has(st, a.s, a.q) && (a.state == st.loc[a.s] || Linked(st, a.s)))
  }

  // A nonempty notify list will be taken: a byte is in the pipe, a kick or the taking is to come.
  predicate KickOk(st: State) {
    st.notify != [] ==> st.pipe > 0 || st.bfd.ToKick? || st.main.Drained?
  }

  // Linked sessions are live and linked once; the hook's list is empty outside the hook.
  ghost predicate ListsOk(st: State) {
    Distinct(st.taken) && Distinct(st.notify) && st.loc.Keys == st.requests.Keys &&
    (forall s :: Linked(st, s) ==> s in st.loc) && (forall s :: s in st.notify ==> s !in st.taken) &&
    (st.main.MainIdle? || st.main.Drained? ==> st.taken == [])
  }

  // A request belongs to one session.
  ghost predicate OneSession(st: State) {
    forall s, t, q :: Has(st, s, q) && Has(st, t, q) ==> s == t
  }

  predicate Has(st: State, s: Session, q: Request) {
    s in st.requests && q in st.requests[s]
  }

  ghost predicate Inv(st: State) {
    RequestsOk(st) && ReadOk(st) && KickOk(st) && ListsOk(st) && OneSession(st)
  }

  lemma UpdateOk(st: State, s: Session, state: SessionState)
    requires Inv(st) && Enabled(st, UpdateState(s, state))
    ensures Inv(Updated(st, s, state))
  {
    hide RequestsOk, OneSession, ReadOk, ListsOk, KickOk, Updated;
    UpdateRequests(st, s, state);
    UpdateLists(st, s, state);
    SameRequests(st, Updated(st, s, state));
    UpdateRead(st, s, state);
  }

  lemma UpdateLists(st: State, s: Session, state: SessionState)
    requires ListsOk(st) && KickOk(st) && s in st.loc
    ensures ListsOk(Updated(st, s, state)) && KickOk(Updated(st, s, state)) && Updated(st, s, state).requests == st.requests
  {
    var t := Updated(st, s, state);
    assert forall r :: Linked(t, r) ==> Linked(st, r) || r == s;
  }

  lemma UpdateRequests(st: State, s: Session, state: SessionState)
    requires RequestsOk(st) && ReadOk(st) && s in st.loc
    ensures RequestsOk(Updated(st, s, state))
  {
    var t := Updated(st, s, state);
    forall r, q | Has(t, r, q) ensures r in t.loc && q in t.told && UpToDate(t, r, q) {
      assert Has(st, r, q) && UpToDate(st, r, q);
      assert Linked(st, r) ==> Linked(t, r);
    }
  }

  lemma UpdateRead(st: State, s: Session, state: SessionState)
    requires ReadOk(st) && s in st.loc
    ensures ReadOk(Updated(st, s, state))
  {
    var t := Updated(st, s, state);
    assert forall r :: Linked(st, r) ==> Linked(t, r);
    assert forall r, q :: Has(t, r, q) <==> Has(st, r, q);
  }

  lemma SameRequests(st: State, t: State)
    requires OneSession(st) && t.requests == st.requests
    ensures OneSession(t)
  {
    forall a, b, q | Has(t, a, q) && Has(t, b, q) ensures a == b {
      assert Has(st, a, q) && Has(st, b, q);
    }
  }

  lemma RemoveOk(st: State, s: Session)
    requires Inv(st) && s in st.requests && st.requests[s] == [] && !(st.main.Telling? && st.main.s == s) && st.adding.None?
    ensures Inv(Removed(st, s))
  {
    WithoutDistinct(st.notify, s);
    WithoutDistinct(st.taken, s);
    var t := Removed(st, s);
    forall r, q | Has(t, r, q) ensures r in t.loc && q in t.told && UpToDate(t, r, q) {
      assert Has(st, r, q) && UpToDate(st, r, q);
    }
    assert OneSession(t) by {
      forall a, b, q | Has(t, a, q) && Has(t, b, q) ensures a == b {
        assert Has(st, a, q) && Has(st, b, q);
      }
    }
  }

  lemma NextOk(st: State)
    requires Inv(st) && Enabled(st, NextSession)
    ensures Inv(Apply(st, NextSession))
  {
    var t := Apply(st, NextSession);
    assert Linked(st, st.taken[0]) && st.taken[0] !in st.taken[1..];
    forall r, q | Has(t, r, q) ensures r in t.loc && q in t.told && UpToDate(t, r, q) {
      assert Has(st, r, q) && UpToDate(st, r, q);
    }
    SameRequests(st, t);
    assert forall s :: Linked(t, s) ==> Linked(st, s);
  }

  lemma TakeOk(st: State)
    requires Inv(st) && Enabled(st, Take)
    ensures Inv(Apply(st, Take))
  {
    var t := Apply(st, Take);
    assert t.taken == st.notify;
    forall r, q | Has(t, r, q) ensures r in t.loc && q in t.told && UpToDate(t, r, q) {
      assert Has(st, r, q) && UpToDate(st, r, q);
    }
    SameRequests(st, t);
    assert forall s :: Linked(t, s) ==> Linked(st, s);
  }

  // Steps that move only the pipe and the program counters.
  lemma CounterOk(st: State, ev: Event)
    requires Inv(st) && Enabled(st, ev) && (ev.Kick? || ev.HookStart? || ev.HookEnd?)
    ensures Inv(Apply(st, ev))
  {
    var t := Apply(st, ev);
    forall r, q | Has(t, r, q) ensures r in t.loc && q in t.told && UpToDate(t, r, q) {
      assert Has(st, r, q) && UpToDate(st, r, q);
    }
    SameRequests(st, t);
    assert forall s :: Linked(t, s) ==> Linked(st, s);
  }

  // Telling a request, in the hook or when it is added.
  lemma TellOk(st: State, ev: Event)
    requires Inv(st) && Enabled(st, ev) && (ev.Tell? || ev.TellAdded?)
    ensures Inv(Apply(st, ev))
  {
    var t := Apply(st, ev);
    forall r, q | Has(t, r, q) ensures r in t.loc && q in t.told && UpToDate(t, r, q) {
      assert Has(st, r, q) && UpToDate(st, r, q);
      if ev.Tell? {
        assert st.main.rest[0] in st.main.rest && Has(st, st.main.s, st.main.rest[0]);
        assert q in st.main.rest ==> q == st.main.rest[0] || q in st.main.rest[1..];
      }
    }
    SameRequests(st, t);
    assert forall s :: Linked(t, s) <==> Linked(st, s);
    forall q | t.main.Telling? && q in t.main.rest ensures Has(t, t.main.s, q) {
      assert q in st.main.rest && Has(st, st.main.s, q);
    }
  }

  lemma EndOk(st: State)
    requires Inv(st) && Enabled(st, EndSession)
    ensures Inv(Apply(st, EndSession))
  {
    var u := st.(main := Taken);
    forall r, q | Has(u, r, q) ensures r in u.loc && q in u.told && UpToDate(u, r, q) {
      assert Has(st, r, q) && UpToDate(st, r, q);
    }
    SameRequests(st, u);
    assert forall s :: Linked(u, s) ==> Linked(st, s);
    if st.main.s in st.requests && st.requests[st.main.s] == [] {
      RemoveOk(u, st.main.s);
    }
  }

  lemma AddOk(st: State, q: Request, s: Session)
    requires Inv(st) && MainFree(st) && q !in st.told
    ensures Inv(Added(st, q, s))
  {
    var t := Added(st, q, s);
    AddRequests(st, q, s);
    AddSessions(st, q, s);
    AddRead(st, q, s);
    hide RequestsOk, OneSession, ReadOk;
    assert forall r :: Linked(t, r) <==> Linked(st, r);
  }

  lemma AddRequests(st: State, q: Request, s: Session)
    requires RequestsOk(st) && MainFree(st) && q !in st.told && st.loc.Keys == st.requests.Keys
    ensures RequestsOk(Added(st, q, s)) && forall r :: !Has(st, r, q)
  {
    var t := Added(st, q, s);
    forall r, p | Has(t, r, p) ensures r in t.loc && p in t.told && UpToDate(t, r, p) {
      if p == q {
        assert r == s;
      } else {
        assert Has(st, r, p) && UpToDate(st, r, p);
      }
    }
  }

  lemma AddSessions(st: State, q: Request, s: Session)
    requires OneSession(st) && (forall r :: !Has(st, r, q)) && st.loc.Keys == st.requests.Keys
    ensures OneSession(Added(st, q, s))
  {
    var t := Added(st, q, s);
    forall a, b, p | Has(t, a, p) && Has(t, b, p) ensures a == b {
      assert p != q ==> Has(st, a, p) && Has(st, b, p);
      assert p == q ==> !Has(st, a, q) && !Has(st, b, q);
    }
  }

  lemma AddRead(st: State, q: Request, s: Session)
    requires ReadOk(st) && MainFree(st) && st.loc.Keys == st.requests.Keys
    ensures ReadOk(Added(st, q, s))
  {
    var t := Added(st, q, s);
    forall p | t.main.Telling? && p in t.main.rest ensures Has(t, t.main.s, p) {
      assert p != q ==> Has(st, st.main.s, p);
    }
    assert Has(t, s, q);
  }

  lemma FreeOk(st: State, q: Request, s: Session)
    requires Inv(st) && Enabled(st, FreeRequest(q, s))
    ensures Inv(Freed(st, q, s))
  {
    var list := Without(st.requests[s], q);
    var telling := st.main.Telling? && st.main.s == s;
    var t := st.(requests := st.requests[s := list], told := st.told - {q},
                 main := if telling then st.main.(rest := Without(st.main.rest, q)) else st.main);
    forall r, p | Has(t, r, p) ensures r in t.loc && p in t.told && UpToDate(t, r, p) && Has(st, r, p) && p != q {
      assert Has(st, s, q) && Has(st, r, p) && UpToDate(st, r, p);
    }
    forall a, b, p | Has(t, a, p) && Has(t, b, p) ensures a == b {
      assert Has(st, a, p) && Has(st, b, p);
    }
    assert forall r :: Linked(t, r) <==> Linked(st, r);
    forall p | t.main.Telling? && p in t.main.rest ensures Has(t, t.main.s, p) {
      assert p in st.main.rest && Has(st, st.main.s, p) && Has(st, s, q);
    }
    if list == [] && !telling {
      RemoveOk(t, s);
    }
  }

  // Every atomic section of either thread keeps the invariant.
  lemma StepOk(st: State, ev: Event)
    requires Inv(st) && Enabled(st, ev)
    ensures Inv(Apply(st, ev))
  {
    hide Inv, Updated, Added, Freed, Removed;
    match ev
    case UpdateState(s, state) => UpdateOk(st, s, state);
    case Kick => CounterOk(st, ev);
    case HookStart => CounterOk(st, ev);
    case Take => TakeOk(st);
    case NextSession => NextOk(st);
    case Tell => TellOk(st, ev);
    case EndSession => EndOk(st);
    case HookEnd => CounterOk(st, ev);
    case AddRequest(q, s, _) => AddOk(st, q, s);
    case TellAdded => TellOk(st, ev);
    case FreeRequest(q, s) => FreeOk(st, q, s);
  }

  /* ---------- Runs ---------- */

  // No thread has anything left to do.
  predicate Quiet(st: State) {
    st.bfd.BfdIdle? && st.main.MainIdle? && st.adding.None? && st.pipe == 0
  }

  // A request that does not know the state of its session is pending: the session is linked, or the
  // request is still to be told that very state.
  lemma NothingLost(st: State, s: Session, q: Request)
    requires Inv(st) && Has(st, s, q)
    ensures s in st.loc && q in st.told
    ensures UpToDate(st, s, q)
    ensures s in st.notify ==> st.pipe > 0 || st.bfd.ToKick? || st.main.Drained?
  {
    assert UpToDate(st, s, q);
  }

  // When everything is quiet, all requests are at the latest state of their session.
  lemma Settled(st: State)
    requires Inv(st) && Quiet(st)
    ensures forall s, q :: Has(st, s, q) ==> s in st.loc && q in st.told && st.told[q] == st.loc[s]
  {
    forall s, q | Has(st, s, q) ensures s in st.loc && q in st.told && st.told[q] == st.loc[s] {
      assert UpToDate(st, s, q);
    }
  }

  // The threads' own steps, as opposed to changes of sessions and requests.
  predicate Internal(ev: Event) {
    !ev.UpdateState? && !ev.AddRequest? && !ev.FreeRequest?
  }

  // What is still to be done, the most remote first.
  function Rank(st: State): (nat, nat, nat, nat) {
    ((if st.adding.Some? then 1 else 0) + (if st.bfd.ToKick? then 1 else 0),
     (if st.pipe > 0 then 2 else 0) + (if st.main.Drained? then 1 else 0),
     |st.taken|,
     if st.main.Telling? then 2 + |st.main.rest| else if st.main.Taken? then 1 else 0)
  }

  predicate Less(a: (nat, nat, nat, nat), b: (nat, nat, nat, nat)) {
    a.0 < b.0 || (a.0 == b.0 && (a.1 < b.1 || (a.1 == b.1 && (a.2 < b.2 || (a.2 == b.2 && a.3 < b.3)))))
  }

  // Left alone, the threads always have a step until all is quiet, and every step brings that nearer.
  lemma Progress(st: State)
    requires Inv(st)
    ensures !Quiet(st) ==> exists ev :: Internal(ev) && Enabled(st, ev)
    ensures forall ev :: Internal(ev) && Enabled(st, ev) ==> Less(Rank(Apply(st, ev)), Rank(st))
  {
    if !Quiet(st) {
      var ev := if st.bfd.ToKick? then Kick else if st.adding.Some? then TellAdded else
        match st.main
        case MainIdle => HookStart
        case Drained => Take
        case Taken => if st.taken == [] then HookEnd else NextSession
        case Telling(_, _, rest) => if rest == [] then EndSession else Tell;
      if ev.NextSession? {
        assert Linked(st, st.taken[0]);
      }
      assert Internal(ev) && Enabled(st, ev);
    }
  }

  // So the threads settle: some run of their own steps ends with everything quiet and told.
  lemma {:induction false} Settles(st: State) returns (steps: seq<Event>, end: State)
    requires Inv(st)
    ensures Inv(end) && Quiet(end) && forall s, q :: Has(end, s, q) ==> s in end.loc && q in end.told && end.told[q] == end.loc[s]
    ensures (forall i :: 0 <= i < |steps| ==> Internal(steps[i])) && Reaches(st, steps, end)
    decreases Rank(st).0, Rank(st).1, Rank(st).2, Rank(st).3
  {
    hide Inv, Apply, Enabled;
    if Quiet(st) {
      Settled(st);
      steps, end := [], st;
    } else {
      Progress(st);
      var ev :| Internal(ev) && Enabled(st, ev);
      StepOk(st, ev);
      var rest;
      rest, end := Settles(Apply(st, ev));
      steps := [ev] + rest;
    }
  }

  predicate Reaches(st: State, steps: seq<Event>, end: State)
    decreases |steps|
  {
    if steps == [] then st == end else Enabled(st, steps[0]) && Reaches(Apply(st, steps[0]), steps[1..], end)
  }

  lemma {:induction false} ReachesOn(st: State, past: seq<Event>, mid: State, steps: seq<Event>, end: State)
    requires Reaches(st, past, mid) && Reaches(mid, steps, end)
    ensures Reaches(st, past + steps, end)
    decreases |past|
  {
    if past == [] {
      assert past + steps == steps;
    } else {
      ReachesOn(Apply(st, past[0]), past[1..], mid, steps, end);
      assert (past + steps)[1..] == past[1..] + steps;
    }
  }

  // The protocol as it starts: no sessions and nothing to do.
  const START := State(map[], map[], map[], [], [], 0, BfdIdle, MainIdle, None)

  lemma {:induction false} RunFrom(st: State, steps: seq<Event>, end: State)
    requires Inv(st) && Reaches(st, steps, end)
    ensures Inv(end)
    decreases |steps|
  {
    hide Inv, Apply, Enabled;
    if steps != [] {
      StepOk(st, steps[0]);
      RunFrom(Apply(st, steps[0]), steps[1..], end);
    }
  }

  // In every state of every run a request is up to date or pending, and what is pending will be taken.
  lemma RunOk(steps: seq<Event>, st: State)
    requires Reaches(START, steps, st)
    ensures Inv(st)
    ensures forall s, q :: Has(st, s, q) ==> s in st.loc && q in st.told && UpToDate(st, s, q)
    ensures st.notify != [] ==> st.pipe > 0 || st.bfd.ToKick? || st.main.Drained?
    ensures forall s :: s in st.loc ==> Given(steps, s) == Some(st.loc[s])
  {
    StatesAreGiven(steps, st);
    RunFrom(START, steps, st);
  }

  // The state that the events gave a session last: a created session is down.
  function Given(events: seq<Event>, s: Session): Option<SessionState> {
    if events == [] then None
    else
      var before := events[..|events| - 1];
      match events[|events| - 1]
      case UpdateState(t, state) => if t == s then Some(state) else Given(before, s)
      case AddRequest(_, t, created) => if t == s && created then Some(Down) else Given(before, s)
      case _ => Given(before, s)
  }

  ghost predicate AsGiven(events: seq<Event>, st: State) {
    forall s :: s in st.loc ==> Given(events, s) == Some(st.loc[s])
  }

  lemma GivenStep(past: seq<Event>, st: State, ev: Event)
    requires AsGiven(past, st) && Enabled(st, ev)
    ensures AsGiven(past + [ev], Apply(st, ev))
  {
    assert (past + [ev])[..|past|] == past;
  }

  lemma {:induction false} GivenRun(past: seq<Event>, st: State, steps: seq<Event>, end: State)
    requires AsGiven(past, st) && Reaches(st, steps, end)
    ensures AsGiven(past + steps, end)
    decreases |steps|
  {
    hide AsGiven, Apply, Enabled;
    if steps == [] {
      assert past + steps == past;
    } else {
      GivenStep(past, st, steps[0]);
      GivenRun(past + [steps[0]], Apply(st, steps[0]), steps[1..], end);
      assert past + [steps[0]] + steps[1..] == past + steps;
    }
  }

  lemma {:induction false} GivenOwn(past: seq<Event>, steps: seq<Event>, s: Session)
    requires forall i :: 0 <= i < |steps| ==> Internal(steps[i])
    ensures Given(past + steps, s) == Given(past, s)
    decreases |steps|
  {
    if steps == [] {
      assert past + steps == past;
    } else {
      var before := steps[..|steps| - 1];
      assert (past + steps)[..|past + steps| - 1] == past + before;
      GivenOwn(past, before, s);
    }
  }

  // Every live session has the state the events gave it last.
  lemma StatesAreGiven(past: seq<Event>, st: State)
    requires Reaches(START, past, st)
    ensures forall s :: s in st.loc ==> Given(past, s) == Some(st.loc[s])
  {
    GivenRun([], START, past, st);
    assert [] + past == past;
  }

  // Every run can go on to a quiet state in which all requests know the state that the
  // events gave their session last.
  lemma RunSettles(past: seq<Event>, st: State) returns (steps: seq<Event>, end: State)
    requires Reaches(START, past, st)
    ensures Reaches(START, past + steps, end) && forall i :: 0 <= i < |steps| ==> Internal(steps[i])
    ensures Quiet(end) && forall s, q :: Has(end, s, q) ==> s in end.loc && q in end.told && end.told[q] == end.loc[s]
    ensures forall s, q :: Has(end, s, q) ==> Given(past, s) == Some(end.told[q])
  {
    hide Inv;
    RunOk(past, st);
    steps, end := Settles(st);
    ReachesOn(START, past, st, steps, end);
    StatesAreGiven(past + steps, end);
    forall s ensures Given(past + steps, s) == Given(past, s) {
      GivenOwn(past, steps, s);
    }
  }

  /* ---------- The two threads' operations ---------- */

  class BfdProto {
    var loc: map<Session, SessionState>
    var requests: map<Session, seq<Request>>
    var told: map<Request, SessionState>
    var notifyList: seq<Session>
    var tmpList: seq<Session>
    var pipe: nat
    var bfd: BfdThread
    var main: MainThread
    var adding: Option<Adding>
    // what has happened since the start
    ghost var trace: seq<Event>

    function St(): State
      reads this
    {
      State(loc, requests, told, notifyList, tmpList, pipe, bfd, main, adding)
    }

    // The state is the last one of a run.
    ghost predicate Valid()
      reads this
    {
      Inv(St()) && Reaches(START, trace, St())
    }

    constructor ()
      ensures Valid() && St() == START && trace == []
    {
      loc, requests, told := map[], map[], map[];
      notifyList, tmpList, pipe := [], [], 0;
      bfd, main, adding, trace := BfdIdle, MainIdle, None, [];
    }

    // bfd_session_update_state, under the session lock
    method SetState(s: Session, state: SessionState)
      requires Valid() && bfd.BfdIdle? && s in loc
      modifies this
      ensures Valid() && St() == Apply(old(St()), UpdateState(s, state)) && trace == old(trace) + [UpdateState(s, state)]
      ensures loc == old(loc)[s := state] && requests == old(requests) && told == old(told)
    {
      hide Inv, Reaches;
      StepsOn(trace, St(), UpdateState(s, state));
      trace := trace + [UpdateState(s, state)];
      if state == loc[s] {
        return;
      }
      loc := loc[s := state];
      if s !in notifyList && s !in tmpList {
        notifyList := notifyList + [s];
        bfd := ToKick;
      }
    }

    // bfd_notify_kick
    method KickPipe()
      requires Valid() && bfd.ToKick?
      modifies this
      ensures Valid() && St() == Apply(old(St()), Kick) && trace == old(trace) + [Kick]
    {
      hide Inv, Reaches;
      StepsOn(trace, St(), Kick);
      trace := trace + [Kick];
      pipe, bfd := pipe + 1, BfdIdle;
    }

    // bfd_add_request up to the reading of the state, with bfd_add_session
    method AddRequestTo(q: Request, s: Session)
      requires Valid() && adding.None? && (main.MainIdle? || main.Telling?) && q !in told
      modifies this
      ensures Valid() && St() == Apply(old(St()), AddRequest(q, s, s !in old(loc)))
      ensures trace == old(trace) + [AddRequest(q, s, s !in old(loc))]
      ensures loc == if s in old(loc) then old(loc) else old(loc)[s := Down]
      ensures requests == old(requests)[s := (if s in old(loc) && s in old(requests) then old(requests)[s] else []) + [q]]
      ensures told == old(told)[q := AdminDown] && adding == Some(Adding(q, s, loc[s]))
    {
      hide Inv, Reaches;
      ghost var ev := AddRequest(q, s, s !in loc);
      StepsOn(trace, St(), ev);
      hide Added;
      LinkRequest(q, s);
      trace := trace + [ev];
    }

    method LinkRequest(q: Request, s: Session)
      modifies this`loc, this`requests, this`told, this`adding, this`main
      ensures St() == Added(old(St()), q, s)
    {
      if s !in loc {
        AddSession(s);
      }
      var list := if s in requests then requests[s] else [];
      requests := requests[s := list + [q]];
      told, adding := told[q := AdminDown], Some(Adding(q, s, loc[s]));
      if main.Telling? && main.s == s {
        main := main.(rest := main.rest + [q]);
      }
    }

    // bfd_add_session
    method AddSession(s: Session)
      modifies this`loc, this`requests
      ensures St() == old(St()).(loc := old(loc)[s := Down], requests := old(requests)[s := []])
    {
      loc, requests := loc[s := Down], requests[s := []];
    }

    // The rest of bfd_add_request
    method TellAddedRequest()
      requires Valid() && adding.Some?
      modifies this
      ensures Valid() && St() == Apply(old(St()), TellAdded) && trace == old(trace) + [TellAdded]
    {
      hide Inv, Reaches;
      StepsOn(trace, St(), TellAdded);
      trace := trace + [TellAdded];
      if adding.value.q in told {
        told := told[adding.value.q := adding.value.state];
      }
      adding := None;
    }

    // bfd_request_free
    method FreeRequestOf(q: Request, s: Session)
      requires Valid() && adding.None? && (main.MainIdle? || main.Telling?) && q in told && s in requests && q in requests[s]
      modifies this
      ensures Valid() && St() == Apply(old(St()), FreeRequest(q, s)) && trace == old(trace) + [FreeRequest(q, s)]
      ensures q !in told && told == old(told) - {q} && !Has(St(), s, q) && requests - {s} == old(requests) - {s}
      ensures forall p :: p != q && Has(old(St()), s, p) ==> Has(St(), s, p)
    {
      hide Inv, Reaches;
      StepsOn(trace, St(), FreeRequest(q, s));
      trace := trace + [FreeRequest(q, s)];
      requests, told := requests[s := Without(requests[s], q)], told - {q};
      var running := main.Telling? && main.s == s;
      if running {
        main := main.(rest := Without(main.rest, q));
      }
      if requests[s] == [] && !running {
        RemoveSession(s);
      }
    }

    // bfd_remove_session
    method RemoveSession(s: Session)
      modifies this`loc, this`requests, this`notifyList, this`tmpList
      ensures St() == Removed(old(St()), s)
    {
      loc, requests := loc - {s}, requests - {s};
      notifyList, tmpList := Without(notifyList, s), Without(tmpList, s);
    }

    // The first session of the hook's list, under the lock
    method ReadSession()
      requires Valid() && main.Taken? && tmpList != []
      modifies this
      ensures Enabled(old(St()), NextSession) && St() == Apply(old(St()), NextSession)
      ensures Valid() && trace == old(trace) + [NextSession]
    {
      FirstLive(St());
      hide Inv, Reaches;
      StepsOn(trace, St(), NextSession);
      trace := trace + [NextSession];
      var s := tmpList[0];
      tmpList, main := tmpList[1..], Telling(s, loc[s], requests[s]);
    }

    // bfd_request_notify for the next request of the session
    method TellRequest()
      requires Valid() && main.Telling? && adding.None? && main.rest != []
      modifies this
      ensures Valid() && St() == Apply(old(St()), Tell) && trace == old(trace) + [Tell]
      ensures old(main.rest[0]) in told ==> told[old(main.rest[0])] == old(main).state
    {
      hide Inv, Reaches;
      StepsOn(trace, St(), Tell);
      trace := trace + [Tell];
      var q := main.rest[0];
      told, main := if q in told then told[q := main.state] else told, main.(rest := main.rest[1..]);
    }

    // The session goes if it has no requests any more
    method LeaveSession()
      requires Valid() && main.Telling? && adding.None? && main.rest == []
      modifies this
      ensures Valid() && St() == Apply(old(St()), EndSession) && trace == old(trace) + [EndSession]
    {
      hide Inv, Reaches, Removed;
      StepsOn(trace, St(), EndSession);
      trace := trace + [EndSession];
      var s := main.s;
      main := Taken;
      if s in requests && requests[s] == [] {
        RemoveSession(s);
      }
    }

    // One section of the BFD thread or of a hook of a request, if it is possible now
    method Other(ev: Event)
      requires Valid() && Foreign(ev)
      modifies this
      ensures Valid() && SamePlace(old(St()), St(), 1) && (trace == old(trace) || trace == old(trace) + [ev])
    {
      hide Inv, Reaches;
      if Enabled(St(), ev) {
        ForeignStays(St(), ev);
        match ev
        case UpdateState(s, state) => SetState(s, state);
        case Kick => KickPipe();
        case AddRequest(q, s, _) => AddRequestTo(q, s);
        case TellAdded => TellAddedRequest();
        case FreeRequest(q, s) => FreeRequestOf(q, s);
      }
    }

    // Between two sections of the hook: the turn of the others, up to the return of the hooks of requests
    method Pause(plan: seq<seq<Event>>, turn: nat, ghost past: seq<Event>) returns (next: nat)
      requires Valid() && adding.None? && AllForeign(plan) && Since(past, trace, plan)
      modifies this
      ensures Valid() && adding.None? && Since(past, trace, plan)
      ensures Left(plan, next) <= Left(plan, turn) && SamePlace(old(St()), St(), Left(plan, turn) - Left(plan, next))
      ensures plan == [] ==> St() == old(St())
    {
      hide Inv, Reaches, Apply, Enabled, Since;
      if turn >= |plan| {
        return turn;
      }
      var evs := plan[turn];
      for i := 0 to |evs|
        invariant Valid() && SamePlace(old(St()), St(), i) && Since(past, trace, plan)
      {
        SinceOn(past, trace, evs[i], plan, turn);
        Other(evs[i]);
      }
      ghost var mid := St();
      if adding.Some? {
        AddingEnds(mid);
        SinceOn(past, trace, TellAdded, plan, turn);
        TellAddedRequest();
      }
      next := turn + 1;
    }

    // One session of the hook's list: its requests are told, and it goes if none is left
    method TellSession(plan: seq<seq<Event>>, turn: nat, ghost past: seq<Event>) returns (next: nat)
      requires Valid() && main.Taken? && adding.None? && tmpList != [] && AllForeign(plan) && Since(past, trace, plan)
      modifies this
      ensures Valid() && main.Taken? && adding.None? && |tmpList| < |old(tmpList)| && Since(past, trace, plan)
      ensures plan == [] ==> pipe == old(pipe) && bfd == old(bfd)
      ensures forall s, q :: Has(St(), s, q) && !Linked(St(), s) ==> s in loc && q in told && told[q] == loc[s]
      ensures old(tmpList)[0] in requests ==> requests[old(tmpList)[0]] != []
    {
      hide Inv, Reaches, AllForeign, Since, Left, Linked, Has;
      SinceOn(past, trace, NextSession, plan, turn);
      ghost var s := tmpList[0];
      ReadSession();
      next := Pause(plan, turn, past);
      while main.rest != []
        invariant Valid() && main.Telling? && adding.None? && |tmpList| < |old(tmpList)| && Since(past, trace, plan)
        invariant main.s == s && (plan == [] ==> pipe == old(pipe) && bfd == old(bfd))
        decreases |main.rest| + Left(plan, next)
      {
        SinceOn(past, trace, Tell, plan, turn);
        TellRequest();
        next := Pause(plan, next, past);
      }
      SinceOn(past, trace, EndSession, plan, turn);
      LeaveSession();
      next := Pause(plan, next, past);
      AllTold(St());
    }

    // bfd_notify_hook, with the turns the others take between its sections: whatever they do, every
    // request of a session that has not been linked again knows its state.
    method NotifyHook(plan: seq<seq<Event>>)
      requires Valid() && main.MainIdle? && adding.None? && pipe > 0 && AllForeign(plan)
      modifies this
      ensures Valid() && main.MainIdle? && adding.None? && Since(old(trace), trace, plan)
      ensures forall s, q :: Has(St(), s, q) && s !in notifyList ==> s in loc && q in told && told[q] == loc[s]
      ensures forall s, q :: Has(St(), s, q) && s !in notifyList ==> Given(trace, s) == Some(told[q])
      ensures plan == [] ==> OnlyTold(old(St()), St()) && (old(bfd).BfdIdle? ==> Quiet(St()))
    {
      ghost var was, past := St(), trace;
      assert Since(past, past, plan);
      hide Inv, Reaches, OnlyTold, AllForeign, Since, Left, Has, Quiet, Linked;
      TellLinked(plan, past);
      AllTold(St());
      StatesAreGiven(trace, St());
      if plan == [] {
        OwnSteps(past, was, trace, St(), plan);
      }
    }

    // The sections of the hook
    method TellLinked(plan: seq<seq<Event>>, ghost past: seq<Event>)
      requires Valid() && main.MainIdle? && adding.None? && pipe > 0 && AllForeign(plan) && Since(past, trace, plan)
      modifies this
      ensures Valid() && main.MainIdle? && adding.None? && Since(past, trace, plan)
      ensures plan == [] ==> pipe == 0 && bfd == old(bfd)
    {
      hide Inv, Reaches, AllForeign, Since, Left;
      SinceOn(past, trace, HookStart, plan, 0);
      DrainPipe();
      var turn := Pause(plan, 0, past);
      SinceOn(past, trace, Take, plan, 0);
      TakeList();
      turn := Pause(plan, turn, past);
      while tmpList != []
        invariant Valid() && main.Taken? && adding.None? && Since(past, trace, plan)
        invariant plan == [] ==> pipe == 0 && bfd == old(bfd)
        decreases |tmpList|
      {
        turn := TellSession(plan, turn, past);
      }
      SinceOn(past, trace, HookEnd, plan, 0);
      EndHook();
    }

    method DrainPipe()
      requires Valid() && main.MainIdle? && adding.None? && pipe > 0
      modifies this
      ensures Valid() && St() == Apply(old(St()), HookStart) && trace == old(trace) + [HookStart]
    {
      hide Inv, Reaches;
      StepsOn(trace, St(), HookStart);
      trace, pipe, main := trace + [HookStart], 0, Drained;
    }

    // The notify list is taken, under the lock
    method TakeList()
      requires Valid() && main.Drained?
      modifies this
      ensures Valid() && St() == Apply(old(St()), Take) && trace == old(trace) + [Take]
    {
      hide Inv, Reaches;
      StepsOn(trace, St(), Take);
      trace, tmpList, notifyList, main := trace + [Take], tmpList + notifyList, [], Taken;
    }

    method EndHook()
      requires Valid() && main.Taken? && tmpList == []
      modifies this
      ensures Valid() && St() == Apply(old(St()), HookEnd) && trace == old(trace) + [HookEnd]
    {
      hide Inv, Reaches;
      StepsOn(trace, St(), HookEnd);
      trace, main := trace + [HookEnd], MainIdle;
    }
  }

  /* ---------- Turns of the others ---------- */

  // Sections that are not the notify hook's own
  predicate Foreign(ev: Event) {
    ev.UpdateState? || ev.Kick? || ev.AddRequest? || ev.TellAdded? || ev.FreeRequest?
  }

  predicate AllForeign(plan: seq<seq<Event>>) {
    forall i, j :: 0 <= i < |plan| && 0 <= j < |plan[i]| ==> Foreign(plan[i][j])
  }

  predicate Planned(plan: seq<seq<Event>>, ev: Event) {
    exists i :: 0 <= i < |plan| && ev in plan[i]
  }

  // How many turns are left.
  function Left(plan: seq<seq<Event>>, turn: nat): nat
    decreases |plan| - turn
  {
    if turn >= |plan| then 0 else |plan[turn]| + Left(plan, turn + 1)
  }

  // Only the hook and the planned turns of the others have happened.
  predicate Since(past: seq<Event>, trace: seq<Event>, plan: seq<seq<Event>>) {
    past <= trace && forall i :: |past| <= i < |trace| ==> Internal(trace[i]) || Planned(plan, trace[i])
  }

  lemma SinceOn(past: seq<Event>, trace: seq<Event>, ev: Event, plan: seq<seq<Event>>, turn: nat)
    requires Since(past, trace, plan) && (Internal(ev) || (turn < |plan| && ev in plan[turn]))
    ensures Since(past, trace + [ev], plan)
  {
  }

  // After n turns of the others the hook is where it was, with at most n requests more to tell.
  predicate SamePlace(was: State, now: State, n: int) {
    |now.taken| <= |was.taken| &&
    if was.main.Telling? then now.main.Telling? && now.main.s == was.main.s && |now.main.rest| <= |was.main.rest| + n
    else now.main == was.main && (was.main.MainIdle? || (now.taken == was.taken && now.requests == was.requests))
  }

  lemma ForeignStays(st: State, ev: Event)
    requires Enabled(st, ev) && Foreign(ev)
    ensures SamePlace(st, Apply(st, ev), 1)
  {
  }

  lemma AddingEnds(st: State)
    requires st.adding.Some?
    ensures Enabled(st, TellAdded)
    ensures var t := Apply(st, TellAdded); t.main == st.main && t.taken == st.taken && t.requests == st.requests && t.adding.None?
  {
  }

  lemma StepsOn(past: seq<Event>, st: State, ev: Event)
    requires Reaches(START, past, st) && Inv(st) && Enabled(st, ev)
    ensures Reaches(START, past + [ev], Apply(st, ev)) && Inv(Apply(st, ev))
  {
    StepOk(st, ev);
    assert Reaches(Apply(st, ev), [], Apply(st, ev));
    assert Reaches(st, [ev], Apply(st, ev));
    ReachesOn(START, past, st, [ev], Apply(st, ev));
  }

  lemma FirstLive(st: State)
    requires Inv(st) && st.taken != []
    ensures st.taken[0] in st.loc && st.taken[0] in st.requests
  {
    assert Linked(st, st.taken[0]);
  }

  // While no session is being told, the requests of sessions that are not linked know the states.
  lemma AllTold(st: State)
    requires Inv(st) && !st.main.Telling? && st.adding.None?
    ensures forall s, q :: Has(st, s, q) && !Linked(st, s) ==> s in st.loc && q in st.told && st.told[q] == st.loc[s]
    ensures st.main.MainIdle? ==> forall s :: Linked(st, s) ==> s in st.notify
    ensures st.main.MainIdle? && st.pipe == 0 && st.bfd.BfdIdle? ==> Quiet(st)
  {
    forall s, q | Has(st, s, q) ensures s in st.loc && q in st.told && UpToDate(st, s, q) {
    }
  }

  // The threads' own steps change no session and no list of requests, but for sessions without requests.
  ghost predicate OnlyTold(was: State, now: State) {
    (forall s :: s in now.loc ==> s in was.loc && now.loc[s] == was.loc[s]) &&
    (forall s :: s in now.requests ==> s in was.requests && now.requests[s] == was.requests[s]) &&
    (forall s :: s in was.requests && was.requests[s] != [] && s in was.loc ==> s in now.requests && s in now.loc) &&
    now.told.Keys == was.told.Keys
  }

  lemma OwnStep(was: State, st: State, ev: Event)
    requires OnlyTold(was, st) && Enabled(st, ev) && Internal(ev)
    ensures OnlyTold(was, Apply(st, ev))
  {
  }

  lemma {:induction false} OwnRun(was: State, st: State, steps: seq<Event>, end: State)
    requires OnlyTold(was, st) && Reaches(st, steps, end) && forall i :: 0 <= i < |steps| ==> Internal(steps[i])
    ensures OnlyTold(was, end)
    decreases |steps|
  {
    hide OnlyTold, Enabled, Apply;
    if steps != [] {
      OwnStep(was, st, steps[0]);
      OwnRun(was, Apply(st, steps[0]), steps[1..], end);
    }
  }

  lemma {:induction false} ReachesRest(st: State, past: seq<Event>, mid: State, steps: seq<Event>, end: State)
    requires Reaches(st, past, mid) && Reaches(st, past + steps, end)
    ensures Reaches(mid, steps, end)
    decreases |past|
  {
    if past == [] {
      assert past + steps == steps;
    } else {
      assert (past + steps)[1..] == past[1..] + steps;
      ReachesRest(Apply(st, past[0]), past[1..], mid, steps, end);
    }
  }

  lemma OwnSteps(past: seq<Event>, was: State, trace: seq<Event>, now: State, plan: seq<seq<Event>>)
    requires Reaches(START, past, was) && Reaches(START, trace, now) && Since(past, trace, plan) && plan == []
    ensures OnlyTold(was, now)
  {
    var steps := trace[|past|..];
    assert trace == past + steps;
    hide Reaches;
    ReachesRest(START, past, was, steps, now);
    OwnRun(was, was, steps, now);
  }
}
