/**
 * Object locks (nest/locks.c): one list of holders, those to be told first, each with the locks
 * that wait for the same object.
 *
 * Main result: grants are first come, first served, with one holder per object, in every run of
 * acquisitions, releases and grants, whoever of the hooks makes them (FirstComeFirstServed).
 */
module Locks {

  import opened Lists

  // A lock and the object it identifies (type, interface, VRF, port, instance, address).
  datatype Lock = Lock(id: nat, obj: nat)

  // A holder: LOCKED once told, EVENT before.
  datatype Entry = Entry(holder: Lock, locked: bool, waiters: seq<Lock>)

  datatype State = State(list: seq<Entry>, scheduled: bool)

  function FindFrom(list: seq<Entry>, obj: nat, i: nat): (r: nat)
    requires i <= |list|
    ensures i <= r <= |list| && (r < |list| ==> list[r].holder.obj == obj)
    ensures forall j :: i <= j < r ==> list[j].holder.obj != obj
    decreases |list| - i
  {
    if i == |list| || list[i].holder.obj == obj then i else FindFrom(list, obj, i + 1)
  }

  // The holder of an object and those waiting for it, in order.
  function Queue(list: seq<Entry>, obj: nat): seq<Lock> {
    var i := FindFrom(list, obj, 0);
    if i < |list| then [list[i].holder] + list[i].waiters else []
  }

  /* ---------- The operations ---------- */

  // olock_acquire
  function Acquired(s: State, l: Lock): State {
    var i := FindFrom(s.list, l.obj, 0);
    if i < |s.list| then s.(list := s.list[i := s.list[i].(waiters := s.list[i].waiters + [l])])
    else State([Entry(l, false, [])] + s.list, true)
  }

  // olock_free: the first waiter takes the place of a freed holder
  function Freed(s: State, l: Lock): State {
    var i := FindFrom(s.list, l.obj, 0);
    if i == |s.list| then s
    else if s.list[i].holder == l then
      var w := s.list[i].waiters;
      if w == [] then s.(list := RemoveAt(s.list, i))
      else State([Entry(w[0], false, w[1..])] + RemoveAt(s.list, i), true)
    else s.(list := s.list[i := s.list[i].(waiters := Without(s.list[i].waiters, l))])
  }

  // One round of olock_run_event up to the call of the hook: the first holder that has not been
  // told becomes LOCKED and goes to the end of the list; without one the event is over
  function Granted(s: State): State {
    if s.list == [] || s.list[0].locked then s.(scheduled := false)
    else s.(list := s.list[1..] + [s.list[0].(locked := true)])
  }

  /* ---------- What always holds ---------- */

  predicate OneHolder(list: seq<Entry>) {
    forall i, j :: 0 <= i < j < |list| ==> list[i].holder.obj != list[j].holder.obj
  }

  // EVENT entries come before LOCKED ones.
  predicate EventsFirst(list: seq<Entry>) {
    forall i, j :: 0 <= i < j < |list| && list[i].locked ==> list[j].locked
  }

  // Everybody waits behind the holder of the object it wants, and is in the queue once.
  predicate QueuesOk(list: seq<Entry>) {
    forall i :: 0 <= i < |list| ==> QueueOk(list[i])
  }

  predicate QueueOk(e: Entry) {
    e.holder !in e.waiters && Distinct(e.waiters) && forall k :: 0 <= k < |e.waiters| ==> e.waiters[k].obj == e.holder.obj
  }

  // A holder that has not been told will be: the event is due.
  predicate EventDue(s: State) {
    s.list != [] && !s.list[0].locked ==> s.scheduled
  }

  predicate Ok(s: State) {
    OneHolder(s.list) && EventsFirst(s.list) && QueuesOk(s.list) && EventDue(s)
  }

  // The lock has been told that it is the holder.
  predicate IsLocked(s: State, l: Lock) {
    var i := FindFrom(s.list, l.obj, 0);
    i < |s.list| && s.list[i].holder == l && s.list[i].locked
  }

  lemma FindIs(list: seq<Entry>, obj: nat, i: nat)
    requires i <= |list| && (forall j :: 0 <= j < i ==> list[j].holder.obj != obj) && (i < |list| ==> list[i].holder.obj == obj)
    ensures FindFrom(list, obj, 0) == i
  {
  }

  /* ---------- Queues seen through the entries ---------- */

  function Row(e: Entry): seq<Lock> {
    [e.holder] + e.waiters
  }

  // The entry of an object, if any: nothing else matters for its queue.
  lemma QueueOf(list: seq<Entry>, e: Entry)
    requires OneHolder(list) && e in list
    ensures Queue(list, e.holder.obj) == Row(e)
    ensures FindFrom(list, e.holder.obj, 0) < |list| && list[FindFrom(list, e.holder.obj, 0)] == e
  {
    var i :| 0 <= i < |list| && list[i] == e;
    FindIs(list, e.holder.obj, i);
  }

  lemma NoQueue(list: seq<Entry>, obj: nat)
    requires forall e :: e in list ==> e.holder.obj != obj
    ensures Queue(list, obj) == [] && FindFrom(list, obj, 0) == |list|
  {
  }

  // Lists with the same entry for an object agree on it.
  lemma SameEntry(a: State, b: State, obj: nat)
    requires OneHolder(a.list) && OneHolder(b.list)
    requires forall e: Entry :: e.holder.obj == obj ==> (e in a.list <==> e in b.list)
    ensures Queue(a.list, obj) == Queue(b.list, obj)
    ensures forall l: Lock :: l.obj == obj ==> (IsLocked(a, l) <==> IsLocked(b, l))
  {
    hide OneHolder;
    var i := FindFrom(a.list, obj, 0);
    if i < |a.list| {
      QueueOf(a.list, a.list[i]);
      QueueOf(b.list, a.list[i]);
    } else {
      forall e | e in b.list ensures e.holder.obj != obj {
        assert e.holder.obj == obj ==> e in a.list;
      }
      NoQueue(b.list, obj);
    }
  }

  /* ---------- The operations keep it ---------- */

  // Changing the entry of an object.
  lemma PutEntry(list: seq<Entry>, i: nat, e: Entry)
    requires OneHolder(list) && i < |list| && e.holder.obj == list[i].holder.obj
    ensures OneHolder(list[i := e]) && (EventsFirst(list) && e.locked == list[i].locked ==> EventsFirst(list[i := e]))
    ensures QueuesOk(list) && QueueOk(e) ==> QueuesOk(list[i := e])
    ensures forall x: Entry :: x.holder.obj != e.holder.obj ==> (x in list <==> x in list[i := e])
  {
    hide QueueOk;
    forall x: Entry | x.holder.obj != e.holder.obj && x in list ensures x in list[i := e] {
      var j :| 0 <= j < |list| && list[j] == x;
      assert list[i := e][j] == x;
    }
  }

  lemma AddEntry(list: seq<Entry>, e: Entry)
    requires OneHolder(list) && (forall x :: x in list ==> x.holder.obj != e.holder.obj) && !e.locked
    ensures OneHolder([e] + list) && (EventsFirst(list) ==> EventsFirst([e] + list))
    ensures QueuesOk(list) && QueueOk(e) ==> QueuesOk([e] + list)
    ensures forall x: Entry :: x.holder.obj != e.holder.obj ==> (x in list <==> x in [e] + list)
  {
    hide QueueOk;
  }

  lemma NotFound(list: seq<Entry>, obj: nat)
    requires FindFrom(list, obj, 0) == |list|
    ensures forall x :: x in list ==> x.holder.obj != obj
  {
  }

  lemma AcquireList(s: State, l: Lock)
    requires Ok(s) && l !in Queue(s.list, l.obj)
    ensures Ok(Acquired(s, l)) && forall e: Entry :: e.holder.obj != l.obj ==> (e in s.list <==> e in Acquired(s, l).list)
  {
    hide OneHolder, EventsFirst;
    var i := FindFrom(s.list, l.obj, 0);
    if i < |s.list| {
      assert QueueOk(s.list[i]);
      assert QueueOk(s.list[i].(waiters := s.list[i].waiters + [l]));
      PutEntry(s.list, i, s.list[i].(waiters := s.list[i].waiters + [l]));
    } else {
      NotFound(s.list, l.obj);
      AddEntry(s.list, Entry(l, false, []));
    }
  }

  lemma AcquireQueue(s: State, l: Lock)
    requires Ok(s) && l !in Queue(s.list, l.obj)
    ensures Queue(Acquired(s, l).list, l.obj) == Queue(s.list, l.obj) + [l]
    ensures !IsLocked(s, l) && forall q: Lock :: q.obj == l.obj ==> (IsLocked(Acquired(s, l), q) <==> IsLocked(s, q))
  {
    AcquireList(s, l);
    var t := Acquired(s, l);
    var i := FindFrom(s.list, l.obj, 0);
    if i < |s.list| {
      FindIs(t.list, l.obj, i);
    } else {
      FindIs(t.list, l.obj, 0);
    }
  }

  lemma AcquireOk(s: State, l: Lock)
    requires Ok(s) && l !in Queue(s.list, l.obj)
    ensures var t := Acquired(s, l);
      Ok(t) && (forall q :: IsLocked(t, q) <==> IsLocked(s, q)) &&
      forall obj :: Queue(t.list, obj) == if obj == l.obj then Queue(s.list, obj) + [l] else Queue(s.list, obj)
  {
    AcquireList(s, l);
    AcquireQueue(s, l);
    var t := Acquired(s, l);
    forall obj | obj != l.obj
      ensures Queue(t.list, obj) == Queue(s.list, obj) && forall q: Lock :: q.obj == obj ==> (IsLocked(s, q) <==> IsLocked(t, q))
    {
      SameEntry(s, t, obj);
    }
    hide IsLocked;
  }

  lemma RemoveMembers(list: seq<Entry>, i: nat)
    requires OneHolder(list) && i < |list|
    ensures OneHolder(RemoveAt(list, i)) && (forall e :: e in RemoveAt(list, i) <==> e in list && e.holder.obj != list[i].holder.obj)
    ensures EventsFirst(list) ==> EventsFirst(RemoveAt(list, i))
  {
    var r := RemoveAt(list, i);
    forall j | 0 <= j < |r| ensures r[j] == list[if j < i then j else j + 1] {
    }
    forall e | e in list && e.holder.obj != list[i].holder.obj ensures e in r {
      var j :| 0 <= j < |list| && list[j] == e;
      assert r[if j < i then j else j - 1] == e;
    }
  }

  // The freed list, by whether the holder goes and whether somebody waits.
  lemma FreeList(s: State, l: Lock)
    requires Ok(s) && l in Queue(s.list, l.obj)
    ensures Ok(Freed(s, l))
    ensures forall e: Entry :: e.holder.obj != l.obj ==> (e in s.list <==> e in Freed(s, l).list)
  {
    hide OneHolder, EventsFirst, Without, RemoveAt;
    var i := FindFrom(s.list, l.obj, 0);
    var e := s.list[i];
    assert QueueOk(e);
    if e.holder == l {
      RemoveMembers(s.list, i);
      var r := RemoveAt(s.list, i);
      RestQueues(s.list, r);
      if e.waiters != [] {
        NextOk(e);
        AddEntry(r, Entry(e.waiters[0], false, e.waiters[1..]));
      } else {
        RestDue(s, i);
      }
    } else {
      WithoutDistinct(e.waiters, l);
      assert forall k :: 0 <= k < |Without(e.waiters, l)| ==> Without(e.waiters, l)[k] in e.waiters;
      PutEntry(s.list, i, e.(waiters := Without(e.waiters, l)));
    }
  }

  lemma RestQueues(list: seq<Entry>, r: seq<Entry>)
    requires QueuesOk(list) && forall e :: e in r ==> e in list
    ensures QueuesOk(r)
  {
    forall i | 0 <= i < |r| ensures QueueOk(r[i]) {
      assert r[i] in list;
    }
  }

  lemma RestDue(s: State, i: nat)
    requires EventsFirst(s.list) && EventDue(s) && i < |s.list|
    ensures EventDue(s.(list := RemoveAt(s.list, i)))
  {
    var r := RemoveAt(s.list, i);
    if r != [] {
      assert r[0] == s.list[if i == 0 then 1 else 0];
    }
  }

  // The first waiter takes the others over.
  lemma NextOk(e: Entry)
    requires QueueOk(e) && e.waiters != []
    ensures QueueOk(Entry(e.waiters[0], false, e.waiters[1..]))
  {
    forall k | 0 <= k < |e.waiters[1..]| ensures e.waiters[1..][k] != e.waiters[0] {
      assert e.waiters[1..][k] == e.waiters[k + 1];
    }
  }

  lemma FreeQueue(s: State, l: Lock)
    requires Ok(s) && l in Queue(s.list, l.obj)
    ensures Queue(Freed(s, l).list, l.obj) == Without(Queue(s.list, l.obj), l)
    ensures forall q: Lock :: q.obj == l.obj ==> (IsLocked(Freed(s, l), q) <==> IsLocked(s, q) && q != l)
  {
    FreeList(s, l);
    var t := Freed(s, l);
    var i := FindFrom(s.list, l.obj, 0);
    var e := s.list[i];
    assert QueueOk(e);
    WithoutNone(e.waiters, l);
    assert Row(e)[1..] == e.waiters;
    hide OneHolder, EventsFirst, QueuesOk;
    if e.holder == l {
      if e.waiters != [] {
        FindIs(t.list, l.obj, 0);
        assert Row(t.list[0]) == e.waiters;
      } else {
        RemoveMembers(s.list, i);
        NoQueue(t.list, l.obj);
      }
    } else {
      FindIs(t.list, l.obj, i);
    }
  }

  lemma FreeOk(s: State, l: Lock)
    requires Ok(s) && l in Queue(s.list, l.obj)
    ensures var t := Freed(s, l);
      Ok(t) && (forall q :: IsLocked(t, q) <==> IsLocked(s, q) && q != l) &&
      forall obj :: Queue(t.list, obj) == if obj == l.obj then Without(Queue(s.list, obj), l) else Queue(s.list, obj)
  {
    FreeList(s, l);
    FreeQueue(s, l);
    var t := Freed(s, l);
    forall obj | obj != l.obj
      ensures Queue(t.list, obj) == Queue(s.list, obj) && forall q: Lock :: q.obj == obj ==> (IsLocked(s, q) <==> IsLocked(t, q))
    {
      SameEntry(s, t, obj);
    }
    hide IsLocked, Freed, Queue;
  }

  lemma GrantList(s: State)
    requires Ok(s)
    ensures Ok(Granted(s)) && (forall e: Entry :: e in s.list && e != s.list[0] ==> e in Granted(s).list)
  {
    if s.list != [] && !s.list[0].locked {
      var t := Granted(s).list;
      forall i | 0 <= i < |t| ensures t[i] == if i < |s.list| - 1 then s.list[i + 1] else s.list[0].(locked := true) {
      }
      forall e | e in s.list && e != s.list[0] ensures e in t {
        var i :| 0 <= i < |s.list| && s.list[i] == e;
        assert t[i - 1] == e;
      }
    }
  }

  // Granting changes nobody's place; the one granted is the holder at the head.
  lemma GrantOk(s: State)
    requires Ok(s)
    ensures var t := Granted(s);
      Ok(t) && (forall obj :: Queue(t.list, obj) == Queue(s.list, obj)) &&
      forall q :: IsLocked(t, q) <==> IsLocked(s, q) || (s.list != [] && q == s.list[0].holder)
  {
    GrantList(s);
    if s.list != [] && !s.list[0].locked {
      var t, h := Granted(s), s.list[0];
      assert t.list[|t.list| - 1] == h.(locked := true);
      QueueOf(s.list, h);
      QueueOf(t.list, h.(locked := true));
      forall obj | obj != h.holder.obj ensures Queue(t.list, obj) == Queue(s.list, obj) {
        SameEntry(s, t, obj);
      }
      forall q ensures IsLocked(t, q) <==> IsLocked(s, q) || q == h.holder {
        if q.obj != h.holder.obj {
          SameEntry(s, t, q.obj);
        }
      }
    } else if s.list != [] {
      FindIs(s.list, s.list[0].holder.obj, 0);
    }
  }

  /* ---------- Runs ---------- */

  datatype Event = Acquire(l: Lock) | Free(l: Lock) | Grant

  // A lock is acquired once until it is freed.
  predicate Enabled(s: State, ev: Event) {
    match ev
    case Acquire(l) => l !in Queue(s.list, l.obj)
    case Free(l) => l in Queue(s.list, l.obj)
    case Grant => true
  }

  function Apply(s: State, ev: Event): State {
    match ev
    case Acquire(l) => Acquired(s, l)
    case Free(l) => Freed(s, l)
    case Grant => Granted(s)
  }

  ghost predicate Run(states: seq<State>, events: seq<Event>) {
    |states| == |events| + 1 && states[0] == State([], false) &&
    forall i :: 0 <= i < |events| ==> Enabled(states[i], events[i]) && states[i + 1] == Apply(states[i], events[i])
  }

  lemma StepOk(s: State, ev: Event)
    requires Ok(s) && Enabled(s, ev)
    ensures Ok(Apply(s, ev))
  {
    hide Ok;
    match ev
    case Acquire(l) => AcquireOk(s, l);
    case Free(l) => FreeOk(s, l);
    case Grant => GrantOk(s);
  }

  lemma {:induction false} RunOk(states: seq<State>, events: seq<Event>, k: nat)
    requires Run(states, events) && k < |states|
    ensures Ok(states[k]) && forall a, b :: IsLocked(states[k], a) && IsLocked(states[k], b) && a.obj == b.obj ==> a == b
  {
    if k > 0 {
      RunOk(states, events, k - 1);
      StepOk(states[k - 1], events[k - 1]);
    }
  }

  // a asked for the object before b.
  predicate Before(q: seq<Lock>, a: Lock, b: Lock) {
    exists i, j :: 0 <= i < j < |q| && q[i] == a && q[j] == b
  }

  lemma {:induction false} WithoutBefore(q: seq<Lock>, x: Lock, a: Lock, b: Lock)
    requires Before(q, a, b) && x != a && x != b
    ensures Before(Without(q, x), a, b)
  {
    var i, j :| 0 <= i < j < |q| && q[i] == a && q[j] == b;
    var w := Without(q[1..], x);
    if i == 0 {
      assert q[1..][j - 1] == b;
      assert b in q[1..] && b in w;
      var k :| 0 <= k < |w| && w[k] == b;
      assert Without(q, x)[0] == a && Without(q, x)[k + 1] == b;
    } else {
      assert q[1..][i - 1] == a && q[1..][j - 1] == b;
      WithoutBefore(q[1..], x, a, b);
      var m, n :| 0 <= m < n < |w| && w[m] == a && w[n] == b;
      var d := if q[0] == x then 0 else 1;
      assert Without(q, x)[m + d] == a && Without(q, x)[n + d] == b;
    }
  }

  lemma BeforeStep(s: State, ev: Event, a: Lock, b: Lock)
    requires Ok(s) && Enabled(s, ev) && a.obj == b.obj && Before(Queue(s.list, a.obj), a, b)
    requires ev != Free(a) && ev != Free(b)
    ensures Before(Queue(Apply(s, ev).list, a.obj), a, b)
  {
    hide Ok, Queue, Acquired, Freed, Granted;
    var q := Queue(s.list, a.obj);
    match ev
    case Acquire(l) =>
      AcquireOk(s, l);
      var i, j :| 0 <= i < j < |q| && q[i] == a && q[j] == b;
      assert (q + [l])[i] == a && (q + [l])[j] == b;
    case Free(l) =>
      FreeOk(s, l);
      if l.obj == a.obj {
        WithoutBefore(q, l, a, b);
      }
    case Grant => GrantOk(s);
  }

  // Only the head of a queue has been told, and it is there once.
  lemma LockedIsHead(s: State, a: Lock, b: Lock)
    requires Ok(s) && a.obj == b.obj && Before(Queue(s.list, a.obj), a, b)
    ensures !IsLocked(s, b)
  {
    var i := FindFrom(s.list, a.obj, 0);
    assert QueueOk(s.list[i]);
    var q := Queue(s.list, a.obj);
    var m, n :| 0 <= m < n < |q| && q[m] == a && q[n] == b;
    assert q[n] == s.list[i].waiters[n - 1];
  }

  // Who asked first is served first: b stays behind a, and is not granted, until one of them is freed.
  lemma {:induction false} FirstComeFirstServed(states: seq<State>, events: seq<Event>, k: nat, m: nat, a: Lock, b: Lock)
    requires Run(states, events) && k <= m < |states| && a.obj == b.obj && Before(Queue(states[k].list, a.obj), a, b)
    requires forall i :: k <= i < m ==> events[i] != Free(a) && events[i] != Free(b)
    ensures Ok(states[m]) && Before(Queue(states[m].list, a.obj), a, b) && !IsLocked(states[m], b)
    decreases m - k
  {
    hide Ok, Queue, IsLocked, Before, Apply;
    RunOk(states, events, m);
    if k < m {
      FirstComeFirstServed(states, events, k, m - 1, a, b);
      BeforeStep(states[m - 1], events[m - 1], a, b);
    }
    LockedIsHead(states[m], a, b);
  }

  // With nothing left to grant, the head of every queue holds its object.
  lemma AllGranted(s: State, obj: nat)
    requires Ok(s) && !s.scheduled && Queue(s.list, obj) != []
    ensures IsLocked(s, Queue(s.list, obj)[0])
  {
    var i := FindFrom(s.list, obj, 0);
    assert s.list[0].locked;
    assert s.list[i].locked;
  }

  /* ---------- The lock manager ---------- */

  class LockManager {
    var list: seq<Entry>
    // olock_event is scheduled
    var scheduled: bool
    // the run so far
    ghost var states: seq<State>
    ghost var events: seq<Event>

    function St(): State
      reads this`list, this`scheduled
    {
      State(list, scheduled)
    }

    // The state is the last one of a run.
    ghost predicate Valid()
      reads this
    {
      Ok(St()) && Run(states, events) && states[|events|] == St()
    }

    constructor ()
      ensures Valid() && St() == State([], false) && events == []
    {
      list, scheduled := [], false;
      states, events := [State([], false)], [];
    }

    // Notes an event before it happens.
    ghost method Record(ev: Event)
      requires Valid() && Enabled(St(), ev)
      modifies this`states, this`events
      ensures Run(states, events) && states[|events|] == Apply(St(), ev) && Ok(Apply(St(), ev))
      ensures events == old(events) + [ev] && states == old(states) + [Apply(St(), ev)]
    {
      StepOk(St(), ev);
      RunOn(states, events, ev);
      states, events := states + [Apply(St(), ev)], events + [ev];
    }

    // Index of the holder of an object, or the length of the list.
    method FindHolder(obj: nat) returns (i: nat)
      ensures i == FindFrom(list, obj, 0)
    {
      i := 0;
      while i < |list| && list[i].holder.obj != obj
        invariant 0 <= i <= |list| && forall j :: 0 <= j < i ==> list[j].holder.obj != obj
      {
        i := i + 1;
      }
      FindIs(list, obj, i);
    }

    // olock_acquire
    method Acquire(l: Lock)
      requires Valid() && l !in Queue(list, l.obj)
      modifies this
      ensures Valid() && St() == Acquired(old(St()), l) && events == old(events) + [Event.Acquire(l)]
      ensures Queue(list, l.obj) == old(Queue(list, l.obj)) + [l]
    {
      AcquireOk(St(), l);
      hide Ok, Run, Queue, IsLocked;
      Record(Event.Acquire(l));
      var i := FindHolder(l.obj);
      if i < |list| {
        list := list[i := list[i].(waiters := list[i].waiters + [l])];
      } else {
        list, scheduled := [Entry(l, false, [])] + list, true;
      }
    }

    // olock_free
    method Free(l: Lock)
      requires Valid() && l in Queue(list, l.obj)
      modifies this
      ensures Valid() && St() == Freed(old(St()), l) && events == old(events) + [Event.Free(l)]
      ensures Queue(list, l.obj) == Without(old(Queue(list, l.obj)), l)
    {
      FreeOk(St(), l);
      Queued(list, l);
      hide Ok, Run, Queue, IsLocked;
      Record(Event.Free(l));
      var i := FindHolder(l.obj);
      var e := list[i];
      if e.holder == l {
        list := list[..i] + list[i + 1..];
        if e.waiters != [] {
          list, scheduled := [Entry(e.waiters[0], false, e.waiters[1..])] + list, true;
        }
      } else {
        list := list[i := e.(waiters := Without(e.waiters, l))];
      }
    }

    // One round of olock_run_event up to the hook
    method GrantHead()
      requires Valid() && list != [] && !list[0].locked
      modifies this
      ensures Valid() && St() == Granted(old(St())) && events == old(events) + [Grant]
      ensures Waiting(list) < Waiting(old(list)) && forall obj :: Queue(list, obj) == old(Queue(list, obj))
    {
      GrantOk(St());
      OneLess(list);
      hide Ok, Run, Queue, IsLocked, Waiting;
      Record(Grant);
      list := list[1..] + [list[0].(locked := true)];
    }

    // The hook of a lock that has been granted: it may acquire and free locks; what is not possible
    // does not happen.
    method RunHook(evs: seq<Event>)
      requires Valid() && forall i :: 0 <= i < |evs| ==> !evs[i].Grant?
      modifies this
      ensures Valid() && Waiting(list) <= Waiting(old(list)) + |evs| && Since(old(events), events, [evs])
      ensures evs == [] ==> St() == old(St())
    {
      hide Ok, Run, Queue, IsLocked, Waiting, Acquired, Freed;
      for i := 0 to |evs|
        invariant Valid() && Waiting(list) <= Waiting(old(list)) + i && Since(old(events), events, [evs])
        invariant i == 0 ==> St() == old(St())
      {
        assert evs[i] in [evs][0];
        match evs[i]
        case Acquire(l) =>
          if l !in Queue(list, l.obj) {
            AcquireWaiting(St(), l);
            Acquire(l);
          }
        case Free(l) =>
          if l in Queue(list, l.obj) {
            FreeWaiting(St(), l);
            Free(l);
          }
      }
    }

    // olock_run_event: after every grant the hook of the lock takes its turn. Nobody overtakes, for the
    // run goes on, and in the end every head has been granted.
    method RunEvent(hooks: seq<seq<Event>>)
      requires Valid() && forall i, j :: 0 <= i < |hooks| && 0 <= j < |hooks[i]| ==> !hooks[i][j].Grant?
      modifies this
      ensures Valid() && !scheduled && Since(old(events), events, hooks)
      ensures forall obj :: Queue(list, obj) != [] ==> IsLocked(St(), Queue(list, obj)[0])
      ensures hooks == [] ==> forall obj :: Queue(list, obj) == old(Queue(list, obj))
    {
      hide Queue, IsLocked, Ok, Run, Waiting;
      var turn := 0;
      while list != [] && !list[0].locked
        invariant Valid() && Since(old(events), events, hooks)
        invariant hooks == [] ==> forall obj :: Queue(list, obj) == old(Queue(list, obj))
        decreases Waiting(list) + Left(hooks, turn)
      {
        GrantHead();
        if turn < |hooks| {
          ghost var mid := events;
          RunHook(hooks[turn]);
          SinceMore(old(events), mid, events, hooks, turn);
          turn := turn + 1;
        }
      }
      GrantOk(St());
      Record(Grant);
      scheduled := false;
      forall obj | Queue(list, obj) != [] ensures IsLocked(St(), Queue(list, obj)[0]) {
        AllGranted(St(), obj);
      }
    }
  }

  lemma Queued(list: seq<Entry>, l: Lock)
    requires l in Queue(list, l.obj)
    ensures FindFrom(list, l.obj, 0) < |list|
  {
  }

  lemma RunOn(states: seq<State>, events: seq<Event>, ev: Event)
    requires Run(states, events) && Enabled(states[|events|], ev)
    ensures Run(states + [Apply(states[|events|], ev)], events + [ev])
  {
    hide Enabled, Apply;
    var states', events' := states + [Apply(states[|events|], ev)], events + [ev];
    forall i | 0 <= i < |events'| ensures Enabled(states'[i], events'[i]) && states'[i + 1] == Apply(states'[i], events'[i]) {
      if i < |events| {
        assert states'[i] == states[i] && events'[i] == events[i] && states'[i + 1] == states[i + 1];
      }
    }
  }

  // Only grants and what the hooks do have happened.
  ghost predicate Since(past: seq<Event>, events: seq<Event>, hooks: seq<seq<Event>>) {
    past <= events && forall i :: |past| <= i < |events| ==> events[i].Grant? || exists k :: 0 <= k < |hooks| && events[i] in hooks[k]
  }

  lemma SinceMore(past: seq<Event>, mid: seq<Event>, events: seq<Event>, hooks: seq<seq<Event>>, turn: nat)
    requires Since(past, mid, hooks) && turn < |hooks| && Since(mid, events, [hooks[turn]])
    ensures Since(past, events, hooks)
  {
  }

  function Left(hooks: seq<seq<Event>>, turn: nat): nat
    decreases |hooks| - turn
  {
    if turn >= |hooks| then 0 else |hooks[turn]| + Left(hooks, turn + 1)
  }

  // Holders still to be told.
  function Waiting(list: seq<Entry>): nat {
    if list == [] then 0 else (if list[0].locked then 0 else 1) + Waiting(list[1..])
  }

  lemma {:induction false} WaitingConcat(a: seq<Entry>, b: seq<Entry>)
    ensures Waiting(a + b) == Waiting(a) + Waiting(b)
  {
    if a == [] {
      assert a + b == b;
    } else {
      assert (a + b)[1..] == a[1..] + b;
      WaitingConcat(a[1..], b);
    }
  }

  lemma WaitingOne(e: Entry)
    ensures Waiting([e]) == if e.locked then 0 else 1
  {
    assert [e][1..] == [];
  }

  lemma OneLess(list: seq<Entry>)
    requires list != [] && !list[0].locked
    ensures Waiting(list[1..] + [list[0].(locked := true)]) < Waiting(list)
  {
    WaitingConcat(list[1..], [list[0].(locked := true)]);
    WaitingOne(list[0].(locked := true));
  }

  lemma WaitingAround(list: seq<Entry>, i: nat)
    requires i < |list|
    ensures Waiting(list) == Waiting(list[..i]) + Waiting([list[i]]) + Waiting(list[i + 1..])
    ensures Waiting(RemoveAt(list, i)) == Waiting(list[..i]) + Waiting(list[i + 1..])
    ensures forall e :: Waiting(list[i := e]) == Waiting(list[..i]) + Waiting([e]) + Waiting(list[i + 1..])
  {
    hide Waiting;
    assert list == list[..i] + [list[i]] + list[i + 1..];
    WaitingConcat(list[..i] + [list[i]], list[i + 1..]);
    WaitingConcat(list[..i], [list[i]]);
    WaitingConcat(list[..i], list[i + 1..]);
    forall e ensures Waiting(list[i := e]) == Waiting(list[..i]) + Waiting([e]) + Waiting(list[i + 1..]) {
      assert list[i := e] == list[..i] + [e] + list[i + 1..];
      WaitingConcat(list[..i] + [e], list[i + 1..]);
      WaitingConcat(list[..i], [e]);
    }
  }

  lemma AcquireWaiting(s: State, l: Lock)
    ensures Waiting(Acquired(s, l).list) <= Waiting(s.list) + 1
  {
    var i := FindFrom(s.list, l.obj, 0);
    if i < |s.list| {
      WaitingAround(s.list, i);
      WaitingOne(s.list[i]);
      WaitingOne(s.list[i].(waiters := s.list[i].waiters + [l]));
    }
  }

  lemma FreeWaiting(s: State, l: Lock)
    ensures Waiting(Freed(s, l).list) <= Waiting(s.list) + 1
  {
    var i := FindFrom(s.list, l.obj, 0);
    if i < |s.list| {
      WaitingAround(s.list, i);
      WaitingOne(s.list[i]);
      WaitingOne(s.list[i].(waiters := Without(s.list[i].waiters, l)));
    }
  }
}
