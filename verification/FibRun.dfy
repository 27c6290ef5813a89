/**
 * The forwarding table together with the walks over it: every operation of the table is a step of
 * the walks, so what holds in all runs of walks (FibWalk.dfy) holds of the table.
 */
module FibRun {

  import opened Addr
  import opened Fib
  import opened FibTable
  import opened FibWalk
  import opened Options

  class WalkedTable {
    const fib: ForwardingTable
    // the run of the walks so far
    ghost var states: seq<State>
    ghost var events: seq<Event>

    ghost function Now(): State
      reads this`states
    {
      if states == [] then State({}, map[]) else states[|states| - 1]
    }

    // The walks are at the entries of the table and wait where its iterators wait.
    ghost predicate Valid()
      reads this, fib
    {
      fib.Valid() && Run(states, events) && Now().uids == Uids(Flat(fib.table)) && Waiting(Now()) == fib.home
    }

    constructor (hash: Hash, hashOrder: nat)
      requires hashOrder <= HI_MAX
      ensures Valid() && fresh(fib) && fib.ipaHash == hash && Now() == State({}, map[]) && events == []
    {
      fib := new ForwardingTable(hash, hashOrder);
      states, events := [State({}, map[])], [];
    }

    ghost method Record(ev: Event)
      requires Run(states, events) && Enabled(Now(), ev)
      modifies this
      ensures Run(states, events) && Now() == Apply(old(Now()), ev) && events == old(events) + [ev]
    {
      RunOn(states, events, ev);
      states, events := states + [Apply(Now(), ev)], events + [ev];
    }

    // fib_get between two parts of the walks
    method Get(a: IpAddr, len: nat) returns (e: Node)
      requires Valid() && AllSuspended(Now()) && |Crowd(Flat(fib.table), fib.ipaHash(a))| < 0x10000
      modifies this, fib
      ensures Valid() && e in Flat(fib.table) && e.key == Key(a, len)
      ensures !old(fib.Contains(Key(a, len))) ==> Enabled(old(Now()), Insert(e.uid)) && Now() == Apply(old(Now()), Insert(e.uid))
      ensures old(fib.Contains(Key(a, len))) ==> Now() == old(Now()) && Flat(fib.table) == old(Flat(fib.table))
    {
      hide Flat, Run, FibOk, ReadersOk;
      ghost var was, known := fib.table, fib.Contains(Key(a, len));
      e := fib.Get(a, len);
      if !known {
        UidsMore(Flat(was), Flat(fib.table), e);
        TableSteps(Now(), Insert(e.uid));
        Record(Insert(e.uid));
      }
    }

    // fib_delete between two parts of the walks
    method Delete(e: Node)
      requires Valid() && AllSuspended(Now()) && e in Flat(fib.table)
      modifies this, fib
      ensures Valid() && exists next :: Enabled(old(Now()), FibWalk.Event.Delete(e.uid, next)) &&
                                        Now() == Apply(old(Now()), FibWalk.Event.Delete(e.uid, next))
    {
      hide Flat, Run, IsNext, FibOk, ReadersOk;
      ghost var was, home := fib.table, fib.home;
      UidsAre(Flat(was));
      SortedTable(was, fib.order, fib.ipaHash);
      fib.Delete(e);
      ghost var next :| IsNext(Uids(Flat(was)), e.uid, next) && fib.home == Moved(home, e.uid, next);
      UidsLess(Flat(was), Flat(fib.table), e);
      ghost var ev := FibWalk.Event.Delete(e.uid, next);
      TableSteps(Now(), ev);
      Record(ev);
    }

    // FIB_ITERATE_INIT
    method Init(it: It)
      requires Valid() && it !in Now().walks
      modifies this, fib
      ensures Valid() && fib.table == old(fib.table)
      ensures exists first :: Enabled(old(Now()), FibWalk.Event.Init(it, first)) && Now() == Apply(old(Now()), FibWalk.Event.Init(it, first))
    {
      hide Flat, Run, FibOk, ReadersOk;
      SortedTable(fib.table, fib.order, fib.ipaHash);
      FirstIsFirst(Flat(fib.table));
      fib.FitInit(it);
      ghost var ev := FibWalk.Event.Init(it, FirstUid(Flat(fib.table)));
      TableSteps(Now(), ev);
      Record(ev);
    }

    // FIB_ITERATE_START: the entry to be read first, none if the walk is over
    method Resume(it: It) returns (r: Option<nat>)
      requires Valid() && it in Now().walks && (Now().walks[it].pos.Parked? || Now().walks[it].pos.AtEnd?)
      modifies this, fib
      ensures Valid() && fib.table == old(fib.table) && Now() == Apply(old(Now()), FibWalk.Event.Resume(it))
      ensures Now().walks[it].pos == ReadPos(r)
    {
      hide Flat, Run, FibOk, ReadersOk;
      TableSteps(Now(), FibWalk.Event.Resume(it));
      r := fib.FitGet(it);
      Record(FibWalk.Event.Resume(it));
    }

    // FIB_ITERATE_END: on to the next entry
    method Step(it: It, e: Node) returns (r: Option<Node>)
      requires Valid() && Reads(it, e)
      modifies this
      ensures Valid() && Enabled(old(Now()), FibWalk.Event.Step(it, UidOf(r))) && Now() == Apply(old(Now()), FibWalk.Event.Step(it, UidOf(r)))
      ensures r.Some? ==> Reads(it, r.value)
    {
      hide Flat, Run, IsNext, FibOk, ReadersOk;
      r := fib.Next(e);
      ghost var ev := FibWalk.Event.Step(it, UidOf(r));
      TableSteps(Now(), ev);
      Record(ev);
    }

    // FIB_ITERATE_PUT: suspended at the entry that was read
    method Put(it: It, e: Node)
      requires Valid() && Reads(it, e)
      modifies this, fib
      ensures Valid() && fib.table == old(fib.table) && Now() == Apply(old(Now()), FibWalk.Event.Park(it))
    {
      hide Flat, Run, FibOk, ReadersOk;
      TableSteps(Now(), FibWalk.Event.Park(it));
      fib.FitPut(it, e);
      Record(FibWalk.Event.Park(it));
    }

    // FIB_ITERATE_PUT_NEXT: suspended at the entry after it
    method PutNext(it: It, e: Node)
      requires Valid() && Reads(it, e)
      modifies this, fib
      ensures Valid() && fib.table == old(fib.table)
      ensures exists next :: Enabled(old(Now()), FibWalk.Event.ParkNext(it, next)) && Now() == Apply(old(Now()), FibWalk.Event.ParkNext(it, next))
    {
      hide Flat, Run, IsNext, FibOk, ReadersOk;
      ghost var home := fib.home;
      fib.FitPutNext(it, e);
      ghost var next :| IsNext(Uids(Flat(fib.table)), e.uid, next) && fib.home == home[it := next];
      ghost var ev := FibWalk.Event.ParkNext(it, next);
      TableSteps(Now(), ev);
      Record(ev);
    }

    // The entry walk `it` is reading
    ghost predicate Reads(it: It, e: Node)
      reads this, fib
    {
      e in Flat(fib.table) && it in Now().walks && Now().walks[it].pos == Reading(e.uid)
    }

    // A walk over the table that is over has visited every entry that is and always was there.
    lemma Complete(it: It)
      requires Valid() && it in Now().walks && Now().walks[it].pos.Done?
      ensures forall n :: n in Flat(fib.table) && n.uid in Now().walks[it].lasting ==> n.uid in Now().walks[it].visited
      ensures forall u :: u in Now().walks[it].lasting ==> u in Uids(Flat(fib.table))
      ensures InOrder(Now().walks[it].visited, Now().walks[it].reread)
      ensures forall i: nat, u :: Stays(states, events, i, |events|, it, u) ==> u in Now().walks[it].visited
      ensures forall u :: u in Now().walks[it].visited ==> WasRead(states, |events|, it, u)
    {
      hide Flat, Stays, WasRead;
      VisitsWhatStays(states, events, |events|, it);
      forall u | u in Now().walks[it].visited ensures WasRead(states, |events|, it, u) {
        VisitedWasRead(states, events, |events|, it, u);
      }
      WalksComplete(states, events, |events|, it);
      RunOk(states, events, |events|);
      assert WalkOk(Now().uids, Now().walks[it]);
    }
  }

  function ReadPos(r: Option<nat>): Pos {
    if r.None? then Done else Reading(r.value)
  }

  lemma SortedTable(t: Table, order: nat, hash: Hash)
    requires FibOk(t, order, hash)
    ensures FlatOk(Flat(t), hash)
  {
  }

  lemma UidsLess(was: seq<Node>, now: seq<Node>, e: Node)
    requires Sorted(was) && e in was && forall n :: n in now <==> n in was && n != e
    ensures Uids(now) == Uids(was) - {e.uid}
  {
    UidsAre(was);
    UidsAre(now);
    forall n | n in was && n.uid == e.uid ensures n == e {
      var i :| 0 <= i < |was| && was[i] == n;
      var j :| 0 <= j < |was| && was[j] == e;
      assert !(i < j) && !(j < i);
    }
  }

  lemma RunOn(states: seq<State>, events: seq<Event>, ev: Event)
    requires Run(states, events) && Enabled(states[|events|], ev)
    ensures Run(states + [Apply(states[|events|], ev)], events + [ev])
  {
    hide Enabled, Apply;
    var states', events' := states + [Apply(states[|events|], ev)], events + [ev];
    forall i | 0 <= i < |events'| ensures Enabled(states'[i], events'[i]) && states'[i + 1] == Apply(states'[i], events'[i]) {
      if i < |events| {
        assert states'[i] == states[i] && events'[i] == events[i] && states'[i + 1] == states[i + 1];
      }
    }
  }

  lemma UidsMore(was: seq<Node>, now: seq<Node>, e: Node)
    requires forall n :: n in now <==> n in was || n == e
    ensures Uids(now) == Uids(was) + {e.uid}
  {
    UidsAre(was);
    UidsAre(now);
  }
}
