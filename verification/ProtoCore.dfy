/**
 * Life cycles of protocol instances (nest/proto.c): protocol, core and export states, graceful
 * restart locks, the lock on the routing table and the flush loop, over any number of instances.
 *
 * Every ASSERT of the state machine is a precondition of the method that has it, so that verifying
 * the callers shows it cannot fail.
 */
module ProtoCore {

  import opened Options
  import opened Sets

  datatype ProtoState = Down | Start | Up | Stop
  datatype CoreState = Hungry | Happy | Flushing
  datatype ExportState = NoExport | Feeding | Ready
  datatype Restart = GrNone | GrInit | GrActive | GrDone

  // A protocol instance. `linked` tells that its announce hooks are linked to their tables,
  // `source` that it holds its main route source, `tableLocks` counts its locks on its table.
  datatype Proto = Proto(
    ps: ProtoState, cs: CoreState, es: ExportState,
    disabled: bool, reconfiguring: bool, multitable: bool,
    grRecovery: bool, grWait: bool, grLock: bool,
    linked: bool, source: bool, tableLocks: nat, flushing: bool)

  // What the hooks of a protocol do when they are called: start may take a graceful restart lock and
  // postpone exports in a recovery and ends up in a state, shutdown ends up in a state, and a new
  // configuration may replace the instance.
  datatype Hooks = Hooks(takeLock: bool, wait: bool, started: ProtoState, stopped: ProtoState, replacement: Option<Proto>)

  function NewProto(multitable: bool, disabled: bool): Proto {
    Proto(Down, Hungry, NoExport, disabled, false, multitable, false, false, false, false, false, 0, false)
  }

  predicate GoodHooks(h: Hooks) {
    h.started in {Start, Up} && h.stopped in {Stop, Down} &&
    (h.replacement.Some? ==> h.replacement.value == NewProto(h.replacement.value.multitable, h.replacement.value.disabled))
  }

  /* ---------- The legal combinations ---------- */

  predicate StatesOk(p: Proto) {
    match p.ps
    case Down => p.cs != Happy && p.es == NoExport
    case Start => p.cs != Flushing && p.es == NoExport
    case Up => p.cs == Happy
    case Stop => p.cs != Happy && p.es == NoExport
  }

  // Graceful restart: flags only of participants. A protocol that is up exports unless it waits.
  predicate RestartOk(p: Proto) {
    (p.grWait || p.grLock ==> p.grRecovery) && (p.ps == Up ==> (p.grWait <==> p.es == NoExport))
  }

  // Resources follow the states.
  predicate ResourcesOk(p: Proto) {
    (p.linked <==> p.es != NoExport) && (p.source <==> p.cs == Happy && !p.multitable) && (p.flushing ==> p.cs == Flushing)
  }

  // From the start to the end of a life cycle the table is locked once, outside of it not at all.
  predicate LockOk(p: Proto, alive: bool) {
    p.tableLocks == if alive && !p.multitable then 1 else 0
  }

  predicate Alive(p: Proto) {
    !(p.ps == Down && p.cs == Hungry)
  }

  predicate Legal(p: Proto) {
    StatesOk(p) && RestartOk(p) && ResourcesOk(p) && LockOk(p, Alive(p)) && (p.ps in {Down, Stop} ==> !p.grRecovery)
  }

  // An instance between the setting up and the report of its start hook.
  predicate Starting(p: Proto) {
    p.ps == Down && p.cs == Hungry && p.es == NoExport && RestartOk(p) && ResourcesOk(p) && LockOk(p, true)
  }

  // The instance is where its configuration wants it, or on the way there.
  predicate Settled(p: Proto) {
    if p.disabled || p.reconfiguring then p.ps in {Down, Stop} else Alive(p)
  }

  /* ---------- Steps of one instance ---------- */

  // proto_want_core_up
  method WantCoreUp(p: Proto) returns (q: Proto)
    requires p.cs == Hungry
    ensures q == p.(cs := Happy, source := p.source || !p.multitable)
  {
    q := p;
    if !p.multitable {
      q := q.(source := true);
    }
    q := q.(cs := Happy);
  }

  // proto_want_export_up
  method WantExportUp(p: Proto) returns (q: Proto)
    requires p.cs == Happy
    requires p.es == NoExport
    ensures q == p.(linked := true, es := Feeding)
  {
    q := p.(linked := true);
    q := q.(es := Feeding);
  }

  // proto_want_export_down
  method WantExportDown(p: Proto) returns (q: Proto)
    requires p.es != NoExport
    ensures q == p.(es := NoExport, linked := false)
  {
    q := p.(es := NoExport);
    q := q.(linked := false);
  }

  // proto_want_core_down: the flush loop is scheduled by the caller
  method WantCoreDown(p: Proto) returns (q: Proto)
    requires p.cs == Happy
    requires p.es == NoExport
    ensures q == p.(cs := Flushing, source := p.source && p.multitable)
  {
    q := p.(cs := Flushing);
    if !p.multitable {
      q := q.(source := false);
    }
  }

  // proto_notify_state with PS_START
  method ReportStart(p: Proto) returns (q: Proto)
    requires (Legal(p) && p.ps == Up) || Starting(p)
    ensures q.ps == Start && q.cs == p.cs && Legal(q) && q.grLock == p.grLock && SameInstance(p, q)
  {
    q := p.(ps := Start);
    assert p.cs == Hungry || p.cs == Happy;
    if p.es != NoExport {
      q := WantExportDown(q);
    }
  }

  // proto_notify_state with PS_UP
  method ReportUp(p: Proto) returns (q: Proto)
    requires (Legal(p) && p.ps == Start) || Starting(p)
    ensures q.ps == Up && q.cs == Happy && Legal(q) && q.grLock == p.grLock && SameInstance(p, q)
    ensures q.es == if p.grWait then NoExport else Feeding
  {
    q := p.(ps := Up);
    assert (p.cs == Hungry || p.cs == Happy) && p.es == NoExport;
    if p.cs == Hungry {
      q := WantCoreUp(q);
    }
    if !p.grWait {
      q := WantExportUp(q);
    }
  }

  // The part of graceful_restart_done for one instance
  method ResumeExport(p: Proto) returns (q: Proto)
    requires Legal(p)
    ensures q == Resumed(p)
  {
    q := p;
    if p.grRecovery {
      if p.ps == Up && p.grWait {
        q := WantExportUp(q);
      }
      q := q.(grRecovery := false, grWait := false, grLock := false);
    }
  }

  predicate SameInstance(p: Proto, q: Proto) {
    q.disabled == p.disabled && q.reconfiguring == p.reconfiguring && q.multitable == p.multitable &&
    q.grRecovery == p.grRecovery && q.grWait == p.grWait && q.flushing == p.flushing
  }

  // The part that PS_STOP and PS_DOWN share: export and core go down.
  method GoDown(p: Proto, ps: ProtoState) returns (q: Proto)
    requires Legal(p) && ps in {Stop, Down} && ps != p.ps && p.ps != Down
    ensures q == GoneDown(p, ps)
  {
    q := p.(ps := ps);
    if p.es != NoExport {
      q := WantExportDown(q);
    }
    if p.cs == Happy {
      q := WantCoreDown(q);
    }
  }

  /* ---------- Graceful restart locks ---------- */

  type Protos = map<nat, Proto>

  function LockHolders(protos: Protos): set<nat> {
    set i | i in protos && protos[i].grLock
  }

  lemma HoldersPut(protos: Protos, i: nat, p: Proto)
    ensures |LockHolders(protos[i := p])| ==
      |LockHolders(protos)| - (if i in protos && protos[i].grLock then 1 else 0) + (if p.grLock then 1 else 0)
  {
    OtherHolders(protos, i, p);
    hide LockHolders;
    CardWith(LockHolders(protos), i);
    CardWith(LockHolders(protos[i := p]), i);
  }

  lemma OtherHolders(protos: Protos, i: nat, p: Proto)
    ensures LockHolders(protos[i := p]) - {i} == LockHolders(protos) - {i}
    ensures i in LockHolders(protos) <==> i in protos && protos[i].grLock
    ensures i in LockHolders(protos[i := p]) <==> p.grLock
  {
  }

  lemma HoldersDrop(protos: Protos, i: nat)
    requires i in protos && !protos[i].grLock
    ensures LockHolders(protos - {i}) == LockHolders(protos)
  {
  }

  /* ---------- The core ---------- */

  ghost predicate AllLegal(protos: Protos) {
    forall i :: i in protos ==> Legal(protos[i])
  }

  // Outside of a recovery nobody takes part in one.
  ghost predicate RecoveryOk(protos: Protos, restart: Restart) {
    restart in {GrNone, GrDone} ==> forall i :: i in protos ==> !protos[i].grRecovery
  }

  // Protocols to be flushed keep the flush loop going.
  ghost predicate FlushOk(protos: Protos, flushLoop: bool) {
    !flushLoop ==> forall i :: i in protos ==> protos[i].cs != Flushing
  }

  ghost predicate AllSettled(protos: Protos) {
    forall i :: i in protos ==> Settled(protos[i])
  }

  // Nothing but instance i changed.
  ghost predicate OnlyChanged(was: Protos, now: Protos, i: nat) {
    (forall j :: j != i ==> (j in now <==> j in was)) && forall j :: j in now && j in was && j != i ==> now[j] == was[j]
  }

  // The instances marked for the current round of the flush loop.
  function Marked(protos: Protos): set<nat> {
    set i | i in protos && protos[i].flushing
  }

  // Report: a protocol reports a state. Configure: its flags are set and its goal is rethought.
  // Postpone: it wants no exports during the recovery. FlushRound: a run of the flush loop.
  // Begin and Timer: the recovery starts and ends.
  datatype Event =
    | Add(i: nat, multitable: bool, disabled: bool, hooks: Hooks)
    | Report(i: nat, ps: ProtoState, hooks: Hooks)
    | Configure(i: nat, disabled: bool, reconfiguring: bool, hooks: Hooks)
    | Postpone(i: nat)
    | Unlock(i: nat)
    | FeedDone(i: nat)
    | Refeed(i: nat)
    | FlushRound(pruned: bool, allHooks: nat -> Hooks)
    | Begin
    | Timer

  ghost predicate GoodEvent(e: Event) {
    match e
    case Add(_, _, _, h) => GoodHooks(h)
    case Report(_, _, h) => GoodHooks(h)
    case Configure(_, _, _, h) => GoodHooks(h)
    case FlushRound(_, hs) => forall i :: GoodHooks(hs(i))
    case _ => true
  }

  predicate MayReport(was: ProtoState, now: ProtoState) {
    was == now ||
    match now
    case Start => was == Up
    case Up => was == Start
    case Stop => was in {Start, Up}
    case Down => true
  }

  class Core {
    var protos: Protos
    var restart: Restart
    // graceful_restart_locks
    var locks: nat
    // flush_loop_state
    var flushLoop: bool
    // the graceful restart timer is about to fire
    var timerDue: bool

    // The counter is the number of holders, and without holders an active recovery is about to end.
    ghost predicate Counted()
      reads this
    {
      locks == |LockHolders(protos)| && (restart == GrActive && locks == 0 ==> timerDue)
    }

    ghost predicate Valid()
      reads this
    {
      AllLegal(protos) && RecoveryOk(protos, restart) && FlushOk(protos, flushLoop) && Counted()
    }

    constructor (recovery: bool)
      ensures Valid() && protos == map[] && restart == if recovery then GrInit else GrNone
    {
      protos, locks, flushLoop, timerDue := map[], 0, false, false;
      restart := if recovery then GrInit else GrNone;
    }

    // Stores an instance whose graceful restart lock has not changed.
    method Put(i: nat, p: Proto)
      requires Counted() && i in protos && p.grLock == protos[i].grLock
      modifies this`protos
      ensures Counted() && protos == old(protos)[i := p]
    {
      HoldersPut(protos, i, p);
      protos := protos[i := p];
    }

    // proto_graceful_restart_lock
    method LockRestart(i: nat)
      requires Counted() && i in protos
      requires restart == GrInit && protos[i].grRecovery
      modifies this`protos, this`locks
      ensures Counted() && protos == old(protos)[i := old(protos)[i].(grLock := true)]
    {
      if protos[i].grLock {
        return;
      }
      HoldersPut(protos, i, protos[i].(grLock := true));
      protos := protos[i := protos[i].(grLock := true)];
      locks := locks + 1;
    }

    // proto_graceful_restart_unlock
    method UnlockRestart(i: nat)
      requires Counted() && i in protos
      modifies this`protos, this`locks, this`timerDue
      ensures Counted() && protos == old(protos)[i := old(protos)[i].(grLock := false)]
      ensures locks == old(locks) - if old(protos)[i].grLock then 1 else 0
    {
      if !protos[i].grLock {
        return;
      }
      HoldersPut(protos, i, protos[i].(grLock := false));
      protos := protos[i := protos[i].(grLock := false)];
      locks := locks - 1;
      if restart == GrActive && locks == 0 {
        timerDue := true;
      }
    }

    // proto_falling_down
    method FallingDown(i: nat)
      requires Counted() && i in protos
      modifies this`protos, this`locks, this`timerDue
      ensures Counted() && protos == old(protos)[i := LeftRecovery(old(protos)[i])]
    {
      hide LockHolders;
      ghost var was, p := protos, protos[i];
      Put(i, protos[i].(grRecovery := false, grWait := false));
      PutTwice(was, i, protos[i], protos[i].(grLock := false));
      if protos[i].grLock {
        UnlockRestart(i);
      }
    }

    // proto_schedule_flush_loop: a round starts with all instances that wait to be flushed
    method ScheduleFlushLoop()
      requires Counted()
      modifies this`protos, this`flushLoop
      ensures Counted() && flushLoop
      ensures protos == if old(flushLoop) then old(protos) else MarkAll(old(protos))
      ensures protos.Keys == old(protos).Keys
      ensures forall j :: j in protos ==>
        protos[j] == old(protos)[j].(flushing := old(protos)[j].flushing || (!old(flushLoop) && old(protos)[j].cs == Flushing))
    {
      if flushLoop {
        return;
      }
      flushLoop := true;
      MarkHolders(protos);
      protos := MarkAll(protos);
    }

    // Stores an instance that left its core state and schedules the flush loop.
    method StoreDown(i: nat, q: Proto, coreDown: bool)
      requires Counted() && FlushOk(protos, flushLoop) && i in protos && q.grLock == protos[i].grLock
      requires coreDown ==> q.cs == Flushing
      modifies this`protos, this`flushLoop
      ensures Counted() && flushLoop == (old(flushLoop) || coreDown)
      ensures protos == old(protos)[i := WithMark(q, coreDown && !old(flushLoop))]
    {
      hide FlushOk, LockHolders, MarkAll;
      ghost var was := protos;
      Put(i, q);
      MarkOne(was, i, q, flushLoop);
      if coreDown {
        ScheduleFlushLoop();
      }
    }

    // The part of going down before the end of the life cycle
    method TakeDown(i: nat, ps: ProtoState)
      requires Counted() && FlushOk(protos, flushLoop) && i in protos && Legal(protos[i])
      requires protos[i].ps != Down && ps in {Stop, Down} && ps != protos[i].ps
      modifies this
      ensures Counted() && restart == old(restart)
      ensures flushLoop == (old(flushLoop) || old(protos)[i].cs == Happy)
      ensures protos == old(protos)[i := WentDown(old(protos)[i], ps, old(protos)[i].cs == Happy && !old(flushLoop))]
    {
      hide FlushOk, LockHolders, Legal, GoneDown, WithMark, LeftRecovery, Counted;
      var p := protos[i];
      var q := GoDown(p, ps);
      GoneDownKeeps(p, ps);
      StoreDown(i, q, p.cs == Happy);
      if p.ps != Stop {
        FallingDown(i);
      }
    }

    // proto_notify_state with PS_STOP or PS_DOWN, from an instance that is not down
    method ReportDown(i: nat, ps: ProtoState, h: Hooks)
      requires Valid() && i in protos && protos[i].ps != Down && ps in {Stop, Down} && ps != protos[i].ps && GoodHooks(h)
      modifies this
      ensures Valid() && OnlyChanged(old(protos), protos, i) && restart == old(restart) && (old(flushLoop) ==> flushLoop)
      ensures i in protos ==> Settled(protos[i])
      ensures Reported(old(protos), protos, i, ps, h, old(flushLoop), restart == GrInit)
      ensures ps == Stop || old(protos)[i].cs != Hungry ==>
        i in protos && DownEffect(old(protos)[i], protos[i], ps, old(flushLoop)) && (flushLoop <==> old(flushLoop) || old(protos)[i].cs == Happy)
      decreases 1, 1
    {
      hide AllLegal, RecoveryOk, FlushOk, LockHolders, OnlyChanged, Legal, Ended, WentDown, GoodHooks;
      LegalAt(protos, i);
      FlushAt(protos, i, flushLoop);
      ghost var was := protos;
      var p := protos[i];
      ghost var marked := p.cs == Happy && !flushLoop;
      TakeDown(i, ps);
      ghost var q := WentDown(p, ps, marked);
      WentDownOk(p, ps, marked);
      WentDownMeans(p, ps, old(flushLoop));
      hide DownEffect;
      ButOne(was, i, q);
      if ps == Down && p.cs == Hungry {
        PutRest(was, i, q, restart, old(flushLoop), flushLoop);
        FellDown(i, h);
        Unaffected(was, q, protos, i);
      } else {
        PutLegal(was, i, q, restart, old(flushLoop), flushLoop);
      }
    }

    // proto_fell_down: the table is unlocked and the instance may start again
    method FellDown(i: nat, h: Hooks)
      requires AllLegal(protos - {i}) && RecoveryOk(protos, restart) && FlushOk(protos, flushLoop) && Counted()
      requires i in protos && Ended(protos[i]) && GoodHooks(h)
      modifies this
      ensures Valid() && OnlyChanged(old(protos), protos, i) && restart == old(restart) && (old(flushLoop) ==> flushLoop)
      ensures i in protos ==> protos[i].cs != Flushing && Settled(protos[i])
      ensures Restarted(old(protos)[i], h, protos, i, restart == GrInit)
      decreases 0, 3
    {
      hide AllLegal, RecoveryOk, FlushOk, LockHolders, OnlyChanged;
      ghost var was := protos;
      var p := protos[i];
      if !p.multitable {
        p := p.(tableLocks := p.tableLocks - 1);
      }
      Put(i, p);
      PutLegal(was, i, p, restart, flushLoop, flushLoop);
      RethinkGoal(i, h);
      Unaffected(was, p, protos, i);
    }

    // proto_rethink_goal
    method RethinkGoal(i: nat, h: Hooks)
      requires Valid() && i in protos && GoodHooks(h)
      modifies this
      ensures Valid() && OnlyChanged(old(protos), protos, i) && restart == old(restart) && (old(flushLoop) ==> flushLoop)
      ensures old(!Alive(protos[i])) && i in protos ==> protos[i].cs != Flushing
      ensures i in protos ==> Settled(protos[i])
      ensures Rethought(old(protos), protos, i, h, old(flushLoop), restart == GrInit)
      decreases if i in protos && protos[i].ps != Down then 1 else 0, 2
    {
      hide AllLegal, RecoveryOk, FlushOk, LockHolders, OnlyChanged;
      LegalAt(protos, i);
      ghost var was := protos;
      ButOne(was, i, was[i]);
      if protos[i].reconfiguring && protos[i].cs == Hungry && protos[i].ps == Down {
        if h.replacement.None? {
          DropLegal(protos, i, restart, flushLoop);
          HoldersDrop(protos, i);
          protos := protos - {i};
          return;
        }
        Put(i, h.replacement.value);
        ButOne(was, i, h.replacement.value);
        PutLegal(was, i, h.replacement.value, restart, flushLoop, flushLoop);
      }
      var p := protos[i];
      LegalAt(protos, i);
      assert protos == was[i := p];
      Unchanged(protos, i);
      ghost var mid := protos;
      if !p.disabled && !p.reconfiguring {
        if p.ps == Down && p.cs == Hungry {
          StartUp(i, h);
        }
      } else if p.ps == Start || p.ps == Up {
        ReportDown(i, h.stopped, h);
      }
      Unaffected(was, p, protos, i);
    }

    // proto_init_instance, the start hook and the report of its result
    method StartUp(i: nat, h: Hooks)
      requires Valid() && i in protos && !Alive(protos[i]) && GoodHooks(h)
      modifies this`protos, this`locks
      ensures Valid() && OnlyChanged(old(protos), protos, i)
      ensures i in protos && Started(protos[i], h, restart == GrInit) && protos[i].cs != Flushing
      ensures protos[i].disabled == old(protos)[i].disabled && protos[i].reconfiguring == old(protos)[i].reconfiguring
    {
      hide AllLegal, RecoveryOk, FlushOk, LockHolders, OnlyChanged, Legal, Starting;
      LegalAt(protos, i);
      ghost var was := protos;
      var p := InitInstance(i, h);
      if h.started == Start {
        p := ReportStart(p);
      } else {
        p := ReportUp(p);
      }
      PutTwice(was, i, protos[i], p);
      Put(i, p);
      ButOne(was, i, p);
      LegalStates(p);
      PutLegal(was, i, p, restart, flushLoop, flushLoop);
    }

    method InitInstance(i: nat, h: Hooks) returns (p: Proto)
      requires Counted() && i in protos && !Alive(protos[i]) && Legal(protos[i])
      modifies this`protos, this`locks
      ensures Counted() && i in protos && p.grLock == protos[i].grLock
      ensures protos == old(protos)[i := protos[i]]
      ensures Starting(p) && p.cs == Hungry && p.disabled == old(protos)[i].disabled && p.reconfiguring == old(protos)[i].reconfiguring
      ensures (p.grRecovery <==> restart == GrInit) && (p.grWait <==> h.wait && p.grRecovery) && (p.grLock <==> h.takeLock && p.grRecovery)
    {
      hide LockHolders;
      p := protos[i];
      if restart == GrInit {
        p := p.(grRecovery := true);
      }
      if !p.multitable {
        p := p.(tableLocks := p.tableLocks + 1);
      }
      Put(i, p);
      if h.takeLock && p.grRecovery {
        LockRestart(i);
      }
      p := protos[i];
      if h.wait && p.grRecovery {
        p := p.(grWait := true);
      }
    }

    // One instance of a round of proto_flush_loop
    method FlushOne(i: nat, h: Hooks)
      requires Valid() && flushLoop && i in protos && protos[i].flushing && GoodHooks(h)
      modifies this
      ensures Valid() && flushLoop && OnlyChanged(old(protos), protos, i) && restart == old(restart)
      ensures i in protos ==> protos[i].cs != Flushing && Settled(protos[i])
      ensures if old(protos[i]).ps == Down then Restarted(old(protos[i]), h, protos, i, restart == GrInit)
        else i in protos && protos[i] == Flushed(old(protos[i])) && protos[i] == old(protos)[i].(flushing := false, cs := Hungry)
    {
      hide AllLegal, RecoveryOk, FlushOk, LockHolders, OnlyChanged, Legal, Ended, GoodHooks, Settled;
      LegalAt(protos, i);
      ghost var was := protos;
      var p := Flushed(protos[i]);
      FlushedOk(protos[i]);
      Put(i, p);
      ButOne(was, i, p);
      if p.ps == Down {
        PutRest(was, i, p, restart, flushLoop, flushLoop);
        FellDown(i, h);
        Unaffected(was, p, protos, i);
      } else {
        PutLegal(was, i, p, restart, flushLoop, flushLoop);
      }
    }

    // proto_flush_loop; `pruned` is the answer of the pruning of the tables
    method FlushLoop(pruned: bool, hooks: nat -> Hooks)
      requires Valid() && flushLoop && forall i :: GoodHooks(hooks(i))
      modifies this
      ensures Valid() && restart == old(restart) && (!pruned ==> protos == old(protos) && flushLoop)
      ensures pruned ==> RoundDone(old(protos), protos)
      ensures pruned ==> (flushLoop <==> exists i :: i in protos && protos[i].cs == Flushing)
    {
      hide AllLegal, RecoveryOk, LockHolders, OnlyChanged, Legal, GoodHooks, RoundDone, RoundSoFar, Settled, MarkAll;
      if !pruned {
        return;
      }
      ghost var was := protos;
      RoundStarts(was);
      while Marked(protos) != {}
        invariant Valid() && flushLoop && restart == old(restart)
        invariant RoundSoFar(was, protos)
        decreases |Marked(protos)|
      {
        var i :| i in Marked(protos);
        MarkedAt(protos, i);
        ghost var mid := protos;
        FlushOne(i, hooks(i));
        RoundGoesOn(was, mid, protos, i);
      }
      flushLoop := false;
      RoundEnds(was, protos);
      MarkAllLegal(protos, restart);
      if exists i :: i in protos && protos[i].cs == Flushing {
        ScheduleFlushLoop();
      }
    }


    // graceful_restart_done
    method RecoveryDone()
      requires AllLegal(protos) && FlushOk(protos, flushLoop)
      modifies this`protos, this`restart, this`locks
      ensures Valid() && restart == GrDone && protos.Keys == old(protos).Keys
      ensures forall j :: j in protos ==> protos[j] == Resumed(old(protos)[j]) && ResumeEffect(old(protos)[j], protos[j])
    {
      hide AllLegal, FlushOk, LockHolders, Legal, Resumed, ResumeEffect, RecoveryOk;
      ghost var was := protos;
      restart := GrDone;
      var todo := protos.Keys;
      while todo != {}
        invariant restart == GrDone && todo <= protos.Keys && protos.Keys == was.Keys
        invariant forall j :: j in protos ==> protos[j] == if j in todo then was[j] else Resumed(was[j])
        decreases |todo|
      {
        var i :| i in todo;
        LegalAt(was, i);
        var p := ResumeExport(protos[i]);
        protos := protos[i := p];
        todo := todo - {i};
      }
      locks := 0;
      ResumedLegal(was, protos, flushLoop);
    }

    // graceful_restart_init
    method RecoveryStarts()
      requires Valid() && restart in {GrNone, GrInit}
      modifies this`protos, this`restart, this`locks
      ensures Valid() && restart == (if old(restart) == GrNone then GrNone else if old(locks) == 0 then GrDone else GrActive)
      ensures restart != GrDone ==> protos == old(protos)
      ensures restart == GrDone ==> protos.Keys == old(protos).Keys && forall j :: j in protos ==> protos[j] == Resumed(old(protos)[j]) && ResumeEffect(old(protos)[j], protos[j])
    {
      hide AllLegal, FlushOk, LockHolders, Resumed, ResumeEffect, Legal;
      if restart == GrNone {
        return;
      }
      if locks == 0 {
        RecoveryDone();
        return;
      }
      restart := GrActive;
    }

    /* ---------- What happens to the core ---------- */

    // What the rest of the program promises: a protocol reports only the moves that are open to it.
    predicate Permitted(e: Event)
      reads this
    {
      match e
      case Add(i, _, _, h) => i !in protos
      case Report(i, ps, h) => i in protos && MayReport(protos[i].ps, ps)
      case Configure(i, _, reconfiguring, h) => i in protos && (protos[i].reconfiguring ==> reconfiguring)
      case Postpone(i) => i in protos && protos[i].ps == Start && protos[i].grRecovery
      case Unlock(i) => i in protos
      case FeedDone(i) => i in protos
      case Refeed(i) => i in protos && protos[i].ps == Up
      case FlushRound(_, _) => flushLoop
      case Begin => restart in {GrNone, GrInit}
      case Timer => restart == GrActive
    }

    // A change of one instance that keeps the main states it had
    method Adjust(i: nat, p: Proto)
      requires Valid() && AllSettled(protos) && i in protos
      requires Legal(p) && Adjusted(protos[i], p)
      modifies this`protos
      ensures Valid() && AllSettled(protos) && protos == old(protos)[i := p]
    {
      hide AllLegal, RecoveryOk, FlushOk, LockHolders, OnlyChanged, Legal, AllSettled;
      ghost var was := protos;
      AdjustedOk(was, i, p, restart, flushLoop);
      ButOne(was, i, p);
      Put(i, p);
      PutLegal(was, i, p, restart, flushLoop, flushLoop);
      OthersSettled(was, protos, i);
    }

    // proto_notify_state, called by a protocol
    method Notify(i: nat, ps: ProtoState, h: Hooks)
      requires Valid() && AllSettled(protos) && i in protos && MayReport(protos[i].ps, ps) && GoodHooks(h)
      modifies this
      ensures Valid() && AllSettled(protos) && OnlyChanged(old(protos), protos, i) && restart == old(restart)
      ensures ps == old(protos)[i].ps ==> protos == old(protos)
      ensures ps in {Start, Up} ==> i in protos && protos[i].ps == ps
      ensures ps in {Stop, Down} && ps != old(protos)[i].ps ==>
        Reported(old(protos), protos, i, ps, h, old(flushLoop), restart == GrInit)
      ensures ps in {Stop, Down} && ps != old(protos)[i].ps && (ps == Stop || old(protos)[i].cs != Hungry) ==>
        i in protos && DownEffect(old(protos)[i], protos[i], ps, old(flushLoop))
    {
      hide AllLegal, RecoveryOk, FlushOk, LockHolders, OnlyChanged, Legal, AllSettled, GoodHooks, Adjusted, Reported, DownEffect;
      ghost var was := protos;
      if protos[i].ps == ps {
        Unchanged(was, i);
        return;
      }
      LegalAt(protos, i);
      SettledAt(protos, i);
      if ps == Start || ps == Up {
        var p := protos[i];
        if ps == Start {
          p := ReportStart(p);
        } else {
          p := ReportUp(p);
        }
        ReportAdjusts(protos[i], p);
        Adjust(i, p);
        PutChanges(was, i, p);
      } else {
        ReportDown(i, ps, h);
        OthersSettled(was, protos, i);
      }
    }

    // A command or a new configuration sets the flags of an instance and rethinks its goal.
    method Configure(i: nat, disabled: bool, reconfiguring: bool, h: Hooks)
      requires Valid() && AllSettled(protos) && i in protos && GoodHooks(h)
      modifies this
      ensures Valid() && AllSettled(protos) && OnlyChanged(old(protos), protos, i) && restart == old(restart)
      ensures Rethought(old(protos)[i := old(protos)[i].(disabled := disabled, reconfiguring := reconfiguring)], protos, i, h,
                        old(flushLoop), restart == GrInit)
    {
      hide AllLegal, RecoveryOk, FlushOk, LockHolders, OnlyChanged, Legal, AllSettled, GoodHooks, Rethought;
      ghost var was := protos;
      var p := protos[i].(disabled := disabled, reconfiguring := reconfiguring);
      FlagsOk(was, i, p, restart, flushLoop);
      ButOne(was, i, p);
      Put(i, p);
      PutLegal(was, i, p, restart, flushLoop, flushLoop);
      RethinkGoal(i, h);
      Unaffected(was, p, protos, i);
      OthersSettled(was, protos, i);
    }

    // proto_init and the first look at its goal
    method AddInstance(i: nat, multitable: bool, disabled: bool, h: Hooks)
      requires Valid() && AllSettled(protos) && i !in protos && GoodHooks(h)
      modifies this
      ensures Valid() && AllSettled(protos) && OnlyChanged(old(protos), protos, i) && restart == old(restart)
      ensures i in protos && protos[i].disabled == disabled && MayStart(protos[i], h, restart == GrInit)
    {
      hide AllLegal, RecoveryOk, FlushOk, LockHolders, OnlyChanged, AllSettled, GoodHooks, MayStart;
      ghost var was := protos;
      var p := NewProto(multitable, disabled);
      HoldersPut(protos, i, p);
      ButOne(was, i, p);
      protos := protos[i := p];
      PutLegal(was, i, p, restart, flushLoop, flushLoop);
      RethinkGoal(i, h);
      Unaffected(was, p, protos, i);
      OthersSettled(was, protos, i);
    }

    // Feeding: proto_feed_more that finishes, and proto_request_feeding
    method Feed(i: nat, done: bool)
      requires Valid() && AllSettled(protos) && i in protos
      requires !done ==> protos[i].ps == Up
      modifies this`protos
      ensures Valid() && AllSettled(protos) && protos.Keys == old(protos).Keys
      ensures protos == old(protos)[i := old(protos)[i].(es := protos[i].es)]
      ensures protos[i].es == if old(protos)[i].es == NoExport then NoExport else if done then Ready else Feeding
    {
      hide AllLegal, RecoveryOk, FlushOk, LockHolders, AllSettled;
      LegalAt(protos, i);
      SettledAt(protos, i);
      var p := protos[i];
      if p.es != NoExport {
        Adjust(i, p.(es := if done then Ready else Feeding));
      }
    }

    method Handle(e: Event)
      requires Valid() && AllSettled(protos) && Permitted(e) && GoodEvent(e)
      modifies this
      ensures Valid() && AllSettled(protos)
    {
      hide AllLegal, RecoveryOk, FlushOk, LockHolders, OnlyChanged, AllSettled, GoodHooks, MayReport, RoundDone;
      ghost var was := protos;
      match e
      case Add(i, multitable, disabled, h) => AddInstance(i, multitable, disabled, h);
      case Report(i, ps, h) => Notify(i, ps, h);
      case Configure(i, disabled, reconfiguring, h) => Configure(i, disabled, reconfiguring, h);
      case Postpone(i) =>
        LegalAt(protos, i);
        SettledAt(protos, i);
        Adjust(i, protos[i].(grWait := true));
      case Unlock(i) =>
        Release(i);
      case FeedDone(i) => Feed(i, true);
      case Refeed(i) => Feed(i, false);
      case FlushRound(pruned, hooks) =>
        FlushLoop(pruned, hooks);
        RoundSettles(was, protos, pruned);
      case Begin =>
        RecoveryStarts();
        ResumedSettled(was, protos);
      case Timer =>
        RecoveryDone();
        ResumedSettled(was, protos);
    }

    // A protocol that has converged lets go of the recovery.
    method Release(i: nat)
      requires Valid() && AllSettled(protos) && i in protos
      modifies this`protos, this`locks, this`timerDue
      ensures Valid() && AllSettled(protos) && protos == old(protos)[i := old(protos)[i].(grLock := false)]
    {
      hide AllLegal, RecoveryOk, FlushOk, LockHolders, OnlyChanged, AllSettled;
      ghost var was := protos;
      LegalAt(protos, i);
      SettledAt(protos, i);
      UnlockRestart(i);
      ghost var p := was[i].(grLock := false);
      AdjustedOk(was, i, p, restart, flushLoop);
      ButOne(was, i, p);
      PutLegal(was, i, p, restart, flushLoop, flushLoop);
      OthersSettled(was, protos, i);
    }

    // Everything that can happen, in any order.
    method Run(es: seq<Event>)
      requires Valid() && AllSettled(protos) && forall k :: 0 <= k < |es| ==> GoodEvent(es[k])
      modifies this
      ensures Valid() && AllSettled(protos)
    {
      for k := 0 to |es|
        invariant Valid() && AllSettled(protos)
      {
        if Permitted(es[k]) {
          Handle(es[k]);
        }
      }
    }
  }

  // An instance whose life cycle is over, with its table still locked.
  predicate Ended(p: Proto) {
    p.ps == Down && p.cs == Hungry && p.es == NoExport && RestartOk(p) && ResourcesOk(p) && LockOk(p, true) && !p.grRecovery
  }

  // What the states of an instance that stops or goes down become,
  function GoneDown(p: Proto, ps: ProtoState): Proto {
    p.(ps := ps, es := NoExport, linked := false, cs := if p.cs == Happy then Flushing else p.cs,
       source := p.source && p.cs != Happy)
  }

  // with the mark of a flush round that starts now,
  function WithMark(p: Proto, marked: bool): Proto {
    p.(flushing := p.flushing || marked)
  }

  // without its part in a graceful restart,
  function LeftRecovery(p: Proto): Proto {
    p.(grRecovery := false, grWait := false, grLock := false)
  }

  // all together.
  function WentDown(p: Proto, ps: ProtoState, marked: bool): Proto {
    var q := WithMark(GoneDown(p, ps), marked);
    if p.ps == Stop then q else LeftRecovery(q)
  }

  // A life cycle that starts: the state, and the part in a recovery that is going on.
  predicate Started(q: Proto, h: Hooks, recovery: bool) {
    q.ps == h.started && q.cs == (if h.started == Up then Happy else Hungry) && q.grRecovery == recovery &&
    q.grLock == (recovery && h.takeLock) && q.grWait == (recovery && h.wait)
  }

  // What happens to an instance whose life cycle is over: it disappears, gets a new configuration,
  // starts again or stays down.
  predicate Restarted(p: Proto, h: Hooks, now: Protos, i: nat, recovery: bool) {
    if p.reconfiguring then
      if h.replacement.None? then i !in now
      else i in now && now[i].disabled == h.replacement.value.disabled && !now[i].reconfiguring && MayStart(now[i], h, recovery)
    else i in now && now[i].disabled == p.disabled && !now[i].reconfiguring && MayStart(now[i], h, recovery)
  }

  predicate MayStart(q: Proto, h: Hooks, recovery: bool) {
    if q.disabled then q.ps == Down && q.cs == Hungry else Started(q, h, recovery)
  }

  // What a report of PS_STOP or PS_DOWN does.
  predicate Reported(was: Protos, now: Protos, i: nat, ps: ProtoState, h: Hooks, loop: bool, recovery: bool)
    requires i in was
  {
    if ps == Down && was[i].cs == Hungry then Restarted(was[i], h, now, i, recovery)
    else now == was[i := WentDown(was[i], ps, was[i].cs == Happy && !loop)]
  }

  // What a look at the goal of an instance does.
  predicate Rethought(was: Protos, now: Protos, i: nat, h: Hooks, loop: bool, recovery: bool)
    requires i in was
  {
    var p := was[i];
    if !Alive(p) then Restarted(p, h, now, i, recovery)
    else if (p.disabled || p.reconfiguring) && p.ps in {Start, Up} then Reported(was, now, i, h.stopped, h, loop, recovery)
    else now == was
  }

  // An instance that stops or goes down no longer exports, its routes have to be flushed if it had
  // any, in a new round of the flush loop if none is running, and it has left the recovery.
  predicate DownEffect(p: Proto, q: Proto, ps: ProtoState, loop: bool) {
    q.ps == ps && q.es == NoExport && !q.linked && !q.source && !q.grRecovery && !q.grWait && !q.grLock &&
    q.cs == (if p.cs == Hungry then Hungry else Flushing) &&
    (q.flushing <==> p.flushing || (p.cs == Happy && !loop)) &&
    q.disabled == p.disabled && q.reconfiguring == p.reconfiguring && q.multitable == p.multitable && q.tableLocks == p.tableLocks
  }

  lemma WentDownMeans(p: Proto, ps: ProtoState, loop: bool)
    requires Legal(p) && p.ps != Down && ps in {Stop, Down} && ps != p.ps
    ensures DownEffect(p, WentDown(p, ps, p.cs == Happy && !loop), ps, loop)
  {
  }

  lemma GoneDownKeeps(p: Proto, ps: ProtoState)
    ensures GoneDown(p, ps).grLock == p.grLock && (p.cs == Happy ==> GoneDown(p, ps).cs == Flushing)
  {
  }

  lemma WentDownOk(p: Proto, ps: ProtoState, marked: bool)
    requires Legal(p) && p.ps != Down && ps in {Stop, Down} && ps != p.ps && (marked ==> p.cs == Happy)
    ensures if ps == Down && p.cs == Hungry then Ended(WentDown(p, ps, marked)) else Legal(WentDown(p, ps, marked))
    ensures var q := WentDown(p, ps, marked);
      q.ps == ps && q.disabled == p.disabled && q.reconfiguring == p.reconfiguring && !q.grRecovery && (q.cs == Flushing <==> p.cs != Hungry) && (q.ps == Stop || q.cs == Flushing ==> Settled(q))
  {
  }

  // When no round is running, only the instance that goes down is marked.
  lemma MarkOne(was: Protos, i: nat, q: Proto, flushLoop: bool)
    requires FlushOk(was, flushLoop) && i in was
    ensures !flushLoop && q.cs == Flushing ==> MarkAll(was[i := q]) == was[i := WithMark(q, true)]
    ensures was[i := q] == was[i := WithMark(q, false)]
  {
  }

  lemma PutTwice(m: Protos, i: nat, x: Proto, y: Proto)
    ensures m[i := x][i := y] == m[i := y]
  {
  }

  lemma FlushAt(protos: Protos, i: nat, loop: bool)
    requires FlushOk(protos, loop) && i in protos
    ensures protos[i].cs == Flushing ==> loop
  {
  }

  lemma ButOne(was: Protos, i: nat, q: Proto)
    ensures AllLegal(was) ==> AllLegal(was - {i})
    ensures was[i := q] - {i} == was - {i}
  {
  }

  lemma Unchanged(protos: Protos, i: nat)
    ensures OnlyChanged(protos, protos, i)
  {
  }

  lemma Unaffected(was: Protos, q: Proto, now: Protos, i: nat)
    requires OnlyChanged(was[i := q], now, i)
    ensures OnlyChanged(was, now, i)
  {
  }

  lemma DropLegal(protos: Protos, i: nat, restart: Restart, loop: bool)
    requires AllLegal(protos) && RecoveryOk(protos, restart) && FlushOk(protos, loop)
    ensures AllLegal(protos - {i}) && RecoveryOk(protos - {i}, restart) && FlushOk(protos - {i}, loop)
    ensures OnlyChanged(protos, protos - {i}, i)
  {
  }

  lemma PutRest(was: Protos, i: nat, q: Proto, restart: Restart, loopWas: bool, loop: bool)
    requires RecoveryOk(was, restart) && FlushOk(was, loopWas) && (loopWas ==> loop) && q.cs != Flushing && !q.grRecovery
    ensures RecoveryOk(was[i := q], restart) && FlushOk(was[i := q], loop)
  {
  }

  lemma PutLegal(was: Protos, i: nat, q: Proto, restart: Restart, loopWas: bool, loop: bool)
    requires AllLegal(was - {i}) && RecoveryOk(was, restart) && FlushOk(was, loopWas) && Legal(q)
    requires (loopWas ==> loop) && (q.cs == Flushing ==> loop) && (q.grRecovery ==> restart !in {GrNone, GrDone})
    ensures AllLegal(was[i := q]) && RecoveryOk(was[i := q], restart) && FlushOk(was[i := q], loop)
    ensures OnlyChanged(was, was[i := q], i)
  {
    var now := was[i := q];
    forall j | j in now ensures Legal(now[j]) {
      assert j != i ==> j in was - {i};
    }
  }
  function MarkAll(protos: Protos): Protos {
    map i | i in protos :: if protos[i].cs == Flushing then protos[i].(flushing := true) else protos[i]
  }

  lemma MarkHolders(protos: Protos)
    ensures LockHolders(MarkAll(protos)) == LockHolders(protos)
  {
  }

  lemma LegalAt(protos: Protos, i: nat)
    requires AllLegal(protos) && i in protos
    ensures Legal(protos[i])
  {
  }

  lemma LegalStates(p: Proto)
    requires Legal(p)
    ensures p.ps in {Start, Up} ==> p.cs != Flushing
    ensures p.ps == Up ==> p.cs == Happy
    ensures p.grWait || p.grLock ==> p.grRecovery
    ensures p.flushing ==> p.cs == Flushing
  {
  }

  /* ---------- Rounds of the flush loop ---------- */

  // An instance after its routes have been removed from the tables.
  function Flushed(p: Proto): Proto {
    p.(flushing := false, cs := Hungry)
  }

  lemma FlushedOk(p: Proto)
    requires Legal(p) && p.flushing
    ensures p.ps in {Down, Stop} && p.cs == Flushing && !p.grRecovery
    ensures if p.ps == Down then Ended(Flushed(p)) else Legal(Flushed(p)) && Settled(Flushed(p))
  {
  }

  // Where a round stands: the marked instances are flushed one by one and nothing else changes.
  ghost predicate RoundSoFar(was: Protos, now: Protos) {
    Marked(now) <= Marked(was) &&
    (forall j :: j !in Marked(was) || j in Marked(now) ==> (j in now <==> j in was)) &&
    (forall j :: j in now && j in was && (j !in Marked(was) || j in Marked(now)) ==> now[j] == was[j]) &&
    (forall j :: j in Marked(was) && j !in Marked(now) ==> FlushedAt(was, now, j))
  }

  // A flushed instance that was stopping still exists; one that was down may have started again or be gone.
  ghost predicate FlushedAt(was: Protos, now: Protos, j: nat)
    requires j in was
  {
    (j in now ==> now[j].cs != Flushing && Settled(now[j])) &&
    (was[j].ps == Stop ==> j in now && now[j] == Flushed(was[j]))
  }

  // A round flushes exactly what was marked when it started and marks what has come since then.
  ghost predicate RoundDone(was: Protos, now: Protos) {
    (forall j :: j in Marked(was) ==> FlushedAt(was, now, j)) &&
    (forall j :: j !in Marked(was) ==> (j in now <==> j in was)) &&
    (forall j :: j in now && j in was && j !in Marked(was) ==> now[j] == MarkAll(was)[j])
  }

  lemma RoundStarts(was: Protos)
    ensures RoundSoFar(was, was)
  {
  }

  lemma MarkedAt(protos: Protos, i: nat)
    requires i in Marked(protos)
    ensures i in protos && protos[i].flushing
  {
  }

  lemma MarkedLess(mid: Protos, now: Protos, i: nat)
    requires i in Marked(mid) && OnlyChanged(mid, now, i) && AllLegal(now) && (i in now ==> now[i].cs != Flushing)
    ensures Marked(now) == Marked(mid) - {i}
  {
    hide Legal;
    if i in now {
      LegalStates(now[i]);
    }
  }

  lemma FlushedStays(was: Protos, mid: Protos, now: Protos, i: nat, j: nat)
    requires j in was && OnlyChanged(mid, now, i) && j != i && FlushedAt(was, mid, j)
    ensures FlushedAt(was, now, j)
  {
  }

  lemma RoundGoesOn(was: Protos, mid: Protos, now: Protos, i: nat)
    requires RoundSoFar(was, mid) && i in Marked(mid) && OnlyChanged(mid, now, i)
    requires AllLegal(now) && (i in now ==> now[i].cs != Flushing && Settled(now[i]))
    requires mid[i].ps == Stop ==> i in now && now[i] == Flushed(mid[i])
    ensures RoundSoFar(was, now) && |Marked(now)| < |Marked(mid)|
  {
    hide Legal, Settled, Flushed, AllLegal;
    MarkedLess(mid, now, i);
    CardWith(Marked(mid), i);
    assert FlushedAt(was, now, i);
    hide FlushedAt, Marked;
    forall j | j in Marked(was) && j !in Marked(now) ensures j in was && FlushedAt(was, now, j) {
      if j != i {
        FlushedStays(was, mid, now, i, j);
      }
    }
  }

  lemma RoundEnds(was: Protos, now: Protos)
    requires RoundSoFar(was, now) && Marked(now) == {}
    ensures RoundDone(was, MarkAll(now))
    ensures (forall j :: j in now ==> now[j].cs != Flushing) ==> MarkAll(now) == now
  {
    forall j | j in Marked(was) ensures FlushedAt(was, MarkAll(now), j) {
      assert FlushedAt(was, now, j);
    }
  }

  lemma MarkAllLegal(protos: Protos, restart: Restart)
    requires AllLegal(protos) && RecoveryOk(protos, restart)
    ensures AllLegal(MarkAll(protos)) && RecoveryOk(MarkAll(protos), restart)
    ensures (exists i :: i in protos && protos[i].cs == Flushing) ==>
      exists i :: i in MarkAll(protos) && MarkAll(protos)[i].cs == Flushing
  {
    forall i | i in protos ensures Legal(MarkAll(protos)[i]) {
      assert Legal(protos[i]);
    }
    if i :| i in protos && protos[i].cs == Flushing {
      assert MarkAll(protos)[i].cs == Flushing;
    }
  }

  /* ---------- The end of a graceful restart ---------- */

  // An instance after the recovery: what it postponed has begun.
  function Resumed(p: Proto): Proto {
    var q := p.(grRecovery := false, grWait := false, grLock := false);
    if p.ps == Up && p.grWait then q.(linked := true, es := Feeding) else q
  }

  // An instance that postponed its exports begins to be fed; otherwise only its part in the recovery ends.
  predicate ResumeEffect(p: Proto, q: Proto) {
    !q.grRecovery && !q.grWait && !q.grLock &&
    (p.ps == Up && p.grWait ==> q.es == Feeding && q.linked) &&
    (!(p.ps == Up && p.grWait) ==> q.es == p.es && q.linked == p.linked) &&
    q.ps == p.ps && q.cs == p.cs && q.disabled == p.disabled && q.reconfiguring == p.reconfiguring && q.multitable == p.multitable &&
    q.source == p.source && q.tableLocks == p.tableLocks && q.flushing == p.flushing
  }

  lemma ResumedOk(p: Proto)
    requires Legal(p)
    ensures var q := Resumed(p);
      Legal(q) && !q.grRecovery && !q.grLock && q.cs == p.cs && q.ps == p.ps && (Settled(q) <==> Settled(p))
    ensures p.ps == Up ==> Resumed(p).es != NoExport
    ensures ResumeEffect(p, Resumed(p))
  {
  }

  lemma ResumedLegal(was: Protos, now: Protos, loop: bool)
    requires AllLegal(was) && FlushOk(was, loop) && now.Keys == was.Keys
    requires forall j :: j in now ==> now[j] == Resumed(was[j])
    ensures AllLegal(now) && FlushOk(now, loop) && RecoveryOk(now, GrDone) && |LockHolders(now)| == 0
    ensures forall j :: j in now ==> ResumeEffect(was[j], now[j])
  {
    hide Legal, Resumed, ResumeEffect;
    forall j | j in now
      ensures Legal(now[j]) && !now[j].grRecovery && !now[j].grLock && now[j].cs == was[j].cs && ResumeEffect(was[j], now[j])
    {
      LegalAt(was, j);
      ResumedOk(was[j]);
    }
    assert LockHolders(now) == {};
  }

  /* ---------- Steps that leave all instances settled ---------- */

  predicate Adjusted(p: Proto, q: Proto) {
    q.grLock == p.grLock && (q.cs == Flushing ==> p.cs == Flushing) && q.grRecovery == p.grRecovery && Settled(q)
  }

  lemma AdjustedOk(was: Protos, i: nat, p: Proto, restart: Restart, loop: bool)
    requires AllLegal(was) && RecoveryOk(was, restart) && FlushOk(was, loop) && i in was
    requires (p.cs == Flushing ==> was[i].cs == Flushing) && p.grRecovery == was[i].grRecovery
    ensures (p.cs == Flushing ==> loop) && (p.grRecovery ==> restart !in {GrNone, GrDone})
  {
  }

  lemma FlagsOk(was: Protos, i: nat, p: Proto, restart: Restart, loop: bool)
    requires AllLegal(was) && RecoveryOk(was, restart) && FlushOk(was, loop) && i in was
    requires p == was[i].(disabled := p.disabled, reconfiguring := p.reconfiguring)
    ensures Legal(p) && (p.cs == Flushing ==> loop) && (p.grRecovery ==> restart !in {GrNone, GrDone})
  {
  }

  lemma ReportAdjusts(p: Proto, q: Proto)
    requires Legal(p) && Legal(q) && p.ps in {Start, Up} && q.ps in {Start, Up} && q.grLock == p.grLock && SameInstance(p, q)
    requires Settled(p)
    ensures Adjusted(p, q)
  {
  }

  lemma SettledAt(protos: Protos, i: nat)
    requires AllSettled(protos) && i in protos
    ensures Settled(protos[i])
  {
  }

  lemma OthersSettled(was: Protos, now: Protos, i: nat)
    requires AllSettled(was) && OnlyChanged(was, now, i) && (i in now ==> Settled(now[i]))
    ensures AllSettled(now)
  {
  }

  lemma PutChanges(was: Protos, i: nat, p: Proto)
    ensures OnlyChanged(was, was[i := p], i)
  {
  }

  lemma RoundSettles(was: Protos, now: Protos, pruned: bool)
    requires AllSettled(was) && if pruned then RoundDone(was, now) else now == was
    ensures AllSettled(now)
  {
    if pruned {
      forall j | j in now ensures Settled(now[j]) {
        if j in Marked(was) {
          assert FlushedAt(was, now, j);
        } else {
          assert Settled(was[j]);
        }
      }
    }
  }

  lemma ResumedSettled(was: Protos, now: Protos)
    requires AllSettled(was) && now.Keys == was.Keys
    requires now == was || forall j :: j in now ==> now[j] == Resumed(was[j])
    ensures AllSettled(now)
  {
    forall j | j in now ensures Settled(now[j]) {
      assert Settled(was[j]);
    }
  }

  // After a recovery nobody's exports are postponed any more.
  lemma AllExportAfterRecovery(protos: Protos, i: nat)
    requires AllLegal(protos) && RecoveryOk(protos, GrDone) && i in protos && protos[i].ps == Up
    ensures protos[i].es != NoExport && protos[i].linked
  {
    LegalAt(protos, i);
  }
}
