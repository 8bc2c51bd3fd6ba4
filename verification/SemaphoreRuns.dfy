/** Runs of the blocking core.  Every event is one proc-lock critical section; between two
    events of one task any events of the others may happen, including a release, a teardown
    or the task's own death while it stands between publishing its slot and parking. */
module SemaphoreRuns {
  import opened WakeLatch
  import opened Semaphore
  import opened SemaphoreInvariant
  import opened SemaphoreHandoff

  datatype Step =
    | Create(owner: int, count: int, binary: bool)
    | Destroy(owner: int, semId: int)
    | OwnerDied(pid: int)
    | Enter(pid: int, semId: int, usec: nat)
    | ServingRecheck(pid: int)
    | ParkNow(pid: int)
    | TryLock(pid: int, semId: int)
    | Release(pid: int, semId: int)
    | Kill(pid: int)
    | Recover(pid: int)
    | Spawn(pid: int)
    | WakeTask(pid: int, token: Token)
    | NodeBlock(pid: int, token: Token, timed: bool, usec: nat)
    | WorkerPark(pid: int)
    | MakeReady(pid: int)
    | Dispatch(pid: int)
    | Sleep(pid: int, usec: nat)
    | WaitChild(pid: int)
    | TickTask(pid: int, usec: nat)
    | BeginSignal(pid: int)
    | EndSignal(pid: int, woken: bool)
    | BeginInterrupt(pid: int)
    | EndInterrupt(pid: int, woken: bool)

  predicate IsTask(w: World, pid: int) {
    0 <= pid < |w.k.tasks| == |w.pc| == |w.dying|
  }

  /** The task is executing: it can issue a system call. */
  predicate OnCpu(w: World, pid: int) {
    IsTask(w, pid) && (w.k.tasks[pid].state == Running || w.k.tasks[pid].state == Ready) && w.pc[pid] == Idle
  }

  predicate LiveTask(w: World, pid: int) {
    IsTask(w, pid) && Alive(w.k.tasks[pid])
  }

  predicate AliveState(s: TaskState) {
    s != Unused && s != Zombie
  }

  /** When a step can be taken.  A binary semaphore is released only by its holder, and node
      tokens stay below the kernel address range that semaphore tokens come from. */
  predicate Enabled(w: World, e: Step) {
    Shaped(w) &&
    match e
    case Create(owner, count, _) => owner >= 0 && count <= SEMAPHORE_COUNT_MAX
    case Destroy(owner, _) => owner >= 0
    case OwnerDied(pid) => pid >= 0
    case Enter(pid, _, _) => OnCpu(w, pid)
    case ServingRecheck(pid) => IsTask(w, pid) && w.pc[pid].Window?
    case ParkNow(pid) => IsTask(w, pid) && w.pc[pid].Window?
    case TryLock(pid, _) => OnCpu(w, pid)
    case Release(pid, semId) =>
      OnCpu(w, pid) && (QuitAccepted(w.k, semId) && IsBinary(w.k.sems[semId - 1]) ==> pid in w.held[semId - 1])
    case Kill(pid) => LiveTask(w, pid)
    case Recover(pid) => IsTask(w, pid) && w.dying[pid]
    case Spawn(pid) => IsTask(w, pid) && !Alive(w.k.tasks[pid]) && !w.dying[pid] && w.pc[pid] == Idle
    case WakeTask(pid, _) => IsTask(w, pid)
    case NodeBlock(pid, token, _, _) => OnCpu(w, pid) && token < TABLE_BASE
    case WorkerPark(pid) => OnCpu(w, pid)
    case MakeReady(pid) => LiveTask(w, pid)
    case Dispatch(pid) => LiveTask(w, pid) && w.k.tasks[pid].state == Ready
    case Sleep(pid, _) => OnCpu(w, pid)
    case WaitChild(pid) => OnCpu(w, pid)
    case TickTask(pid, _) => IsTask(w, pid)
    case BeginSignal(pid) => LiveTask(w, pid)
    case EndSignal(pid, _) => OnCpu(w, pid) && AliveState(w.k.tasks[pid].signalSaved)
    case BeginInterrupt(pid) => LiveTask(w, pid)
    case EndInterrupt(pid, _) => OnCpu(w, pid) && AliveState(w.k.tasks[pid].interruptSaved)
  }

  function SetTask(w: World, pid: int, t: Task): World
    requires IsTask(w, pid)
  {
    w.(k := w.k.(tasks := w.k.tasks[pid := t]))
  }

  function SetPc(w: World, pid: int, pc: Pc): World
    requires IsTask(w, pid)
  {
    w.(pc := w.pc[pid := pc])
  }

  /** Book a verdict: an acquired permit is from now on held by `pid`. */
  function Book(w: World, r: (Kernel, Verdict), pid: int, semId: int): World
    requires Shaped(w)
  {
    var w1 := w.(k := r.0);
    if r.1.Acquired? && 1 <= semId <= |w.held|
    then w1.(held := w.held[semId - 1 := w.held[semId - 1] + multiset{pid}]) else w1
  }

  /** The scheduling steps, which touch one task and no semaphore. */
  function TaskStep(t: Task, e: Step): Task {
    match e
    case WakeTask(_, token) => WakeBy(t, token)
    case NodeBlock(_, token, timed, usec) => BlockBy(t, token, timed, usec)
    case WorkerPark(_) => PoolPark(t)
    case MakeReady(_) => t.(state := Ready)
    case Dispatch(_) => t.(state := Running)
    case Sleep(_, usec) => t.(state := Sleeping, sleepCounter := usec)
    case WaitChild(_) => t.(state := Wait)
    case TickTask(_, usec) => Tick(t, usec)
    case BeginSignal(_) => t.(signalSaved := t.state, state := Ready)
    case EndSignal(_, woken) => t.(state := if woken then Ready else t.signalSaved, signalSaved := Unused)
    case BeginInterrupt(_) => t.(interruptSaved := t.state, state := Ready)
    case EndInterrupt(_, woken) => t.(state := if woken then Ready else t.interruptSaved, interruptSaved := Unused)
    case _ => t
  }

  function Next(w: World, e: Step): World
    requires Enabled(w, e)
  {
    match e
    case Create(owner, count, binary) =>
      var i := FreeSemFrom(w.k.sems, 0);
      var n := if binary then 1 else if count < 0 then 0 else count;
      if i < 0 then w else
      w.(k := Alloc(w.k, owner, n, if binary then 1 else SEMAPHORE_COUNT_MAX),
         held := w.held[i := multiset{}], credit := w.credit[i := n])
    case Destroy(owner, semId) =>
      if 1 <= semId <= |w.k.sems| && w.k.sems[semId - 1].creator == owner
      then w.(k := Reset(w.k, semId - 1)) else w
    case OwnerDied(pid) => w.(k := ClearFrom(w.k, pid, 0))
    case Enter(pid, semId, usec) =>
      var r := EnterLocked(w.k, pid, semId);
      var w1 := Book(w, r, pid, semId);
      if r.1.Park? then w1.(pc := w.pc[pid := Window(semId, r.1.slot, usec > 0, usec)]) else w1
    case ServingRecheck(pid) =>
      var pc := w.pc[pid];
      if !(0 <= pc.slot < |w.k.waiters|) then w else
      SetPc(Book(w, EnterServing(w.k, pid, pc.semId, pc.slot), pid, pc.semId), pid, Idle)
    case ParkNow(pid) =>
      var pc := w.pc[pid];
      if pc.semId <= 0 then w else
      SetPc(SetTask(w, pid, BlockBy(w.k.tasks[pid], SemToken(pc.semId - 1), pc.timed, pc.usec)), pid, Idle)
    case TryLock(pid, semId) => Book(w, TryEnter(w.k, pid, semId), pid, semId)
    case Release(pid, semId) =>
      if !QuitAccepted(w.k, semId) then w
      else GiveBack(w, semId - 1, pid).(k := Quit(w.k, pid, semId))
    case Kill(pid) => SetTask(w, pid, w.k.tasks[pid].(state := Zombie)).(dying := w.dying[pid := true])
    case Recover(pid) =>
      var w1 := RecoverW(w, pid);
      w1.(dying := w.dying[pid := false])
    case Spawn(pid) => SetTask(w, pid, Task(Ready, GENERIC, GENERIC, false, 0, Ready, Ready))
    case _ => SetTask(w, e.pid, TaskStep(w.k.tasks[e.pid], e))
  }

  // ----- every step keeps the invariant

  lemma DropOwn(w: World, slot: int, pid: int)
    requires Inv(w)
    requires 0 <= slot < |w.k.waiters| && w.k.waiters[slot].pid == pid ==> !w.k.waiters[slot].granted
    ensures Inv(w.(k := Del(w.k, slot, pid)))
  {
    if Del(w.k, slot, pid) != w.k {
      DropGood(w, slot, -1);
    }
  }

  lemma CreateStep(w: World, e: Step)
    requires Inv(w) && Enabled(w, e) && e.Create?
    ensures Inv(Next(w, e))
  {
    var i := FreeSemFrom(w.k.sems, 0);
    if i >= 0 {
      var w' := Next(w, e);
      assert SlotsOk(w'.k) by {
        forall j | 0 <= j < |w'.k.waiters| ensures SlotOk(w'.k, j) { assert SlotOk(w.k, j); }
      }
      assert forall j :: 0 <= j < |w.k.waiters| ==> w.k.waiters[j].semId != i + 1 by {
        forall j | 0 <= j < |w.k.waiters| ensures w.k.waiters[j].semId != i + 1 { assert SlotOk(w.k, j); }
      }
      forall j | 0 <= j < |w.k.sems| ensures SemGood(w', j, -1) {
        assert SemGood(w, j, -1);
        assert j == i ==> GrantedSet(w'.k.waiters, i + 1) == {};
      }
      forall t | 0 <= t < |w'.k.tasks| && !Alive(w'.k.tasks[t]) && !w'.dying[t]
        ensures NoSlotOf(w'.k.waiters, t) && HoldsNoMutex(w', t)
      {
        assert NoSlotOf(w.k.waiters, t) && HoldsNoMutex(w, t);
      }
    }
  }

  lemma EnterStep(w: World, e: Step)
    requires Inv(w) && Enabled(w, e) && e.Enter?
    ensures Inv(Next(w, e))
  {
    var pid, semId := e.pid, e.semId;
    var idx := semId - 1;
    if ValidIdx(w.k, idx) {
      var slot := Find(w.k.waiters, semId, pid);
      assert SemGood(w, idx, -1);
      if slot >= 0 && w.k.waiters[slot].granted {
        CollectGood(w, slot);
        assert Next(w, e) == AddHeld(w.(k := DropSlot(w.k, slot)), idx, pid);
      } else if w.k.sems[idx].count > 0 {
        AcquireGood(w, idx, pid);
        DropOwn(AddHeld(w.(k := TryAcquire(w.k, idx, pid)), idx, pid), slot, pid);
      } else {
        var f := if slot >= 0 then slot else FreeFrom(w.k.waiters, 0);
        if f >= 0 {
          if slot < 0 {
            AddGood(w, f, semId, pid);
          }
          EnterWindow(if slot >= 0 then w else w.(k := AddAt(w.k, f, semId, pid)), pid, semId, f, e.usec);
        }
      }
    }
  }

  /** Entering the window: the slot is the task's own and not granted yet. */
  lemma EnterWindow(w1: World, pid: int, semId: int, slot: int, usec: nat)
    requires Inv(w1) && OnCpu(w1, pid) && ValidIdx(w1.k, semId - 1)
    requires 0 <= slot < |w1.k.waiters| && Keyed(w1.k.waiters[slot], semId, pid) && !w1.k.waiters[slot].granted
    ensures Inv(w1.(pc := w1.pc[pid := Window(semId, slot, usec > 0, usec)]))
  {
    var w' := w1.(pc := w1.pc[pid := Window(semId, slot, usec > 0, usec)]);
    assert SlotsOk(w'.k) by { assert SlotsOk(w1.k); }
    forall j | 0 <= j < |w'.k.sems| ensures SemGood(w', j, -1) { assert SemGood(w1, j, -1); }
    assert ParkSafe(w') by {
      forall i | 0 <= i < |w'.k.waiters| && w'.k.waiters[i].semId != 0 && w'.k.waiters[i].granted
        ensures SlotOk(w'.k, i)
            && Unparked(w'.k.tasks[w'.k.waiters[i].pid], w'.pc[w'.k.waiters[i].pid], w'.k.waiters[i].semId)
      {
        assert SlotOk(w1.k, i);
        assert Unparked(w1.k.tasks[w1.k.waiters[i].pid], w1.pc[w1.k.waiters[i].pid], w1.k.waiters[i].semId);
        if w1.k.waiters[i].pid == pid && w1.k.waiters[i].semId == semId {
          assert i != slot;
          assert SameKey(w1.k.waiters[i], w1.k.waiters[slot]) && SameKey(w1.k.waiters[slot], w1.k.waiters[i]);
        }
      }
    }
    forall t | 0 <= t < |w'.k.tasks| && !Alive(w'.k.tasks[t]) && !w'.dying[t]
      ensures NoSlotOf(w'.k.waiters, t) && HoldsNoMutex(w', t)
    {
      assert NoSlotOf(w1.k.waiters, t) && HoldsNoMutex(w1, t);
    }
  }

  lemma IdlePc(w: World, pid: int)
    requires Inv(w) && IsTask(w, pid)
    ensures Inv(SetPc(w, pid, Idle))
  {
    var t := w.k.tasks[pid];
    forall i | 0 <= i < |w.k.waiters| && w.k.waiters[i].semId > 0 && w.k.waiters[i].granted && w.k.waiters[i].pid == pid
      ensures Unparked(t, Idle, w.k.waiters[i].semId)
    {
      assert SlotOk(w.k, i);
      assert Unparked(t, w.pc[pid], w.k.waiters[i].semId);
    }
    TaskMoveGood(w, pid, t, Idle, -1);
    assert w.k.tasks[pid := t] == w.k.tasks;
  }

  lemma RecheckStep(w: World, e: Step)
    requires Inv(w) && Enabled(w, e) && e.ServingRecheck?
    ensures Inv(Next(w, e))
  {
    var pid := e.pid;
    var pc := w.pc[pid];
    var slot := pc.slot;
    assert SlotOk(w.k, slot);
    var own := w.k.waiters[slot].semId != 0 && w.k.waiters[slot].pid == pid;
    if own && w.k.waiters[slot].granted {
      CollectGood(w, slot);
      var w1 := AddHeld(w.(k := DropSlot(w.k, slot)), pc.semId - 1, pid);
      IdlePc(w1, pid);
      assert Next(w, e) == SetPc(w1, pid, Idle);
    } else {
      DropOwn(w, slot, pid);
      IdlePc(w.(k := Del(w.k, slot, pid)), pid);
    }
  }

  lemma ParkStep(w: World, e: Step)
    requires Inv(w) && Enabled(w, e) && e.ParkNow?
    ensures Inv(Next(w, e))
  {
    var pid := e.pid;
    var pc := w.pc[pid];
    var t := BlockBy(w.k.tasks[pid], SemToken(pc.semId - 1), pc.timed, pc.usec);
    forall i | 0 <= i < |w.k.waiters| && w.k.waiters[i].semId > 0 && w.k.waiters[i].granted && w.k.waiters[i].pid == pid
      ensures Unparked(t, Idle, w.k.waiters[i].semId)
    {
      assert SlotOk(w.k, i);
      assert Unparked(w.k.tasks[pid], pc, w.k.waiters[i].semId);
      SemTokenInjective(pc.semId - 1, w.k.waiters[i].semId - 1);
    }
    TaskMoveGood(w, pid, t, Idle, -1);
  }

  lemma TryStep(w: World, e: Step)
    requires Inv(w) && Enabled(w, e) && e.TryLock?
    ensures Inv(Next(w, e))
  {
    var pid, semId := e.pid, e.semId;
    if ValidIdx(w.k, semId - 1) {
      var slot := Find(w.k.waiters, semId, pid);
      if slot >= 0 && w.k.waiters[slot].granted {
        CollectGood(w, slot);
        assert Next(w, e) == AddHeld(w.(k := DropSlot(w.k, slot)), semId - 1, pid);
      } else {
        DropOwn(w, slot, pid);
        var w1 := w.(k := Del(w.k, slot, pid));
        if w.k.sems[semId - 1].count > 0 {
          AcquireGood(w1, semId - 1, pid);
          assert Next(w, e) == AddHeld(w1.(k := TryAcquire(w1.k, semId - 1, pid)), semId - 1, pid);
        }
      }
    }
  }

  lemma ReleaseStep(w: World, e: Step)
    requires Inv(w) && Enabled(w, e) && e.Release?
    ensures Inv(Next(w, e))
  {
    if QuitAccepted(w.k, e.semId) {
      var idx := e.semId - 1;
      ReturnedGood(w, idx, e.pid);
      var w1 := GiveBack(w.(k := Returned(w.k, idx, e.pid)), idx, e.pid);
      HandoffGood(w1, idx);
      assert Next(w, e) == w1.(k := Handoff(w1.k, idx));
    }
  }

  lemma DeathSteps(w: World, e: Step)
    requires Inv(w) && Enabled(w, e) && (e.Kill? || e.Recover? || e.Spawn?)
    ensures Inv(Next(w, e))
  {
    var pid := e.pid;
    match e
    case Kill(_) =>
      var w1 := w.(dying := w.dying[pid := true]);
      assert Inv(w1) by {
        forall j | 0 <= j < |w1.k.sems| ensures SemGood(w1, j, -1) { assert SemGood(w, j, -1); }
        forall t | 0 <= t < |w1.k.tasks| && !Alive(w1.k.tasks[t]) && !w1.dying[t]
          ensures NoSlotOf(w1.k.waiters, t) && HoldsNoMutex(w1, t)
        {
          assert NoSlotOf(w.k.waiters, t) && HoldsNoMutex(w, t);
        }
      }
      var t := w.k.tasks[pid].(state := Zombie);
      Unmoved(w1, pid, t);
      TaskMoveGood(w1, pid, t, w.pc[pid], -1);
      assert w.pc[pid := w.pc[pid]] == w.pc;
    case Recover(_) =>
      RecoverWGood(w, pid);
      var w1 := RecoverW(w, pid);
      var w2 := w1.(dying := w.dying[pid := false]);
      forall j | 0 <= j < |w2.k.sems| ensures SemGood(w2, j, -1) { assert SemGood(w1, j, -1); }
      forall t | 0 <= t < |w2.k.tasks| && !Alive(w2.k.tasks[t]) && !w2.dying[t]
        ensures NoSlotOf(w2.k.waiters, t) && HoldsNoMutex(w2, t)
      {
        assert t != pid ==> NoSlotOf(w1.k.waiters, t) && HoldsNoMutex(w1, t);
        assert HoldsNoMutex(w1, t);
      }
    case Spawn(_) =>
      assert NoSlotOf(w.k.waiters, pid);
      TaskMoveGood(w, pid, Task(Ready, GENERIC, GENERIC, false, 0, Ready, Ready), w.pc[pid], -1);
      assert w.pc[pid := w.pc[pid]] == w.pc;
  }

  /** A task whose new state is not BLOCK, with nothing else a grant depends on touched. */
  lemma Unmoved(w: World, pid: int, t: Task)
    requires Inv(w) && IsTask(w, pid)
    requires var o := w.k.tasks[pid]; t == o.(state := t.state) && t.state != Block
    requires Alive(t) || w.dying[pid]
    ensures TaskMoveOk(w, pid, t, w.pc[pid])
  {
    forall i | 0 <= i < |w.k.waiters| && w.k.waiters[i].semId > 0 && w.k.waiters[i].granted && w.k.waiters[i].pid == pid
      ensures Unparked(t, w.pc[pid], w.k.waiters[i].semId)
    {
      assert SlotOk(w.k, i);
      assert Unparked(w.k.tasks[pid], w.pc[pid], w.k.waiters[i].semId);
    }
  }

  predicate IsTaskStep(e: Step) {
    e.WakeTask? || e.NodeBlock? || e.WorkerPark? || e.MakeReady? || e.Dispatch? || e.Sleep? || e.WaitChild? ||
    e.TickTask? || e.BeginSignal? || e.EndSignal? || e.BeginInterrupt? || e.EndInterrupt?
  }

  lemma TaskSteps(w: World, e: Step)
    requires Inv(w) && Enabled(w, e) && IsTaskStep(e)
    ensures Inv(Next(w, e))
  {
    var pid := e.pid;
    var t := w.k.tasks[pid];
    var t' := TaskStep(t, e);
    assert TaskMoveOk(w, pid, t', w.pc[pid]) by {
      forall i | 0 <= i < |w.k.waiters| && w.k.waiters[i].semId > 0 && w.k.waiters[i].granted
          && w.k.waiters[i].pid == pid
        ensures Unparked(t', w.pc[pid], w.k.waiters[i].semId)
      {
        assert SlotOk(w.k, i);
        assert Unparked(t, w.pc[pid], w.k.waiters[i].semId);
      }
    }
    TaskMoveGood(w, pid, t', w.pc[pid], -1);
    assert w.pc[pid := w.pc[pid]] == w.pc;
  }

  lemma StepKeepsInv(w: World, e: Step)
    requires Inv(w) && Enabled(w, e)
    ensures Inv(Next(w, e))
  {
    match e
    case Create(_, _, _) => CreateStep(w, e);
    case Destroy(_, semId) => if 1 <= semId <= |w.k.sems| { ResetGood(w, semId - 1); }
    case OwnerDied(pid) => ClearCreatedGood(w, pid, 0);
    case Enter(_, _, _) => EnterStep(w, e);
    case ServingRecheck(_) => RecheckStep(w, e);
    case ParkNow(_) => ParkStep(w, e);
    case TryLock(_, _) => TryStep(w, e);
    case Release(_, _) => ReleaseStep(w, e);
    case Kill(_) => DeathSteps(w, e);
    case Recover(_) => DeathSteps(w, e);
    case Spawn(_) => DeathSteps(w, e);
    case _ => TaskSteps(w, e);
  }

  // ----- runs

  predicate Initial(w: World) {
    && Shaped(w)
    && (forall i :: 0 <= i < |w.k.sems| ==> w.k.sems[i] == FREE_SEM)
    && (forall i :: 0 <= i < |w.k.waiters| ==> w.k.waiters[i] == Waiter(0, NO_PID, 0, false, 0))
    && (forall t :: 0 <= t < |w.pc| ==> w.pc[t] == Idle && !w.dying[t])
  }

  lemma InitialInv(w: World)
    requires Initial(w)
    ensures Inv(w)
  {
    assert SlotsOk(w.k) by {
      forall i | 0 <= i < |w.k.waiters| ensures SlotOk(w.k, i) {}
    }
    forall j | 0 <= j < |w.k.sems| ensures SemGood(w, j, -1) {}
    forall t | 0 <= t < |w.k.tasks| ensures NoSlotOf(w.k.waiters, t) && HoldsNoMutex(w, t) {}
  }

  /** `es` can be executed from `w`, each step enabled when it is taken. */
  ghost predicate CanRun(w: World, es: seq<Step>)
    decreases |es|
  {
    es == [] || (Enabled(w, es[0]) && CanRun(Next(w, es[0]), es[1..]))
  }

  ghost function After(w: World, es: seq<Step>): World
    requires CanRun(w, es)
    decreases |es|
  {
    if es == [] then w else After(Next(w, es[0]), es[1..])
  }

  lemma {:induction false} RunsKeepInv(w: World, es: seq<Step>)
    requires Inv(w) && CanRun(w, es)
    ensures Inv(After(w, es))
    decreases |es|
  {
    if es != [] {
      StepKeepsInv(w, es[0]);
      RunsKeepInv(Next(w, es[0]), es[1..]);
    }
  }

  /** No task sleeps on a semaphore's token while that semaphore's permit is granted to it. */
  lemma GrantedNeverParked(w0: World, es: seq<Step>, slot: int)
    requires Initial(w0) && CanRun(w0, es)
    requires var w := After(w0, es);
      0 <= slot < |w.k.waiters| && w.k.waiters[slot].semId != 0 && w.k.waiters[slot].granted
    ensures var w := After(w0, es); var s := w.k.waiters[slot];
      0 <= s.pid < |w.k.tasks| && s.semId > 0 &&
      !(w.k.tasks[s.pid].state == Block && w.k.tasks[s.pid].blockBy == SemToken(s.semId - 1))
  {
    InitialInv(w0);
    RunsKeepInv(w0, es);
    assert SlotOk(After(w0, es).k, slot);
  }

  /** Permit conservation and mutual exclusion of a binary semaphore, in every reachable state. */
  lemma MutexConservation(w0: World, es: seq<Step>, idx: nat)
    requires Initial(w0) && CanRun(w0, es)
    requires var w := After(w0, es); ValidIdx(w.k, idx) && IsBinary(w.k.sems[idx])
    ensures Shaped(After(w0, es))
    ensures var w := After(w0, es);
      && w.k.sems[idx].count + |GrantedSet(w.k.waiters, idx + 1)| + |w.held[idx]| == 1
      && (forall p :: p in w.held[idx] ==> p == w.k.sems[idx].occupiedPid)
      && (forall i :: i in GrantedSet(w.k.waiters, idx + 1) ==> w.k.waiters[i].pid == w.k.sems[idx].occupiedPid)
      && (w.k.sems[idx].count == 1 ==> w.k.sems[idx].occupiedPid == NO_PID)
  {
    InitialInv(w0);
    RunsKeepInv(w0, es);
    var w := After(w0, es);
    assert SemGood(w, idx, -1);
    forall i | i in GrantedSet(w.k.waiters, idx + 1) ensures w.k.waiters[i].pid == w.k.sems[idx].occupiedPid {
      assert On(w.k.waiters[i], idx + 1);
    }
  }

  /** The same ledger for every semaphore.  `credit` starts at the initial count, grows by one
      with every release by a task that held no permit, and shrinks only when a dead grantee's
      permit meets a full pool. */
  lemma PermitLedger(w0: World, es: seq<Step>, idx: nat)
    requires Initial(w0) && CanRun(w0, es)
    requires ValidIdx(After(w0, es).k, idx)
    ensures Shaped(After(w0, es))
    ensures var w := After(w0, es);
      w.k.sems[idx].count + |GrantedSet(w.k.waiters, idx + 1)| + |w.held[idx]| == w.credit[idx]
  {
    InitialInv(w0);
    RunsKeepInv(w0, es);
    assert SemGood(After(w0, es), idx, -1);
  }

  /** The permits of a semaphore, wherever they are. */
  ghost function Permits(w: World, idx: nat): int
    requires Shaped(w) && idx < |w.k.sems|
  {
    w.k.sems[idx].count + |GrantedSet(w.k.waiters, idx + 1)| + |w.held[idx]|
  }

  /** Recovering one slot of a dead task loses a permit of its semaphore exactly when the slot was granted
      and the pool already stood at its ceiling, so never of a binary one; no other semaphore loses any. */
  lemma RecoveryLosesExactly(w: World, pid: int, i: int, idx: nat)
    requires Inv(w) && 0 <= i < |w.k.waiters| && w.k.waiters[i].semId != 0 && w.k.waiters[i].pid == pid
    requires ValidIdx(w.k, idx)
    ensures var v := ClearSlotW(w, pid, i); var s := w.k.sems[idx];
      && Shaped(v) && ValidIdx(v.k, idx)
      && Permits(v, idx) == Permits(w, idx)
           - (if w.k.waiters[i].semId == idx + 1 && w.k.waiters[i].granted && s.count == s.maxCount then 1 else 0)
      && (IsBinary(s) ==> Permits(v, idx) == Permits(w, idx))
  {
    var v := ClearSlotW(w, pid, i);
    assert SlotOk(w.k, i);
    var j := w.k.waiters[i].semId - 1;
    assert SemGood(w, idx, -1) && SemGood(w, j, -1);
    if w.k.waiters[i].granted {
      HandoffSems(Ungranted(DropSlot(w.k, i), j, pid), j, idx);
      assert i in GrantedSet(w.k.waiters, j + 1);
    }
    ClearSlotInv(w, pid, i);
    assert SemGood(v, idx, -1);
  }

  /** A dead task whose termination is complete keeps no place and no mutex, so a lock is never
      left with somebody who cannot release it. */
  lemma DeadHoldNothing(w0: World, es: seq<Step>, pid: int, idx: nat)
    requires Initial(w0) && CanRun(w0, es)
    requires var w := After(w0, es);
      IsTask(w, pid) && !Alive(w.k.tasks[pid]) && !w.dying[pid] && ValidIdx(w.k, idx) && IsBinary(w.k.sems[idx])
    ensures var w := After(w0, es); Shaped(w) && NoSlotOf(w.k.waiters, pid) && pid !in w.held[idx]
  {
    InitialInv(w0);
    RunsKeepInv(w0, es);
    assert HoldsNoMutex(After(w0, es), pid);
  }

  /** In every reachable state a permit lies in the pool only when nobody is queued for it; so a
      direct acquisition overtakes no waiter. */
  lemma NoOvertaking(w0: World, es: seq<Step>, pid: int, semId: int)
    requires Initial(w0) && CanRun(w0, es)
    requires var w := After(w0, es); ValidIdx(w.k, semId - 1)
    ensures var k := After(w0, es).k; k.sems[semId - 1].count > 0 ==> NoWaiter(k.waiters, semId)
    ensures var k := After(w0, es).k;
      EnterLocked(k, pid, semId).1.Acquired? && EnterLocked(k, pid, semId).0.sems != k.sems ==>
          NoWaiter(k.waiters, semId)
    ensures var k := After(w0, es).k;
      TryEnter(k, pid, semId).1.Acquired? && TryEnter(k, pid, semId).0.sems != k.sems ==> NoWaiter(k.waiters, semId)
  {
    InitialInv(w0);
    RunsKeepInv(w0, es);
    assert SemGood(After(w0, es), semId - 1, -1);
  }

  /** Coming back after a wake without a permit leaves the task's place in the queue as it was. */
  lemma ReparkKeepsPlace(w: World, pid: int, semId: int, slot: int)
    requires Inv(w) && ValidIdx(w.k, semId - 1) && w.k.sems[semId - 1].count <= 0
    requires 0 <= slot < |w.k.waiters| && Keyed(w.k.waiters[slot], semId, pid) && !w.k.waiters[slot].granted
    ensures EnterLocked(w.k, pid, semId) == (w.k, Park(slot))
  {
    var f := Find(w.k.waiters, semId, pid);
    assert f >= 0;
    if f != slot {
      assert SameKey(w.k.waiters[f], w.k.waiters[slot]);
    }
  }

  // ----- first come, first served

  /** What hand-off does to the queue: the live waiter with the least number gets the permit,
      every slot it removes belonged to a dead task with a smaller or equal number, and all
      other slots stay as they were. */
  lemma {:induction false} HandoffServesOldest(k: Kernel, idx: nat, j: int)
    requires idx < |k.sems| && k.sems[idx].count > 0
    requires 0 <= j < |k.waiters| && Waits(k.waiters[j], idx + 1) && Live(k.tasks, k.waiters[j].pid)
    ensures |Handoff(k, idx).waiters| == |k.waiters|
    ensures exists g :: 0 <= g < |k.waiters| && ServedAt(k, Handoff(k, idx), idx, g)
    decreases WaitingSet(k.waiters, idx + 1)
  {
    HandoffFrame(k, idx);
    var slot := Head(k.waiters, idx + 1);
    if !Live(k.tasks, k.waiters[slot].pid) {
      var k1 := DropSlot(k, slot);
      DropShrinks(k, slot, idx + 1);
      HandoffServesOldest(k1, idx, j);
      var g :| 0 <= g < |k1.waiters| && ServedAt(k1, Handoff(k1, idx), idx, g);
      forall i | 0 <= i < |k.waiters| && i != g ensures SlotFate(k, Handoff(k, idx), idx, g, i) {
        assert SlotFate(k1, Handoff(k1, idx), idx, g, i);
      }
      forall i | 0 <= i < |k.waiters| && Waits(k.waiters[i], idx + 1) && Live(k.tasks, k.waiters[i].pid)
        ensures k.waiters[g].seqNo <= k.waiters[i].seqNo
      {
        assert k1.waiters[i] == k.waiters[i];
      }
      assert ServedAt(k, Handoff(k, idx), idx, g);
    } else {
      forall i | 0 <= i < |k.waiters| && i != slot ensures SlotFate(k, Handoff(k, idx), idx, slot, i) {}
      assert ServedAt(k, Handoff(k, idx), idx, slot);
    }
  }

  /** A slot other than the served one is untouched, or was a dead waiter's and is freed. */
  predicate SlotFate(k: Kernel, k': Kernel, idx: nat, g: int, i: int)
    requires 0 <= g < |k.waiters| && 0 <= i < |k.waiters| == |k'.waiters|
  {
    || k'.waiters[i] == k.waiters[i]
    || (Waits(k.waiters[i], idx + 1) && !Live(k.tasks, k.waiters[i].pid)
        && k.waiters[i].seqNo <= k.waiters[g].seqNo && k'.waiters[i] == Freed(k.waiters[i]))
  }

  ghost predicate ServedAt(k: Kernel, k': Kernel, idx: nat, g: int)
    requires 0 <= g < |k.waiters| == |k'.waiters|
  {
    && Waits(k.waiters[g], idx + 1) && Live(k.tasks, k.waiters[g].pid)
    && k'.waiters[g] == k.waiters[g].(granted := true)
    && (forall i :: 0 <= i < |k.waiters| && Waits(k.waiters[i], idx + 1) && Live(k.tasks, k.waiters[i].pid)
          ==> k.waiters[g].seqNo <= k.waiters[i].seqNo)
    && (forall i :: 0 <= i < |k.waiters| && i != g ==> SlotFate(k, k', idx, g, i))
  }

  function Epoch(w: Waiter): nat {
    w.arrival / SEQ_MODULUS
  }

  ghost predicate Contends(k: Kernel, idx: nat, i: int) {
    0 <= i < |k.waiters| && Waits(k.waiters[i], idx + 1) && Live(k.tasks, k.waiters[i].pid)
  }

  /** Nobody among the live waiters came before `g`. */
  ghost predicate Oldest(k: Kernel, idx: nat, g: int)
    requires 0 <= g < |k.waiters|
  {
    forall i :: Contends(k, idx, i) ==> k.waiters[g].arrival <= k.waiters[i].arrival
  }

  /** Nobody among the live waiters has a smaller 32-bit number than `g`. */
  ghost predicate LeastNumber(k: Kernel, idx: nat, g: int)
    requires 0 <= g < |k.waiters|
  {
    forall i :: Contends(k, idx, i) ==> k.waiters[g].seqNo <= k.waiters[i].seqNo
  }

  /** Nobody among the live waiters arrived in an earlier epoch of the counter than `g`. */
  ghost predicate LeastEpoch(k: Kernel, idx: nat, g: int)
    requires 0 <= g < |k.waiters|
  {
    forall i :: Contends(k, idx, i) ==> Epoch(k.waiters[g]) <= Epoch(k.waiters[i])
  }

  lemma EpochOrder(a: nat, b: nat)
    requires a % SEQ_MODULUS <= b % SEQ_MODULUS
    ensures a <= b <==> a / SEQ_MODULUS <= b / SEQ_MODULUS
  {
  }

  /** The 32-bit arrival counter wraps: the live waiter with the least number is the oldest exactly when
      none of the others arrived in an earlier epoch of the counter. */
  lemma ServesOldestExactly(k: Kernel, idx: nat, g: int)
    requires SlotsOk(k) && Contends(k, idx, g) && LeastNumber(k, idx, g)
    ensures Oldest(k, idx, g) <==> LeastEpoch(k, idx, g)
  {
    assert SlotOk(k, g);
    forall i | Contends(k, idx, i)
      ensures k.waiters[g].arrival <= k.waiters[i].arrival <==> Epoch(k.waiters[g]) <= Epoch(k.waiters[i])
    {
      assert SlotOk(k, i);
      EpochOrder(k.waiters[g].arrival, k.waiters[i].arrival);
    }
  }

  /** In every reachable state a release with somebody live queued hands the permit to the live waiter
      with the least number, who is the oldest exactly when no other arrived in an earlier epoch. */
  lemma ReleaseServesInOrder(w0: World, es: seq<Step>, pid: int, semId: int, j: int) returns (g: int)
    requires Initial(w0) && CanRun(w0, es)
    requires var k := After(w0, es).k; QuitAccepted(k, semId) && Contends(k, semId - 1, j)
    ensures var k := After(w0, es).k; var v := Quit(k, pid, semId); var idx := semId - 1;
      && Contends(k, idx, g) && LeastNumber(k, idx, g)
      && |v.waiters| == |k.waiters| && v.waiters[g] == k.waiters[g].(granted := true)
      && (Oldest(k, idx, g) <==> LeastEpoch(k, idx, g))
  {
    InitialInv(w0);
    RunsKeepInv(w0, es);
    var k, idx := After(w0, es).k, semId - 1;
    assert SemGood(After(w0, es), idx, -1);
    var k1 := Returned(k, idx, pid);
    HandoffServesOldest(k1, idx, j);
    g :| 0 <= g < |k1.waiters| && ServedAt(k1, Handoff(k1, idx), idx, g);
    assert Contends(k, idx, g);
    forall i | Contends(k, idx, i) ensures k.waiters[g].seqNo <= k.waiters[i].seqNo {
      assert Waits(k1.waiters[i], idx + 1) && Live(k1.tasks, k1.waiters[i].pid);
    }
    ServesOldestExactly(k, idx, g);
  }

  // ----- joining runs

  lemma {:induction false} RunConcat(w: World, a: seq<Step>, b: seq<Step>)
    requires CanRun(w, a) && CanRun(After(w, a), b)
    ensures CanRun(w, a + b) && After(w, a + b) == After(After(w, a), b)
    decreases |a|
  {
    if a == [] {
      assert a + b == b;
    } else {
      assert (a + b)[1..] == a[1..] + b;
      RunConcat(Next(w, a[0]), a[1..], b);
    }
  }

  lemma RunOne(w: World, e: Step)
    requires Enabled(w, e)
    ensures CanRun(w, [e]) && After(w, [e]) == Next(w, e)
  {
    assert [e][1..] == [];
  }
}
