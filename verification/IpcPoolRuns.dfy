/** Whole runs of a pool server. */
module IpcPoolRuns {
  import opened Options
  import opened IpcPool
  import opened IpcPoolInvariant

  datatype Event =
    | CallIpc(pid: int, room: Option<int>)
    | End(pid: int, now: nat)
    | Kill(pid: int)
    | Watchdog(usec: nat, frozen: bool)
    | Retire(now: nat)
    | Down
    | New(pid: int, ours: bool, core: nat)
    | Bury(pid: int)
    | Exec(pid: int)
    | Sleep(pid: int)
    | Wake(pid: int)

  /** System calls come from live tasks, calls from tasks outside the server's process. */
  function Next(w: World, e: Event): World {
    match e
    case CallIpc(pid, room) => if Alive(w.tasks, pid) && !w.tasks[pid].ours then Call(w, pid, room).0 else w
    case End(pid, now) => if Alive(w.tasks, pid) then EndServing(w, pid, now) else w
    case Kill(pid) => Terminated(w, pid)
    case Watchdog(usec, frozen) => Tick(w, usec, frozen, |w.slots|)
    case Retire(now) => Shrink(w, now)
    case Down => ServerDown(w)
    case New(pid, ours, core) => Created(w, pid, ours, core)
    case Bury(pid) => Buried(w, pid)
    case Exec(pid) => Execed(w, pid)
    case Sleep(pid) => if Alive(w.tasks, pid) then SetState(w, pid, Blocked) else w
    case Wake(pid) => Woken(w, pid)
  }

  function Runs(w: World, es: seq<Event>): World {
    if es == [] then w else Next(Runs(w, es[..|es| - 1]), es[|es| - 1])
  }

  /** A server just set up, with `n` pool slots and no tasks yet. */
  function Fresh(multiCore: bool, n: nat): World {
    World(multiCore, seq(IPC_CTX_MAX, i => IDLE), 0, seq(n, i => EMPTY), map[], 0, 0)
  }

  lemma FreshInv(multiCore: bool, n: nat)
    ensures Inv(Fresh(multiCore, n), -1)
  {
    OccupiedNone(Fresh(multiCore, n).slots);
  }

  lemma NextInv(w: World, e: Event)
    requires Inv(w, -1)
    ensures Inv(Next(w, e), -1)
  {
    hide Inv, Call, EndServing, Terminated, Tick, Shrink, ServerDown, Created, Buried, Execed, SetState;
    match e
    case CallIpc(pid, room) => if Alive(w.tasks, pid) { CallInv(w, pid, room); }
    case End(pid, now) => if Alive(w.tasks, pid) { EndServingInv(w, pid, now); }
    case Kill(pid) => TerminatedInv(w, pid);
    case Watchdog(usec, frozen) => TickInv(w, usec, frozen, |w.slots|);
    case Retire(now) => ShrinkInv(w, now);
    case Down => ServerDownInv(w);
    case New(pid, ours, core) => CreatedInv(w, pid, ours, core);
    case Bury(pid) => BuriedInv(w, pid);
    case Exec(pid) => ExecedInv(w, pid);
    case Sleep(pid) => if Alive(w.tasks, pid) { SetStateInv(w, -1, pid, Blocked); }
    case Wake(pid) => WokenInv(w, -1, pid);
  }

  /** Every run keeps the invariant. */
  lemma {:induction false} RunsInv(multiCore: bool, n: nat, es: seq<Event>)
    ensures Inv(Runs(Fresh(multiCore, n), es), -1)
    decreases |es|
  {
    hide Inv, Next;
    if es == [] {
      FreshInv(multiCore, n);
    } else {
      RunsInv(multiCore, n, es[..|es| - 1]);
      NextInv(Runs(Fresh(multiCore, n), es[..|es| - 1]), es[|es| - 1]);
    }
  }

  /** `pid` is the worker of request `i`. */
  predicate WorkerOf(w: World, pid: int, i: nat)
    requires i < |w.slots|
  {
    && Alive(w.tasks, pid) && w.tasks[pid].ours
    && w.tasks[pid].serving == Some(i) && w.slots[i].handler == IdOf(w.tasks, pid)
    && w.tasks[pid].core == w.slots[i].core
  }

  /** In every reachable state each request in flight has exactly one live worker, on its client's
      core; the task count is the number of requests in flight. */
  lemma OneWorkerPerRequest(multiCore: bool, n: nat, es: seq<Event>, i: nat, p: int)
    requires i < IPC_CTX_MAX
    ensures var w := Runs(Fresh(multiCore, n), es);
            && |w.slots| == IPC_CTX_MAX && w.taskNum == Occupied(w.slots)
            && (w.slots[i].uid != 0 ==> WorkerOf(w, w.slots[i].handler.pid, i))
            && (p in w.tasks && w.tasks[p].serving == Some(i) ==>
                  w.slots[i].uid != 0 && WorkerOf(w, p, i) && p == w.slots[i].handler.pid)
  {
    RunsInv(multiCore, n, es);
    var w := Runs(Fresh(multiCore, n), es);
    if w.slots[i].uid != 0 {
      assert Bound(w, i);
    }
    if p in w.tasks && w.tasks[p].serving == Some(i) {
      assert Serves(w, p);
    }
  }

  /** A client never has two requests in flight in the per-client mode; a core never has two
      standing members in the per-core mode. */
  lemma PolicyHolds(multiCore: bool, n: nat, es: seq<Event>, i: nat, j: nat)
    requires i != j
    ensures var w := Runs(Fresh(multiCore, n), es);
            !multiCore && i < |w.slots| && j < |w.slots| && w.slots[i].uid != 0 && w.slots[j].uid != 0 ==>
              w.slots[i].client != w.slots[j].client
    ensures var w := Runs(Fresh(multiCore, n), es);
            multiCore && i < |w.pool| && j < |w.pool| && Standing(w, i) && Standing(w, j) ==>
              w.tasks[w.pool[i].pid].core != w.tasks[w.pool[j].pid].core
  {
    RunsInv(multiCore, n, es);
    ModeFixed(multiCore, n, es);
  }

  lemma NextMode(w: World, e: Event)
    requires |w.slots| == IPC_CTX_MAX
    ensures Next(w, e).multiCore == w.multiCore
  {
    match e
    case Watchdog(usec, frozen) => TickMode(w, usec, frozen, |w.slots|);
    case CallIpc(pid, room) =>
    case End(pid, now) =>
    case Kill(pid) =>
    case Retire(now) =>
    case Down =>
    case New(pid, ours, core) =>
    case Bury(pid) =>
    case Exec(pid) =>
    case Sleep(pid) =>
    case Wake(pid) =>
  }

  lemma {:induction false} TickMode(w: World, usec: nat, frozen: bool, n: nat)
    requires n <= |w.slots|
    ensures Tick(w, usec, frozen, n).multiCore == w.multiCore
  {
    if n > 0 {
      TickMode(w, usec, frozen, n - 1);
    }
  }

  lemma {:induction false} ModeFixed(multiCore: bool, n: nat, es: seq<Event>)
    ensures Runs(Fresh(multiCore, n), es).multiCore == multiCore
    decreases |es|
  {
    if es != [] {
      hide Next, Inv;
      ModeFixed(multiCore, n, es[..|es| - 1]);
      RunsInv(multiCore, n, es[..|es| - 1]);
      SlotCount(Runs(Fresh(multiCore, n), es[..|es| - 1]));
      NextMode(Runs(Fresh(multiCore, n), es[..|es| - 1]), es[|es| - 1]);
    }
  }

  lemma SlotCount(w: World)
    requires Inv(w, -1)
    ensures |w.slots| == IPC_CTX_MAX
  {
  }

  /** The watchdog's "worker vanished" case never arises. */
  lemma WorkersNeverVanish(multiCore: bool, n: nat, es: seq<Event>, i: nat)
    requires i < IPC_CTX_MAX
    ensures var w := Runs(Fresh(multiCore, n), es);
            |w.slots| == IPC_CTX_MAX && (w.slots[i].uid != 0 ==> Names(w.tasks, w.slots[i].handler))
  {
    RunsInv(multiCore, n, es);
    var w := Runs(Fresh(multiCore, n), es);
    if w.slots[i].uid != 0 {
      assert Bound(w, i);
    }
  }

  /** When a call finds no worker, the recheck made before parking the client sees the same thing:
      its own request still in flight, or no idle worker on its core. The call loop never spins. */
  lemma CallNeverSpins(w: World, pid: int, room: Option<int>)
    requires Inv(w, -1) && Alive(w.tasks, pid) && !w.multiCore
    requires Admit(w, pid).1 < |w.slots|
    requires Assign(Admit(w, pid).0, Admit(w, pid).1, w.tasks[pid].core, room).1 == None
    ensures var i := Admit(w, pid).1;
            var c := Vacated(Assign(Admit(w, pid).0, i, w.tasks[pid].core, room).0, i);
            ClientBusy(c.slots, IdOf(w.tasks, pid), -1) || FirstIdle(c, w.tasks[pid].core, 0) == |c.pool|
  {
    var (a, i) := Admit(w, pid);
    var core := w.tasks[pid].core;
    var (b, p) := Assign(a, i, core, room);
    var c := Vacated(b, i);
    if ClientBusy(a.slots, a.slots[i].client, i) {
      var j :| 0 <= j < |a.slots| && j != i && InFlightOf(a.slots[j], a.slots[i].client);
      assert InFlightOf(c.slots[j], IdOf(w.tasks, pid));
    } else {
      forall j | 0 <= j < |c.pool| ensures !IdleOn(c, j, core) {
        assert !IdleOn(a, j, core);
      }
    }
  }

  /** Ending touches only the request recorded as the worker's own; a worker whose request was
      aborted ends nothing, whoever uses the slot now. */
  lemma EndTouchesOwnOnly(w: World, pid: int, now: nat, j: nat)
    requires Inv(w, -1) && Alive(w.tasks, pid) && j < |w.slots|
    ensures |EndServing(w, pid, now).slots| == |w.slots|
    ensures EndServing(w, pid, now).slots[j] ==
            (if w.slots[j].uid != 0 && w.slots[j].handler == IdOf(w.tasks, pid) then IDLE else w.slots[j])
  {
    var s := w.tasks[pid].serving;
    if s.Some? {
      assert Serves(w, pid);
    }
    if w.slots[j].uid != 0 {
      assert Bound(w, j);
    }
  }

  /** What a call's answer means. A uid: one slot now holds a fresh request of this client, served by
      a worker that is awake. Anything else: the request table is as it was. */
  lemma CallAnswers(w: World, pid: int, room: Option<int>)
    requires Inv(w, -1) && Alive(w.tasks, pid)
    ensures var (v, a) := Call(w, pid, room);
            match a
            case Uid(u) =>
              var i := Admit(w, pid).1;
              && i < |v.slots| && w.slots[i].uid == 0 && u == w.lastUid + 1 == v.slots[i].uid
              && v.slots[i].client == IdOf(w.tasks, pid) && v.slots[i].core == w.tasks[pid].core
              && v.slots == w.slots[i := v.slots[i]] && Bound(v, i) && v.tasks[v.slots[i].handler.pid].state == Active
            case Retry => v.slots == w.slots && v.taskNum == w.taskNum && w.multiCore
            case Parked => v.slots == w.slots && v.taskNum == w.taskNum && v.tasks[pid].state == Blocked
  {
    hide Inv, Assign, Vacated;
    var (x, i) := Admit(w, pid);
    FreeHere(w, pid);
    if i < |x.slots| {
      AdmitInv(w, pid);
      AssignInv(x, i, w.tasks[pid].core, room);
      AssignAnswers(x, i, w.tasks[pid].core, room);
      var (b, p) := Assign(x, i, w.tasks[pid].core, room);
      if p.Some? {
        BoundHere(b, i);
      } else {
        VacatedBack(w, b, pid);
      }
    }
  }

  lemma FreeHere(w: World, pid: int)
    requires Inv(w, -1) && pid in w.tasks
    ensures |w.slots| == IPC_CTX_MAX && |Admit(w, pid).0.slots| == |w.slots|
  {
  }

  lemma BoundHere(w: World, i: nat)
    requires Inv(w, -1) && i < |w.slots| && w.slots[i].uid != 0
    ensures Bound(w, i)
  {
  }

  lemma AssignAnswers(w: World, i: nat, core: nat, room: Option<int>)
    requires i < |w.slots|
    ensures var (v, p) := Assign(w, i, core, room);
            p.Some? ==> && v.slots == w.slots[i := w.slots[i].(handler := v.slots[i].handler)]
                        && v.slots[i].handler.pid == p.value && p.value in v.tasks && v.tasks[p.value].state == Active
    ensures var (v, p) := Assign(w, i, core, room);
            p == None ==> v.slots == w.slots && v.tasks == w.tasks && v.taskNum == w.taskNum
  {
    hide Swept, HasMember, Count, ClientBusy;
  }

  /** Admitting and then closing the same slot restores the table. */
  lemma VacatedBack(w: World, b: World, pid: int)
    requires Inv(w, -1) && pid in w.tasks && Admit(w, pid).1 < |w.slots|
    requires b.slots == Admit(w, pid).0.slots && b.taskNum == Admit(w, pid).0.taskNum
    ensures Vacated(b, Admit(w, pid).1).taskNum == w.taskNum && Vacated(b, Admit(w, pid).1).slots == w.slots
  {
    assert w.slots[Admit(w, pid).1] == IDLE;
  }

  /** The request in slot `i` after the watchdog's sweep: frozen while its worker is blocked, aged
      otherwise, and released exactly when it has aged past the limit. */
  function AfterSweep(w: World, i: nat, usec: nat, frozen: bool): Request
    requires i < |w.slots|
  {
    var r := w.slots[i];
    if r.uid == 0 then r
    else if frozen || (r.handler.pid in w.tasks && w.tasks[r.handler.pid].state == Blocked) then r.(counter := 0)
    else if r.counter + usec >= IPC_TIMEOUT_USEC then IDLE
    else r.(counter := r.counter + usec)
  }

  lemma TickSlotEffect(v: World, k: nat, usec: nat, frozen: bool)
    requires k < |v.slots| && (v.slots[k].uid != 0 ==> Names(v.tasks, v.slots[k].handler))
    ensures var r := TickSlot(v, k, usec, frozen);
            && r.slots == v.slots[k := AfterSweep(v, k, usec, frozen)] && r.tasks.Keys == v.tasks.Keys
            && forall p :: p in v.tasks ==> r.tasks[p].(serving := v.tasks[p].serving) == v.tasks[p]
  {
  }

  lemma BoundNamed(w: World, i: nat)
    requires Inv(w, -1) && i < |w.slots| && w.slots[i].uid != 0
    ensures Names(w.tasks, w.slots[i].handler)
  {
    assert Bound(w, i);
  }

  lemma {:induction false} WatchdogExact(w: World, usec: nat, frozen: bool, n: nat, i: nat)
    requires Inv(w, -1) && n <= |w.slots| && i < |w.slots|
    ensures var v := Tick(w, usec, frozen, n);
            && v.slots[i] == (if i < n then AfterSweep(w, i, usec, frozen) else w.slots[i])
            && v.tasks.Keys == w.tasks.Keys
            && forall p :: p in w.tasks ==> v.tasks[p].(serving := w.tasks[p].serving) == w.tasks[p]
  {
    hide Inv, TickSlot;
    if n > 0 {
      WatchdogExact(w, usec, frozen, n - 1, i);
      WatchdogExact(w, usec, frozen, n - 1, n - 1);
      TickInv(w, usec, frozen, n - 1);
      var v := Tick(w, usec, frozen, n - 1);
      if v.slots[n - 1].uid != 0 {
        BoundNamed(v, n - 1);
      }
      TickSlotEffect(v, n - 1, usec, frozen);
    }
  }
}
