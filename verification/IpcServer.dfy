/** The pool server's operations as the kernel runs them, loop by loop over its tables, proved
    against the functions of module IpcPool. */
module IpcServer {
  import opened Options
  import opened IpcPool
  import opened IpcPoolInvariant

  lemma SweepStep(w: World, i: nat)
    requires i < |w.pool|
    ensures Swept(w, i)[i := Resolved(w, i)] == Swept(w, i + 1)
  {
  }

  lemma SweepNone(w: World)
    ensures Swept(w, 0) == w.pool
  {
  }

  /** Looking a slot up again after a sweep finds the same worker. */
  lemma SweptHolds(w: World, n: nat, i: nat)
    requires n <= |w.pool| && i < |w.pool|
    ensures var v := w.(pool := Swept(w, n));
            && (Holds(v, i) <==> Holds(w, i))
            && (Holds(w, i) ==> v.pool[i] == w.pool[i])
            && Resolved(v, i) == Resolved(w, i)
  {
  }

  class Server {
    const multiCore: bool
    var slots: seq<Request>
    var taskNum: int
    var pool: seq<Member>
    var tasks: map<int, Task>
    var lastUid: nat
    var lastUuid: nat

    ghost function View(): World
      reads this
    {
      World(multiCore, slots, taskNum, pool, tasks, lastUid, lastUuid)
    }

    constructor (perCore: bool, n: nat)
      ensures View() == World(perCore, seq(IPC_CTX_MAX, i => IDLE), 0, seq(n, i => EMPTY), map[], 0, 0)
    {
      multiCore := perCore;
      slots, taskNum, pool, tasks := seq(IPC_CTX_MAX, i => IDLE), 0, seq(n, i => EMPTY), map[];
      lastUid, lastUuid := 0, 0;
    }

    /** A task appears, a client or one of the server's own. */
    method NewTask(pid: int, ours: bool, core: nat)
      modifies `tasks, `lastUuid
      ensures View() == Created(old(View()), pid, ours, core)
    {
      if pid in tasks || pid <= 0 {
        return;
      }
      lastUuid := lastUuid + 1;
      tasks := tasks[pid := Task(lastUuid, ours, core, Active, None)];
    }

    /** Its pid is free again once it is reaped. */
    method BuryTask(pid: int)
      modifies `tasks
      ensures View() == Buried(old(View()), pid)
    {
      if pid in tasks && tasks[pid].uuid == 0 {
        tasks := tasks - {pid};
      }
    }

    /** `proc_ipc_req`. */
    method AdmitRequest(pid: int) returns (i: nat)
      requires pid in tasks
      modifies `slots, `taskNum, `lastUid
      ensures (View(), i) == Admit(old(View()), pid)
    {
      i := |slots|;
      if taskNum >= IPC_CTX_MAX {
        return;
      }
      i := 0;
      while i < |slots| && slots[i].uid != 0
        invariant i <= |slots| && FreeSlot(slots, i) == FreeSlot(slots, 0)
      {
        i := i + 1;
      }
      if i == |slots| {
        return;
      }
      lastUid := lastUid + 1;
      slots := slots[i := Request(lastUid, 0, Id(pid, tasks[pid].uuid), tasks[pid].core, NOBODY)];
      taskNum := taskNum + 1;
    }

    /** `ipc_server_client_busy_locked`. */
    method HasOther(client: Id, skip: int) returns (busy: bool)
      ensures busy == ClientBusy(slots, client, skip)
    {
      var i := 0;
      busy := false;
      while i < |slots|
        invariant 0 <= i <= |slots|
        invariant forall j :: 0 <= j < i && j != skip ==> !InFlightOf(slots[j], client)
      {
        if i != skip && slots[i].uid != 0 && slots[i].client == client {
          assert InFlightOf(slots[i], client);
          busy := true;
          return;
        }
        i := i + 1;
      }
    }

    /** `ipc_pool_slot_worker`: the worker of slot `i`, or 0; a stale slot is emptied. */
    method SlotWorker(i: nat) returns (pid: int)
      requires i < |pool|
      modifies `pool
      ensures pool == old(pool)[i := Resolved(old(View()), i)]
      ensures pid == if Holds(old(View()), i) then old(pool)[i].pid else 0
      ensures pid > 0 ==> Holds(View(), i) && pool[i] == old(pool)[i]
    {
      if pool[i].pid <= 0 {
        return 0;
      }
      if pool[i].pid !in tasks || tasks[pool[i].pid].uuid == 0 || tasks[pool[i].pid].uuid != pool[i].uuid {
        pool := pool[i := EMPTY];
        return 0;
      }
      return pool[i].pid;
    }

    /** `ipc_pool_bind_locked`. */
    method Bind(pid: int, i: nat)
      requires pid in tasks && i < |slots|
      modifies `pool, `tasks, `slots
      ensures View() == BindTo(old(View()), pid, i)
    {
      var m := 0;
      while m < |pool| && !(pool[m].pid == pid && pool[m].uuid == tasks[pid].uuid)
        invariant 0 <= m <= |pool|
        invariant MemberAt(pool, IdOf(tasks, pid), m) == MemberAt(pool, IdOf(tasks, pid), 0)
      {
        m := m + 1;
      }
      if m < |pool| {
        pool := pool[m := pool[m].(idleSec := 0, quit := false)];
      }
      slots := slots[i := slots[i].(handler := Id(pid, tasks[pid].uuid))];
      tasks := tasks[pid := tasks[pid].(serving := Some(i))];
    }

    /** `ipc_pool_pick_idle_locked`, up to the bind: the slot of an idle worker on `core`. */
    method PickIdle(core: nat) returns (m: nat)
      modifies `pool
      ensures m == FirstIdle(old(View()), core, 0)
      ensures pool == Swept(old(View()), if m < |old(pool)| then m + 1 else m)
      ensures m < |pool| ==> Holds(old(View()), m) && pool[m] == old(pool)[m]
    {
      ghost var w := View();
      m := 0;
      SweepNone(w);
      while m < |pool|
        invariant m <= |pool| == |w.pool| && View() == w.(pool := Swept(w, m))
        invariant FirstIdle(w, core, m) == FirstIdle(w, core, 0)
      {
        SweptHolds(w, m, m);
        SweepStep(w, m);
        var pid := SlotWorker(m);
        if pid > 0 && !pool[m].quit && tasks[pid].state == Blocked && tasks[pid].serving == None
           && tasks[pid].core == core
        {
          assert IdleOn(w, m, core);
          return;
        }
        m := m + 1;
      }
    }

    /** `ipc_pool_core_member_locked` on a pool already swept. */
    method CoreMember(core: nat) returns (found: bool)
      requires forall i :: 0 <= i < |pool| ==> Resolved(View(), i) == pool[i]
      modifies `pool
      ensures View() == old(View()) && found == HasMember(View(), core)
    {
      ghost var w := View();
      var i := 0;
      while i < |pool|
        invariant 0 <= i <= |pool| && View() == w
        invariant forall j :: 0 <= j < i ==> !(Standing(w, j) && tasks[pool[j].pid].core == core)
      {
        var pid := SlotWorker(i);
        if pid > 0 && !pool[i].quit && tasks[pid].core == core {
          assert Standing(w, i);
          return true;
        }
        i := i + 1;
      }
      return false;
    }

    /** `ipc_pool_count_locked` on a pool already swept. */
    method CountMembers() returns (n: nat)
      requires forall i :: 0 <= i < |pool| ==> Resolved(View(), i) == pool[i]
      modifies `pool
      ensures View() == old(View()) && n == Count(View(), |pool|)
    {
      ghost var w := View();
      var i := 0;
      n := 0;
      while i < |pool|
        invariant 0 <= i <= |pool| && View() == w && n == Count(w, i)
      {
        var pid := SlotWorker(i);
        if pid > 0 {
          n := n + 1;
        }
        i := i + 1;
      }
    }

    /** `ipc_pool_register_locked`. */
    method Register(pid: int)
      requires pid in tasks
      modifies `pool
      ensures View() == Registered(old(View()), pid)
    {
      ghost var w := View();
      var i := 0;
      SweepNone(w);
      while i < |pool|
        invariant 0 <= i <= |pool| == |w.pool| && View() == w.(pool := Swept(w, i))
        invariant FirstGone(w, i) == FirstGone(w, 0)
      {
        SweptHolds(w, i, i);
        SweepStep(w, i);
        var worker := SlotWorker(i);
        if worker <= 0 {
          pool := pool[i := Member(pid, tasks[pid].uuid, 0, false)];
          assert pool == Swept(w, i)[i := Member(pid, tasks[pid].uuid, 0, false)];
          return;
        }
        i := i + 1;
      }
    }

    method WakeUp(pid: int)
      modifies `tasks
      ensures View() == Woken(old(View()), pid)
    {
      if pid in tasks && tasks[pid].uuid != 0 {
        tasks := tasks[pid := tasks[pid].(state := Active)];
      }
    }

    /** `ipc_pool_assign`: pick a parked worker on the client's core, else grow there. */
    method AssignWorker(i: nat, core: nat, room: Option<int>) returns (worker: Option<int>)
      requires i < |slots|
      modifies `slots, `pool, `tasks, `lastUuid
      ensures (View(), worker) == Assign(old(View()), i, core, room)
    {
      hide Swept, BindTo, Registered, FirstIdle;
      ghost var w := View();
      worker := None;
      if !multiCore {
        var busy := HasOther(slots[i].client, i);
        if busy {
          return;
        }
      }
      var m := PickIdle(core);
      if m < |pool| {
        var pid := pool[m].pid;
        Bind(pid, i);
        WakeUp(pid);
        return Some(pid);
      }
      SweptStable(w);
      var member := false;
      if multiCore {
        member := CoreMember(core);
      }
      if !member {
        var n := CountMembers();
        if n < |pool| && room.Some? && room.value > 0 && room.value !in tasks {
          lastUuid := lastUuid + 1;
          tasks := tasks[room.value := Task(lastUuid, true, core, Blocked, None)];
          Register(room.value);
          Bind(room.value, i);
          WakeUp(room.value);
          return room;
        }
      }
    }

    /** `proc_ipc_close`. */
    method Close(i: nat)
      requires i < |slots|
      modifies `slots, `taskNum
      ensures View() == Vacated(old(View()), i)
    {
      if slots[i].uid != 0 {
        slots := slots[i := IDLE];
        if taskNum > 0 {
          taskNum := taskNum - 1;
        }
      }
    }

    /** `proc_ipc_call` for a pool server. */
    method CallPool(pid: int, room: Option<int>) returns (answer: Answer)
      requires pid in tasks
      modifies this
      ensures (View(), answer) == Call(old(View()), pid, room)
    {
      hide Admit, Assign, Vacated;
      ghost var w := View();
      var core := tasks[pid].core;
      AdmitShape(w, pid);
      var i := AdmitRequest(pid);
      if i >= |slots| {
        tasks := tasks[pid := tasks[pid].(state := Blocked)];
        return Parked;
      }
      var worker := AssignWorker(i, core, room);
      if worker.Some? {
        return Uid(slots[i].uid);
      }
      Close(i);
      if multiCore {
        return Retry;
      }
      tasks := tasks[pid := tasks[pid].(state := Blocked)];
      return Parked;
    }

    /** `proc_ipc_task_abort`. */
    method Abort(i: nat)
      requires i < |slots|
      modifies `slots, `taskNum, `tasks
      ensures View() == Aborted(old(View()), i)
    {
      if slots[i].uid == 0 {
        return;
      }
      var h := slots[i].handler;
      if h.pid in tasks && tasks[h.pid].uuid != 0 && tasks[h.pid].uuid == h.uuid && tasks[h.pid].serving == Some(i) {
        tasks := tasks[h.pid := tasks[h.pid].(serving := None)];
      }
      Close(i);
    }

    /** `proc_terminate`, the part that concerns this server. */
    method Terminate(pid: int)
      modifies `slots, `taskNum, `tasks
      ensures View() == Terminated(old(View()), pid)
    {
      if pid !in tasks || tasks[pid].uuid == 0 {
        return;
      }
      if tasks[pid].ours && tasks[pid].serving.Some? && tasks[pid].serving.value < |slots| {
        Abort(tasks[pid].serving.value);
      }
      tasks := tasks[pid := tasks[pid].(uuid := 0, state := Zombie, serving := None)];
    }

    /** `proc_ipc_pool_park`. */
    method ParkWorker(pid: int, now: nat)
      requires pid in tasks
      modifies `slots, `taskNum, `tasks, `pool
      ensures View() == Park(old(View()), pid, now)
    {
      ghost var w := View();
      tasks := tasks[pid := tasks[pid].(state := Blocked)];
      var m := 0;
      while m < |pool| && !(pool[m].pid == pid && pool[m].uuid == tasks[pid].uuid)
        invariant 0 <= m <= |pool|
        invariant MemberAt(pool, IdOf(w.tasks, pid), m) == MemberAt(pool, IdOf(w.tasks, pid), 0)
      {
        m := m + 1;
      }
      if m < |pool| {
        if pool[m].quit {
          pool := pool[m := EMPTY];
          Terminate(pid);
        } else {
          pool := pool[m := pool[m].(idleSec := now)];
        }
      }
    }

    /** `ipc_end_multi` with `proc_ipc_finish_task`. */
    method EndMulti(pid: int, now: nat)
      requires pid in tasks
      modifies `slots, `taskNum, `tasks, `pool
      ensures View() == EndServing(old(View()), pid, now)
    {
      hide Park, Terminated;
      ghost var w := View();
      var id := Id(pid, tasks[pid].uuid);
      var s := tasks[pid].serving;
      tasks := tasks[pid := tasks[pid].(serving := None)];
      var m := 0;
      while m < |pool| && !(pool[m].pid == pid && pool[m].uuid == tasks[pid].uuid)
        invariant 0 <= m <= |pool|
        invariant MemberAt(pool, id, m) == MemberAt(pool, id, 0)
      {
        m := m + 1;
      }
      if s.Some? && s.value < |slots| && slots[s.value].uid != 0 && slots[s.value].handler == id {
        Close(s.value);
      }
      if m < |pool| {
        ParkWorker(pid, now);
      } else if tasks[pid].ours {
        Terminate(pid);
      }
    }

    /** `renew_ipc_multi_counter`. */
    method WatchdogTick(usec: nat, frozen: bool)
      modifies `slots, `taskNum, `tasks
      ensures View() == Tick(old(View()), usec, frozen, |old(slots)|)
    {
      ghost var w := View();
      var i := 0;
      while i < |slots|
        invariant 0 <= i <= |slots| == |w.slots| && View() == Tick(w, usec, frozen, i)
      {
        var r := slots[i];
        if r.uid != 0 {
          if r.handler.pid !in tasks || tasks[r.handler.pid].uuid == 0 || tasks[r.handler.pid].uuid != r.handler.uuid {
            Abort(i);
          } else if frozen || tasks[r.handler.pid].state == Blocked {
            slots := slots[i := r.(counter := 0)];
          } else {
            slots := slots[i := r.(counter := r.counter + usec)];
            if r.counter + usec >= IPC_TIMEOUT_USEC {
              Abort(i);
            }
          }
        }
        i := i + 1;
      }
    }

    /** `proc_ipc_pool_shrink`. */
    method ShrinkPool(now: nat)
      modifies `pool, `tasks
      ensures View() == Shrink(old(View()), now)
    {
      hide Swept;
      ghost var w := View();
      SweepNone(w);
      var i := 0;
      while i < |pool|
        invariant 0 <= i <= |pool| == |w.pool| && View() == w.(pool := Swept(w, i))
      {
        SweptHolds(w, i, i);
        SweepStep(w, i);
        var pid := SlotWorker(i);
        i := i + 1;
      }
      SweptStable(w);
      ghost var v := View();
      i := |pool|;
      while i > 0
        invariant 0 <= i <= |pool| && View() == v
        invariant LastTired(v, now, i) == LastTired(v, now, |v.pool|)
      {
        var pid := SlotWorker(i - 1);
        assert pool == v.pool;
        if pid > 0 && !pool[i - 1].quit && tasks[pid].state == Blocked && tasks[pid].serving == None
           && pool[i - 1].idleSec != 0 && now >= pool[i - 1].idleSec + SELF_QUIT_SEC
        {
          assert Tired(v, i - 1, now);
          pool := pool[i - 1 := pool[i - 1].(quit := true)];
          WakeUp(pid);
          return;
        }
        i := i - 1;
      }
    }
  }

  /** A swept pool resolves to itself. */
  lemma SweptStable(w: World)
    ensures var v := w.(pool := Swept(w, |w.pool|)); forall i :: 0 <= i < |v.pool| ==> Resolved(v, i) == v.pool[i]
  {
    var v := w.(pool := Swept(w, |w.pool|));
    forall i | 0 <= i < |v.pool| ensures Resolved(v, i) == v.pool[i] {
      SweptHolds(w, |w.pool|, i);
    }
  }

  lemma AdmitShape(w: World, pid: int)
    requires pid in w.tasks
    ensures |Admit(w, pid).0.slots| == |w.slots| && Admit(w, pid).0.tasks == w.tasks
    ensures Admit(w, pid).1 >= |w.slots| ==> Admit(w, pid).0 == w
  {
  }
}
