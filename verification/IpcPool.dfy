/** A pool server's state: fixed request slots, worker threads and the records that tie them.
    Every operation is one kernel entry (a system call or a timer tick); the kernel lock makes each
    one atomic. */
module IpcPool {
  import opened Options

  const IPC_CTX_MAX: nat := 16
  const IPC_TIMEOUT_USEC: nat := 10000000
  const SELF_QUIT_SEC: nat := 3

  datatype Id = Id(pid: int, uuid: nat)

  const NOBODY := Id(0, 0)

  /** A request slot; `uid == 0` marks it idle. `core` is the client's core when it called. */
  datatype Request = Request(uid: nat, counter: nat, client: Id, core: nat, handler: Id)

  const IDLE := Request(0, 0, NOBODY, 0, NOBODY)

  datatype RunState = Active | Blocked | Zombie

  /** A task. `ours`: it is a thread of the server's process. `uuid == 0` once terminated. */
  datatype Task = Task(uuid: nat, ours: bool, core: nat, state: RunState, serving: Option<nat>)

  /** A pool slot; `pid <= 0` marks it empty. */
  datatype Member = Member(pid: int, uuid: nat, idleSec: nat, quit: bool)

  const EMPTY := Member(0, 0, 0, false)

  /** `multiCore` selects the policy: one worker per core, else one request per client at a time. */
  datatype World = World(
    multiCore: bool,
    slots: seq<Request>,
    taskNum: int,
    pool: seq<Member>,
    tasks: map<int, Task>,
    lastUid: nat,
    lastUuid: nat)

  // ----- looking tasks up

  /** `proc_get`: terminated tasks are not found. */
  predicate Alive(tasks: map<int, Task>, pid: int) {
    pid in tasks && tasks[pid].uuid != 0
  }

  predicate Names(tasks: map<int, Task>, id: Id) {
    Alive(tasks, id.pid) && tasks[id.pid].uuid == id.uuid
  }

  function IdOf(tasks: map<int, Task>, pid: int): Id
    requires pid in tasks
  {
    Id(pid, tasks[pid].uuid)
  }

  function Occupied(slots: seq<Request>): nat {
    if slots == [] then 0
    else Occupied(slots[..|slots| - 1]) + if slots[|slots| - 1].uid != 0 then 1 else 0
  }

  // ----- what holds at every kernel boundary

  /** Request `i` has a live worker of the server, on the client's core, that says it serves `i`. */
  predicate Bound(w: World, i: nat)
    requires i < |w.slots|
  {
    var h := w.slots[i].handler;
    Names(w.tasks, h) && w.tasks[h.pid].ours && w.tasks[h.pid].serving == Some(i)
        && w.tasks[h.pid].core == w.slots[i].core
  }

  /** A task that says it serves a slot is the handler that slot records. */
  predicate Serves(w: World, pid: int)
    requires pid in w.tasks && w.tasks[pid].serving.Some?
  {
    var i := w.tasks[pid].serving.value;
    w.tasks[pid].uuid != 0 && i < |w.slots| && w.slots[i].uid != 0 && w.slots[i].handler == IdOf(w.tasks, pid)
  }

  predicate SlotsBound(w: World, k: int) {
    forall i :: 0 <= i < |w.slots| && i != k && w.slots[i].uid != 0 ==> Bound(w, i)
  }

  /** Released slots are reset. */
  predicate IdleBlank(w: World) {
    forall i :: 0 <= i < |w.slots| && w.slots[i].uid == 0 ==> w.slots[i] == IDLE
  }

  predicate WorkersBound(w: World) {
    forall pid :: pid in w.tasks && w.tasks[pid].serving.Some? ==> Serves(w, pid)
  }

  predicate UidsDistinct(w: World) {
    && (forall i :: 0 <= i < |w.slots| ==> w.slots[i].uid <= w.lastUid)
    && (forall i, j :: 0 <= i < j < |w.slots| && w.slots[i].uid != 0 ==> w.slots[i].uid != w.slots[j].uid)
  }

  predicate UuidsDistinct(w: World) {
    && (forall p :: p in w.tasks ==> w.tasks[p].uuid <= w.lastUuid)
    && (forall p, q :: p in w.tasks && q in w.tasks && p != q && w.tasks[p].uuid != 0 ==>
        w.tasks[p].uuid != w.tasks[q].uuid)
  }

  /** In the per-client mode a client has at most one request in flight (slot `k` aside). */
  predicate OnePerClient(w: World, k: int) {
    !w.multiCore ==>
      forall i, j :: 0 <= i < j < |w.slots| && i != k && j != k && w.slots[i].uid != 0 && w.slots[j].uid != 0 ==>
        w.slots[i].client != w.slots[j].client
  }

  /** The slot still resolves to its worker. */
  predicate Holds(w: World, i: nat)
    requires i < |w.pool|
  {
    w.pool[i].pid > 0 && Alive(w.tasks, w.pool[i].pid) && w.tasks[w.pool[i].pid].uuid == w.pool[i].uuid
  }

  predicate PoolDistinct(w: World) {
    && (forall i :: 0 <= i < |w.pool| ==> w.pool[i].uuid <= w.lastUuid)
    && (forall i :: 0 <= i < |w.pool| && Holds(w, i) ==> w.tasks[w.pool[i].pid].ours)
    && (forall i, j :: 0 <= i < j < |w.pool| && Holds(w, i) && Holds(w, j) ==> w.pool[i].pid != w.pool[j].pid)
  }

  predicate Standing(w: World, i: nat)
    requires i < |w.pool|
  {
    Holds(w, i) && !w.pool[i].quit
  }

  /** In the per-core mode every core has at most one member that is not retiring. */
  predicate OnePerCore(w: World) {
    w.multiCore ==>
      forall i, j :: 0 <= i < j < |w.pool| && Standing(w, i) && Standing(w, j) ==>
        w.tasks[w.pool[i].pid].core != w.tasks[w.pool[j].pid].core
  }

  /** Slot `k` (none when negative) is a request admitted but not yet given to a worker. */
  predicate Inv(w: World, k: int) {
    && |w.slots| == IPC_CTX_MAX && w.taskNum == Occupied(w.slots)
    && IdleBlank(w) && SlotsBound(w, k) && WorkersBound(w) && UidsDistinct(w) && UuidsDistinct(w)
    && OnePerClient(w, k) && PoolDistinct(w) && OnePerCore(w)
    && (0 <= k ==> k < |w.slots| && w.slots[k].uid != 0 && w.slots[k].handler == NOBODY)
  }

  // ----- scans

  function FreeSlot(slots: seq<Request>, i: nat): (k: nat)
    requires i <= |slots|
    ensures i <= k <= |slots|
    ensures k < |slots| ==> slots[k].uid == 0
    ensures forall j :: i <= j < k ==> slots[j].uid != 0
    decreases |slots| - i
  {
    if i == |slots| || slots[i].uid == 0 then i else FreeSlot(slots, i + 1)
  }

  predicate InFlightOf(r: Request, client: Id) {
    r.uid != 0 && r.client == client
  }

  /** The client has a request in flight other than slot `skip`. */
  predicate ClientBusy(slots: seq<Request>, client: Id, skip: int) {
    exists i :: 0 <= i < |slots| && i != skip && InFlightOf(slots[i], client)
  }

  /** Resolving slot `i` forgets a worker that is gone. */
  function Resolved(w: World, i: nat): Member
    requires i < |w.pool|
  {
    if Holds(w, i) then w.pool[i] else if w.pool[i].pid <= 0 then w.pool[i] else EMPTY
  }

  /** The pool after slots [0, n) have been resolved. */
  function Swept(w: World, n: nat): (pool: seq<Member>)
    requires n <= |w.pool|
    ensures |pool| == |w.pool|
  {
    seq(|w.pool|, i requires 0 <= i < |w.pool| => if i < n then Resolved(w, i) else w.pool[i])
  }

  predicate IdleOn(w: World, i: nat, core: nat)
    requires i < |w.pool|
  {
    Standing(w, i) && w.tasks[w.pool[i].pid].state == Blocked
    && w.tasks[w.pool[i].pid].serving == None && w.tasks[w.pool[i].pid].core == core
  }

  function FirstIdle(w: World, core: nat, i: nat): (k: nat)
    requires i <= |w.pool|
    ensures i <= k <= |w.pool|
    ensures k < |w.pool| ==> IdleOn(w, k, core)
    ensures forall j :: i <= j < k ==> !IdleOn(w, j, core)
    decreases |w.pool| - i
  {
    if i == |w.pool| || IdleOn(w, i, core) then i else FirstIdle(w, core, i + 1)
  }

  predicate HasMember(w: World, core: nat) {
    exists i :: 0 <= i < |w.pool| && Standing(w, i) && w.tasks[w.pool[i].pid].core == core
  }

  function FirstGone(w: World, i: nat): (k: nat)
    requires i <= |w.pool|
    ensures i <= k <= |w.pool|
    ensures k < |w.pool| ==> !Holds(w, k)
    ensures forall j :: i <= j < k ==> Holds(w, j)
    decreases |w.pool| - i
  {
    if i == |w.pool| || !Holds(w, i) then i else FirstGone(w, i + 1)
  }

  function MemberAt(pool: seq<Member>, id: Id, i: nat): (k: nat)
    requires i <= |pool|
    ensures i <= k <= |pool|
    ensures k < |pool| ==> pool[k].pid == id.pid && pool[k].uuid == id.uuid
    ensures forall j :: i <= j < k ==> !(pool[j].pid == id.pid && pool[j].uuid == id.uuid)
    decreases |pool| - i
  {
    if i == |pool| || (pool[i].pid == id.pid && pool[i].uuid == id.uuid) then i else MemberAt(pool, id, i + 1)
  }

  // ----- the kernel's steps on the records

  /** `proc_ipc_req`: the world with the request in a slot, and the slot; the table length when full. */
  function Admit(w: World, pid: int): (World, nat)
    requires pid in w.tasks
  {
    if w.taskNum >= IPC_CTX_MAX then (w, |w.slots|)
    else
      var i := FreeSlot(w.slots, 0);
      if i == |w.slots| then (w, i)
      else
        (w.(slots := w.slots[i := Request(w.lastUid + 1, 0, IdOf(w.tasks, pid), w.tasks[pid].core, NOBODY)],
            taskNum := w.taskNum + 1,
            lastUid := w.lastUid + 1), i)
  }

  /** A slot goes idle and the count follows. */
  function Vacated(w: World, i: nat): (r: World)
    requires i < |w.slots|
    ensures |r.slots| == |w.slots| && r.tasks == w.tasks
  {
    if w.slots[i].uid == 0 then w
    else w.(slots := w.slots[i := IDLE], taskNum := if w.taskNum > 0 then w.taskNum - 1 else w.taskNum)
  }

  function SetServing(w: World, pid: int, s: Option<nat>): World
    requires pid in w.tasks
  {
    w.(tasks := w.tasks[pid := w.tasks[pid].(serving := s)])
  }

  function SetState(w: World, pid: int, st: RunState): World
    requires pid in w.tasks
  {
    w.(tasks := w.tasks[pid := w.tasks[pid].(state := st)])
  }

  /** `proc_wakeup` of a live task. */
  function Woken(w: World, pid: int): World {
    if Alive(w.tasks, pid) then SetState(w, pid, Active) else w
  }

  /** `ipc_pool_bind_locked`. */
  function BindTo(w: World, pid: int, i: nat): (r: World)
    requires pid in w.tasks && i < |w.slots|
    ensures |r.slots| == |w.slots| && r.tasks.Keys == w.tasks.Keys
  {
    var id := IdOf(w.tasks, pid);
    var m := MemberAt(w.pool, id, 0);
    var pool := if m < |w.pool| then w.pool[m := w.pool[m].(idleSec := 0, quit := false)] else w.pool;
    w.(pool := pool,
       tasks := w.tasks[pid := w.tasks[pid].(serving := Some(i))],
       slots := w.slots[i := w.slots[i].(handler := id)])
  }

  /** `proc_ipc_pool_spawn`: a parked thread pinned to `core` under a pid not in use. */
  function Spawned(w: World, pid: int, core: nat): World {
    w.(tasks := w.tasks[pid := Task(w.lastUuid + 1, true, core, Blocked, None)], lastUuid := w.lastUuid + 1)
  }

  /** `ipc_pool_register_locked`. */
  function Registered(w: World, pid: int): World
    requires pid in w.tasks
  {
    var k := FirstGone(w, 0);
    if k == |w.pool| then w.(pool := Swept(w, |w.pool|))
    else w.(pool := Swept(w, k)[k := Member(pid, w.tasks[pid].uuid, 0, false)])
  }

  function Count(w: World, n: nat): nat
    requires n <= |w.pool|
  {
    if n == 0 then 0 else Count(w, n - 1) + if Holds(w, n - 1) then 1 else 0
  }

  predicate MayGrow(w: World, core: nat) {
    && (!w.multiCore || !HasMember(w, core))
    && Count(w, |w.pool|) < |w.pool|
  }

  /** `ipc_pool_assign`: `room` is the pid a spawn would get, or none when it cannot (no thread
      slot, no stack). The chosen worker, if any, is awake in the result. */
  function Assign(w: World, i: nat, core: nat, room: Option<int>): (r: (World, Option<int>))
    requires i < |w.slots|
    ensures |r.0.slots| == |w.slots| && w.tasks.Keys <= r.0.tasks.Keys
  {
    if !w.multiCore && ClientBusy(w.slots, w.slots[i].client, i) then (w, None)
    else
      var m := FirstIdle(w, core, 0);
      if m < |w.pool| then
        var pid := w.pool[m].pid;
        (Woken(BindTo(w.(pool := Swept(w, m + 1)), pid, i), pid), Some(pid))
      else
        var v := w.(pool := Swept(w, |w.pool|));
        if MayGrow(v, core) && room.Some? && room.value > 0 && room.value !in v.tasks then
          var s := Registered(Spawned(v, room.value, core), room.value);
          (Woken(BindTo(s, room.value, i), room.value), Some(room.value))
        else (v, None)
  }

  datatype Answer = Uid(uid: nat) | Retry | Parked

  /** `proc_ipc_call` on a pool server that is enabled, from a task of another process. */
  function Call(w: World, pid: int, room: Option<int>): (World, Answer)
    requires pid in w.tasks
  {
    var (a, i) := Admit(w, pid);
    if i >= |a.slots| then (SetState(w, pid, Blocked), Parked)
    else
      var (b, worker) := Assign(a, i, w.tasks[pid].core, room);
      if worker.Some? then (b, Uid(b.slots[i].uid))
      else
        var c := Vacated(b, i);
        if w.multiCore then (c, Retry) else (SetState(c, pid, Blocked), Parked)
  }

  /** `proc_ipc_task_abort`: detach the worker, free the slot. */
  function Aborted(w: World, i: nat): (r: World)
    requires i < |w.slots|
    ensures |r.slots| == |w.slots| && r.tasks.Keys == w.tasks.Keys
  {
    if w.slots[i].uid == 0 then w
    else
      var h := w.slots[i].handler;
      var d := if Names(w.tasks, h) && w.tasks[h.pid].serving == Some(i) then SetServing(w, h.pid, None) else w;
      Vacated(d, i)
  }

  /** `proc_terminate` of a task (a worker's request is aborted with it). */
  function Terminated(w: World, pid: int): World {
    if !Alive(w.tasks, pid) then w
    else
      var s := w.tasks[pid].serving;
      var a := if w.tasks[pid].ours && s.Some? && s.value < |w.slots| then Aborted(w, s.value) else w;
      a.(tasks := a.tasks[pid := a.tasks[pid].(uuid := 0, state := Zombie, serving := None)])
  }

  /** `proc_ipc_pool_park`: block, stamp the idle time, and leave when marked to quit. */
  function Park(w: World, pid: int, now: nat): World
    requires pid in w.tasks
  {
    var id := IdOf(w.tasks, pid);
    var m := MemberAt(w.pool, id, 0);
    var b := SetState(w, pid, Blocked);
    if m == |w.pool| then b
    else if w.pool[m].quit then Terminated(b.(pool := b.pool[m := EMPTY]), pid)
    else b.(pool := b.pool[m := b.pool[m].(idleSec := now)])
  }

  /** `ipc_end_multi`: finish the request recorded as this worker's own, then park or exit. */
  function EndServing(w: World, pid: int, now: nat): World
    requires pid in w.tasks
  {
    var id := IdOf(w.tasks, pid);
    var s := w.tasks[pid].serving;
    var a := SetServing(w, pid, None);
    var b := if s.Some? && s.value < |w.slots| && w.slots[s.value].uid != 0 && w.slots[s.value].handler == id
             then Vacated(a, s.value) else a;
    if MemberAt(w.pool, id, 0) < |w.pool| then Park(b, pid, now)
    else if w.tasks[pid].ours then Terminated(b, pid)
    else b
  }

  /** One slot of the watchdog's sweep. `frozen`: the server's main context is in an interrupt. */
  function TickSlot(w: World, i: nat, usec: nat, frozen: bool): (r: World)
    requires i < |w.slots|
    ensures |r.slots| == |w.slots|
  {
    var r := w.slots[i];
    if r.uid == 0 then w
    else if !Names(w.tasks, r.handler) then Aborted(w, i)
    else if frozen || w.tasks[r.handler.pid].state == Blocked then w.(slots := w.slots[i := r.(counter := 0)])
    else
      var aged := w.(slots := w.slots[i := r.(counter := r.counter + usec)]);
      if r.counter + usec >= IPC_TIMEOUT_USEC then Aborted(aged, i) else aged
  }

  function Tick(w: World, usec: nat, frozen: bool, n: nat): (r: World)
    requires n <= |w.slots|
    ensures |r.slots| == |w.slots|
  {
    if n == 0 then w else TickSlot(Tick(w, usec, frozen, n - 1), n - 1, usec, frozen)
  }

  predicate Tired(w: World, i: nat, now: nat)
    requires i < |w.pool|
  {
    Standing(w, i) && w.tasks[w.pool[i].pid].state == Blocked && w.tasks[w.pool[i].pid].serving == None
    && w.pool[i].idleSec != 0 && now >= w.pool[i].idleSec + SELF_QUIT_SEC
  }

  /** The last tired member, scanning down from `n`; `|pool|` when there is none. */
  function LastTired(w: World, now: nat, n: nat): (k: nat)
    requires n <= |w.pool|
    ensures k < n || k == |w.pool|
    ensures k < |w.pool| ==> Tired(w, k, now)
    ensures forall j :: (if k < n then k else -1) < j < n ==> !Tired(w, j, now)
  {
    if n == 0 then |w.pool| else if Tired(w, n - 1, now) then n - 1 else LastTired(w, now, n - 1)
  }

  /** `proc_ipc_pool_shrink`: mark one tired member to quit and wake it. */
  function Shrink(w: World, now: nat): World {
    var v := w.(pool := Swept(w, |w.pool|));
    var k := LastTired(v, now, |v.pool|);
    if k == |v.pool| then v
    else Woken(v.(pool := v.pool[k := v.pool[k].(quit := true)]), v.pool[k].pid)
  }

  /** Server teardown: every thread of the server dies and every slot is cleared. */
  function ServerDown(w: World): World {
    w.(slots := seq(|w.slots|, i => IDLE),
       taskNum := 0,
       tasks := map pid | pid in w.tasks ::
         if w.tasks[pid].ours then w.tasks[pid].(uuid := 0, state := Zombie, serving := None) else w.tasks[pid])
  }

  /** A task of any kind is created under an unused pid. */
  function Created(w: World, pid: int, ours: bool, core: nat): World {
    if pid in w.tasks || pid <= 0 then w
    else w.(tasks := w.tasks[pid := Task(w.lastUuid + 1, ours, core, Active, None)], lastUuid := w.lastUuid + 1)
  }

  /** A reaped task's pid becomes free again. */
  function Buried(w: World, pid: int): World {
    if pid in w.tasks && w.tasks[pid].uuid == 0 then w.(tasks := w.tasks - {pid}) else w
  }

  /** `exec` of a client: a new identity in the same task. */
  function Execed(w: World, pid: int): World {
    if Alive(w.tasks, pid) && !w.tasks[pid].ours then
      w.(tasks := w.tasks[pid := w.tasks[pid].(uuid := w.lastUuid + 1)], lastUuid := w.lastUuid + 1)
    else w
  }
}
