/** Replies: where a server's answer is put, when a client may take it, and what becomes of it when
    requests time out, servers die, slots are reused and contexts are saved and restored.
    Each operation is one kernel entry, made atomic by the kernel lock. */
module IpcReply {
  import opened Options

  type Payload = seq<nat>

  datatype Id = Id(pid: int, uuid: nat)

  datatype ReplyState = Idle | Busy | Returned

  /** A reply cell: one per task, one per process for its interrupt handler, and the snapshots taken
      when a context is hijacked. `of` records whose package the data is, 0 for none. */
  datatype Cell = Cell(uid: nat, state: ReplyState, data: Payload, of: nat)

  const CLEARED := Cell(0, Idle, [], 0)

  /** A request slot; `uid == 0` marks it idle. In a pool server `handler` is the worker bound to it. */
  datatype Request = Request(uid: nat, client: Id, intr: bool, noReply: bool, handler: Id)

  const IDLE := Request(0, Id(0, 0), false, false, Id(0, 0))

  /** A server's slots; a single-task server serves the slot at `head` only. */
  datatype Server = Server(pool: bool, slots: seq<Request>, head: nat)

  /** `uuid == 0` once terminated. `main`: the process's own context, not one of its threads. */
  datatype Task = Task(uuid: nat, space: nat, main: bool, cell: Cell)

  /** A process's shared part. The snapshots are those of its signal, serving and interrupt contexts. */
  datatype Space = Space(inInterrupt: bool, interruptCell: Cell, saved: map<nat, Cell>)

  /** `home` records the process of every identity ever given out, `issuer` the client of every
      request ever made, `stored` the packages SET_RETURN stored while serving a request and `bare`
      the requests it answered without a package. */
  datatype World = World(
    servers: map<nat, Server>,
    tasks: map<int, Task>,
    spaces: map<nat, Space>,
    lastUid: nat,
    lastUuid: nat,
    home: map<nat, nat>,
    issuer: map<nat, Id>,
    stored: map<nat, set<Payload>>,
    bare: set<nat>)

  predicate Alive(w: World, id: Id) {
    id.pid in w.tasks && w.tasks[id.pid].uuid != 0 && w.tasks[id.pid].uuid == id.uuid
        && w.tasks[id.pid].space in w.spaces
  }

  /** Packages stored for a request so far. */
  function Packages(w: World, uid: nat): set<Payload> {
    if uid in w.stored then w.stored[uid] else {}
  }

  /** The process that issued request `uid`. */
  predicate IssuedBy(w: World, uid: nat, space: nat) {
    uid in w.issuer && w.issuer[uid].uuid in w.home && w.home[w.issuer[uid].uuid] == space
  }

  // ----- cells

  /** `proc_cur_ipc_res`: the cell of the context a task is running in. */
  predicate InHandler(w: World, pid: int)
    requires pid in w.tasks && w.tasks[pid].space in w.spaces
  {
    w.tasks[pid].main && w.spaces[w.tasks[pid].space].inInterrupt
  }

  function CellOf(w: World, pid: int, intr: bool): Cell
    requires pid in w.tasks && w.tasks[pid].space in w.spaces
  {
    if intr then w.spaces[w.tasks[pid].space].interruptCell else w.tasks[pid].cell
  }

  function PutCell(w: World, pid: int, intr: bool, c: Cell): World
    requires pid in w.tasks && w.tasks[pid].space in w.spaces
  {
    var s := w.tasks[pid].space;
    if intr then w.(spaces := w.spaces[s := w.spaces[s].(interruptCell := c)])
    else w.(tasks := w.tasks[pid := w.tasks[pid].(cell := c)])
  }

  // ----- steps

  /** `proc_ipc_req` into idle slot `i` of server `s`, then the client's cell turns busy. */
  function Ask(w: World, pid: int, s: nat, i: nat, noReply: bool): World {
    if pid in w.tasks && w.tasks[pid].uuid != 0 && w.tasks[pid].space in w.spaces
       && s in w.servers && i < |w.servers[s].slots| && w.servers[s].slots[i].uid == 0
    then
      var id := Id(pid, w.tasks[pid].uuid);
      var intr := InHandler(w, pid);
      var uid := w.lastUid + 1;
      var v := w.(servers := w.servers[s := w.servers[s].(slots :=
                    w.servers[s].slots[i := Request(uid, id, intr, noReply, Id(0, 0))])],
                  lastUid := uid, issuer := w.issuer[uid := id]);
      PutCell(v, pid, intr, CellOf(v, pid, intr).(state := Busy))
    else w
  }

  /** A worker of a pool server is bound to slot `i`. */
  function Bind(w: World, s: nat, i: nat, worker: Id): World {
    if s in w.servers && i < |w.servers[s].slots| && w.servers[s].slots[i].uid != 0 then
      w.(servers := w.servers[s := w.servers[s].(slots :=
           w.servers[s].slots[i := w.servers[s].slots[i].(handler := worker)])])
    else w
  }

  /** Slot `i` is the request this context is serving under `uid`. */
  predicate Serving(w: World, pid: int, s: nat, i: nat, uid: nat) {
    && uid != 0 && pid in w.tasks && w.tasks[pid].uuid != 0
    && s in w.servers && w.tasks[pid].space == s && i < |w.servers[s].slots|
    && w.servers[s].slots[i].uid == uid
    && (if w.servers[s].pool then w.servers[s].slots[i].handler == Id(pid, w.tasks[pid].uuid)
        else i == w.servers[s].head)
  }

  /** `proc_ipc_set_return`; `pkg` is None for a null package. */
  function SetReturn(w: World, pid: int, s: nat, i: nat, uid: nat, pkg: Option<Payload>): World {
    if !Serving(w, pid, s, i, uid) || w.servers[s].slots[i].noReply then w
    else
      var r := w.servers[s].slots[i];
      if !Alive(w, r.client) then w
      else
        var was := CellOf(w, r.client.pid, r.intr);
        var c := if pkg.Some? then Cell(uid, Returned, pkg.value, uid) else Cell(uid, Returned, was.data, was.of);
        var v := PutCell(w, r.client.pid, r.intr, c);
        if pkg.Some? then v.(stored := v.stored[uid := Packages(v, uid) + {pkg.value}])
        else v.(bare := v.bare + {uid})
  }

  datatype Outcome = Failed | MustWait | NothingDue | Delivered(data: Payload) | Taken | TooSmall(size: nat)

  predicate HasRequest(w: World, s: nat, uid: nat, client: Id, noReply: bool) {
    && s in w.servers
    && exists i :: 0 <= i < |w.servers[s].slots| && RequestIs(w.servers[s].slots[i], uid, client, noReply)
  }

  predicate RequestIs(r: Request, uid: nat, client: Id, noReply: bool) {
    r.uid == uid && r.client == client && r.noReply == noReply
  }

  /** `proc_ipc_get_return` with a buffer of `room` bytes, or no buffer. */
  function GetReturn(w: World, pid: int, s: nat, uid: nat, room: Option<nat>): (World, Outcome)
    requires pid in w.tasks && w.tasks[pid].space in w.spaces
  {
    var id := Id(pid, w.tasks[pid].uuid);
    var intr := InHandler(w, pid);
    var c := CellOf(w, pid, intr);
    if uid == 0 then (w, Failed)
    else if c.state != Returned then
      if HasRequest(w, s, uid, id, false) then (w, MustWait)
      else if HasRequest(w, s, uid, id, true) then (w, NothingDue)
      else (w, Failed)
    else if c.uid != uid then (w, Failed)
    else if room.Some? && room.value < |c.data| then (w, TooSmall(|c.data|))
    else (PutCell(w, pid, intr, CLEARED), if room.Some? then Delivered(c.data) else Taken)
  }

  /** A slot is released in the ordinary way. */
  function Close(w: World, s: nat, i: nat): World {
    if s in w.servers && i < |w.servers[s].slots| then
      w.(servers := w.servers[s := w.servers[s].(slots := w.servers[s].slots[i := IDLE])])
    else w
  }

  /** The cell of a request's client goes blank if it still holds that request. */
  function Blank(w: World, r: Request, keepReturned: bool): World {
    if Alive(w, r.client) && CellOf(w, r.client.pid, r.intr).uid == r.uid
       && !(keepReturned && CellOf(w, r.client.pid, r.intr).state == Returned)
    then PutCell(w, r.client.pid, r.intr, CLEARED)
    else w
  }

  /** Watchdog abort or time-out of slot `i`. */
  function Abort(w: World, s: nat, i: nat): World {
    if s in w.servers && i < |w.servers[s].slots| && w.servers[s].slots[i].uid != 0 then
      Close(Blank(w, w.servers[s].slots[i], false), s, i)
    else w
  }

  /** `proc_ipc_clear` up to slot `n`: published replies survive the server. */
  function ClearSlots(w: World, s: nat, n: nat): World
    decreases n
  {
    if n == 0 then w
    else
      var v := ClearSlots(w, s, n - 1);
      if s in v.servers && n - 1 < |v.servers[s].slots| && v.servers[s].slots[n - 1].uid != 0 then
        var r := v.servers[s].slots[n - 1];
        Close(if r.noReply then v else Blank(v, r, true), s, n - 1)
      else v
  }

  /** `proc_save_state`: the task's cell is copied aside. */
  function Save(w: World, pid: int, k: nat): World {
    if pid in w.tasks && w.tasks[pid].space in w.spaces then
      var s := w.tasks[pid].space;
      w.(spaces := w.spaces[s := w.spaces[s].(saved := w.spaces[s].saved[k := w.tasks[pid].cell])])
    else w
  }

  /** `proc_restore_state`: the copy replaces whatever the cell holds now. */
  function Restore(w: World, pid: int, k: nat): World {
    if pid in w.tasks && w.tasks[pid].space in w.spaces && k in w.spaces[w.tasks[pid].space].saved then
      var s := w.tasks[pid].space;
      var c := w.spaces[s].saved[k];
      w.(tasks := w.tasks[pid := w.tasks[pid].(cell := c)],
         spaces := w.spaces[s := w.spaces[s].(saved := w.spaces[s].saved[k := CLEARED])])
    else w
  }

  function Interrupt(w: World, s: nat, on: bool): World {
    if s in w.spaces then w.(spaces := w.spaces[s := w.spaces[s].(inInterrupt := on)]) else w
  }

  /** A task with a blank cell joins process `s`, which is created if new. */
  function Create(w: World, pid: int, s: nat, main: bool): World {
    if pid in w.tasks then w
    else
      var uuid := w.lastUuid + 1;
      w.(tasks := w.tasks[pid := Task(uuid, s, main, CLEARED)],
         spaces := if s in w.spaces then w.spaces else w.spaces[s := Space(false, CLEARED, map[])],
         lastUuid := uuid, home := w.home[uuid := s])
  }

  /** `exec`: a new identity in the same task; its cell stays. */
  function Exec(w: World, pid: int): World {
    if pid in w.tasks && w.tasks[pid].uuid != 0 then
      var uuid := w.lastUuid + 1;
      w.(tasks := w.tasks[pid := w.tasks[pid].(uuid := uuid)],
         lastUuid := uuid, home := w.home[uuid := w.tasks[pid].space])
    else w
  }

  function Exit(w: World, pid: int): World {
    if pid in w.tasks then w.(tasks := w.tasks[pid := w.tasks[pid].(uuid := 0)]) else w
  }

  function Bury(w: World, pid: int): World {
    if pid in w.tasks && w.tasks[pid].uuid == 0 then w.(tasks := w.tasks - {pid}) else w
  }

  function Serve(w: World, s: nat, pool: bool, n: nat): World {
    if s in w.servers then w else w.(servers := w.servers[s := Server(pool, seq(n, i => IDLE), 0)])
  }

  function Advance(w: World, s: nat, head: nat): World {
    if s in w.servers then w.(servers := w.servers[s := w.servers[s].(head := head)]) else w
  }

  datatype Event =
    | EAsk(pid: int, s: nat, i: nat, noReply: bool)
    | EBind(s: nat, i: nat, worker: Id)
    | ESetReturn(pid: int, s: nat, i: nat, uid: nat, pkg: Option<Payload>)
    | EGetReturn(pid: int, s: nat, uid: nat, room: Option<nat>)
    | EClose(s: nat, i: nat)
    | EAbort(s: nat, i: nat)
    | EClear(s: nat, n: nat)
    | ESave(pid: int, k: nat)
    | ERestore(pid: int, k: nat)
    | EInterrupt(s: nat, on: bool)
    | ECreate(pid: int, s: nat, main: bool)
    | EExec(pid: int)
    | EExit(pid: int)
    | EBury(pid: int)
    | EServe(s: nat, pool: bool, n: nat)
    | EAdvance(s: nat, head: nat)

  function Next(w: World, e: Event): World {
    match e
    case EAsk(pid, s, i, noReply) => Ask(w, pid, s, i, noReply)
    case EBind(s, i, worker) => Bind(w, s, i, worker)
    case ESetReturn(pid, s, i, uid, pkg) => SetReturn(w, pid, s, i, uid, pkg)
    case EGetReturn(pid, s, uid, room) =>
      if pid in w.tasks && w.tasks[pid].space in w.spaces then GetReturn(w, pid, s, uid, room).0 else w
    case EClose(s, i) => Close(w, s, i)
    case EAbort(s, i) => Abort(w, s, i)
    case EClear(s, n) => ClearSlots(w, s, n)
    case ESave(pid, k) => Save(w, pid, k)
    case ERestore(pid, k) => Restore(w, pid, k)
    case EInterrupt(s, on) => Interrupt(w, s, on)
    case ECreate(pid, s, main) => Create(w, pid, s, main)
    case EExec(pid) => Exec(w, pid)
    case EExit(pid) => Exit(w, pid)
    case EBury(pid) => Bury(w, pid)
    case EServe(s, pool, n) => Serve(w, s, pool, n)
    case EAdvance(s, head) => Advance(w, s, head)
  }

  function Runs(w: World, es: seq<Event>): World {
    if es == [] then w else Next(Runs(w, es[..|es| - 1]), es[|es| - 1])
  }

  const START := World(map[], map[], map[], 0, 0, map[], map[], map[], {})

  // ----- what every step keeps

  /** The data in a cell of process `s` is blank, or a package stored for a request of `s`. */
  predicate DataOk(w: World, s: nat, c: Cell) {
    if c.of == 0 then c.data == [] else IssuedBy(w, c.of, s) && c.data in Packages(w, c.of)
  }

  /** A cell of process `s` that holds a reply names a request of `s`, and holds its own package unless
      that request was answered without one. */
  predicate CellOk(w: World, s: nat, c: Cell) {
    DataOk(w, s, c) && (c.state == Returned ==> IssuedBy(w, c.uid, s) && (c.uid in w.bare || c.of == c.uid))
  }

  predicate SpaceOk(w: World, s: nat)
    requires s in w.spaces
  {
    CellOk(w, s, w.spaces[s].interruptCell) && forall k :: k in w.spaces[s].saved ==> CellOk(w, s, w.spaces[s].saved[k])
  }

  predicate TaskOk(w: World, pid: int)
    requires pid in w.tasks
  {
    var t := w.tasks[pid];
    && CellOk(w, t.space, t.cell) && t.uuid <= w.lastUuid
    && (t.uuid != 0 ==> t.uuid in w.home && w.home[t.uuid] == t.space)
  }

  /** A request in flight is on record under the client it names. */
  predicate SlotOk(w: World, r: Request) {
    r.uid != 0 ==> r.uid in w.issuer && w.issuer[r.uid] == r.client && r.client.uuid in w.home
  }

  predicate ServerOk(w: World, s: nat)
    requires s in w.servers
  {
    forall i :: 0 <= i < |w.servers[s].slots| ==> SlotOk(w, w.servers[s].slots[i])
  }

  predicate Histories(w: World) {
    && (forall u :: u in w.issuer ==> u <= w.lastUid && w.issuer[u].uuid in w.home)
    && (forall v :: v in w.home ==> v <= w.lastUuid)
  }

  predicate Good(w: World) {
    && Histories(w)
    && (forall s :: s in w.spaces ==> SpaceOk(w, s))
    && (forall p :: p in w.tasks ==> TaskOk(w, p))
    && (forall s :: s in w.servers ==> ServerOk(w, s))
  }

  /** The records only grow. */
  ghost predicate Extends(w: World, v: World) {
    && (forall u :: u in w.issuer ==> u in v.issuer && v.issuer[u] == w.issuer[u])
    && (forall x :: x in w.home ==> x in v.home && v.home[x] == w.home[x])
    && (forall u :: u in w.bare ==> u in v.bare)
    && (forall u :: Packages(w, u) <= Packages(v, u))
  }
}
