/** Capabilities: what a process may do, where each right came from, and what survives an exec. */
module Caps {
  import opened Options

  const CNODE_SLOTS: nat := 64
  const RULE_MAX: nat := 32
  const ENTRY_MAX: nat := 16
  const CMD_MAX: nat := 256

  datatype Right = CanRead | CanWrite | CanExecute | CanGrant

  const ALL_RIGHTS: set<Right> := {CanRead, CanWrite, CanExecute, CanGrant}

  datatype Kind = Invalid | Root | Frame | Irq | Ep | Process | AddressSpace | Dma

  datatype Object =
    | Nothing
    | FrameAt(paddr: nat, size: nat)
    | IrqLine(irq: nat)
    | DmaBlock(block: int)
    | Instance(pid: int, uuid: nat)

  datatype Cap = Cap(kind: Kind, rights: set<Right>, obj: Object)

  const NO_CAP := Cap(Invalid, {}, Nothing)

  const ROOT_CAP := Cap(Root, ALL_RIGHTS, Nothing)

  type Cnode = seq<Cap>

  /** A policy entry; `a` and `b` are the raw 64-bit object words. */
  datatype Entry = Entry(kind: Kind, rights: set<Right>, a: nat, b: nat)

  datatype Rule = Rule(cmd: string, entries: seq<Entry>)

  /** `main`: a process; otherwise a thread, which acts with the authority of the process its fathers
      lead to. `space` is the address space, shared by a process and its threads and named here by the
      birth of the process. `uuid == 0` once terminated; `birth` is the first uuid. */
  datatype Task = Task(
    uuid: nat,
    birth: nat,
    space: nat,
    main: bool,
    father: int,
    uid: int,
    cmd: string,
    cnode: Cnode)

  /** `born` records the pid of every identity ever given out, `minted` and `built` every cap ever
      minted by a root holder or built from a rule. */
  datatype World = World(
    tasks: map<int, Task>,
    policy: seq<Rule>,
    lastUuid: nat,
    born: map<nat, int>,
    minted: set<Cap>,
    built: set<Cap>)

  // ----- machine words

  function Low32(x: nat): nat {
    x % 0x1_0000_0000
  }

  function Int32(x: nat): int {
    if Low32(x) < 0x8000_0000 then Low32(x) else Low32(x) - 0x1_0000_0000
  }

  // ----- cnodes

  function EmptyCnode(): (c: Cnode)
    ensures |c| == CNODE_SLOTS
  {
    seq(CNODE_SLOTS, i => NO_CAP)
  }

  function FreeSlot(c: Cnode, i: nat): (k: nat)
    requires i <= |c|
    ensures i <= k <= |c|
    ensures k < |c| ==> c[k].kind == Invalid
    ensures forall j :: i <= j < k ==> c[j].kind != Invalid
    decreases |c| - i
  {
    if i == |c| || c[i].kind == Invalid then i else FreeSlot(c, i + 1)
  }

  /** The first free slot takes the cap; a full cnode drops it. */
  function Insert(c: Cnode, cap: Cap): (r: Cnode)
    ensures |r| == |c|
  {
    var k := FreeSlot(c, 0);
    if cap.kind == Invalid || k == |c| then c else c[k := cap]
  }

  predicate HasRoot(c: Cnode) {
    exists i :: 0 <= i < |c| && c[i].kind == Root
  }

  // ----- tasks

  predicate Alive(w: World, pid: int) {
    pid in w.tasks && w.tasks[pid].uuid != 0
  }

  datatype Walked = Found(pid: int) | Nobody | Endless

  /** `proc_get_proc`: up the fathers, by pid, to a process; at most `fuel` times. */
  function Walk(w: World, pid: int, fuel: nat): (r: Walked)
    ensures r.Found? ==> Alive(w, r.pid) && w.tasks[r.pid].main
    decreases fuel
  {
    if !Alive(w, pid) then Nobody
    else if w.tasks[pid].main then Found(pid)
    else if fuel == 0 then Endless
    else Walk(w, w.tasks[pid].father, fuel - 1)
  }

  /** With as many steps as tasks, a walk that has not ended never does. */
  function Owner(w: World, pid: int): Walked {
    Walk(w, pid, |w.tasks|)
  }

  /** The process whose cnode authorizes a task's calls. */
  function OwnerOf(w: World, pid: int): (r: Option<int>)
    ensures r.Some? ==> Alive(w, pid) && Alive(w, r.value) && w.tasks[r.value].main
  {
    var o := Owner(w, pid);
    if o.Found? then Some(o.pid) else None
  }

  /** Who is alive under which identity: all a policy looks at besides the image itself. */
  function Living(w: World): map<int, nat> {
    map pid | pid in w.tasks && w.tasks[pid].uuid != 0 :: w.tasks[pid].uuid
  }

  function SetCnode(w: World, pid: int, c: Cnode): World
    requires pid in w.tasks
  {
    w.(tasks := w.tasks[pid := w.tasks[pid].(cnode := c)])
  }

  // ----- building caps

  /** The object a kind names, from the raw words; none when its target is not alive. */
  function ObjectOf(kind: Kind, a: nat, b: nat, living: map<int, nat>): Option<Object> {
    match kind
    case Frame => Some(FrameAt(a, b))
    case Irq => Some(IrqLine(Low32(a)))
    case Dma => Some(DmaBlock(Int32(a)))
    case Root => Some(Nothing)
    case Invalid => None
    case Ep => Target(a, living)
    case Process => Target(a, living)
    case AddressSpace => Target(a, living)
  }

  function Target(a: nat, living: map<int, nat>): Option<Object> {
    if Int32(a) in living then Some(Instance(Int32(a), living[Int32(a)])) else None
  }

  /** The caps a list of entries yields, in order. */
  function BuildAll(es: seq<Entry>, living: map<int, nat>): seq<Cap> {
    if es == [] then []
    else
      var n := |es| - 1;
      var o := ObjectOf(es[n].kind, es[n].a, es[n].b, living);
      BuildAll(es[..n], living) + if o.Some? then [Cap(es[n].kind, es[n].rights, o.value)] else []
  }

  /** First-token match of a command line against a rule's path. */
  predicate Matches(cmd: string, path: string) {
    && path != [] && |path| <= |cmd| && cmd[..|path|] == path
    && (|cmd| == |path| || cmd[|path|] == ' ')
  }

  /** The caps of every rule that matches, in table order. */
  function PolicyCaps(rules: seq<Rule>, cmd: string, living: map<int, nat>): seq<Cap> {
    if rules == [] || cmd == [] then []
    else
      var n := |rules| - 1;
      PolicyCaps(rules[..n], cmd, living)
      + if Matches(cmd, rules[n].cmd) then BuildAll(rules[n].entries, living) else []
  }

  function InsertAll(c: Cnode, caps: seq<Cap>): (r: Cnode)
    ensures |r| == |c|
  {
    if caps == [] then c else Insert(InsertAll(c, caps[..|caps| - 1]), caps[|caps| - 1])
  }

  /** The cnode after `proc_cap_on_exec`: it does not take the old one as an argument. */
  function ExecCnode(uid: int, cmd: string, policy: seq<Rule>, living: map<int, nat>): Cnode {
    var reset := if uid <= 0 then Insert(EmptyCnode(), ROOT_CAP) else EmptyCnode();
    InsertAll(reset, PolicyCaps(policy, cmd, living))
  }

  // ----- the calls

  /** A fresh identity for `pid`. */
  function Named(w: World, pid: int, t: Task): World {
    var u := w.lastUuid + 1;
    w.(tasks := w.tasks[pid := t.(uuid := u)], lastUuid := u, born := w.born[u := pid])
  }

  function Exec(w: World, pid: int, cmd: string): World {
    if !Alive(w, pid) then w
    else
      var v := Named(w, pid, w.tasks[pid].(cmd := cmd));
      var caps := PolicyCaps(v.policy, cmd, Living(v));
      SetCnode(v.(built := v.built + (set c | c in caps)), pid, ExecCnode(v.tasks[pid].uid, cmd, v.policy, Living(v)))
  }

  /** A new task: a process makes a space, a thread shares its father's. */
  function Created(w: World, pid: int, main: bool, father: int, space: nat, uid: int, cmd: string, c: Cnode): World {
    var u := w.lastUuid + 1;
    Named(w, pid, Task(u, u, if main then u else space, main, father, uid, cmd, c))
  }

  const ROOT_CNODE: Cnode := Insert(EmptyCnode(), ROOT_CAP)

  /** A kernel-created process holds the root authority. */
  function Boot(w: World, pid: int): World {
    if pid in w.tasks then w else Created(w, pid, true, -1, 0, 0, [], ROOT_CNODE)
  }

  /** A forked task starts with its owner process's cnode; with no owner, with root. */
  function Fork(w: World, parent: int, pid: int, main: bool): World {
    var o := Owner(w, parent);
    if !Alive(w, parent) || pid in w.tasks || o.Endless? then w
    else
      var c := if o.Found? then w.tasks[o.pid].cnode else ROOT_CNODE;
      Created(w, pid, main, parent, w.tasks[parent].space, w.tasks[parent].uid, w.tasks[parent].cmd, c)
  }

  function Setuid(w: World, pid: int, uid: int): World {
    var o := OwnerOf(w, pid);
    if o == None || !HasRoot(w.tasks[o.value].cnode) then w
    else
      var v := w.(tasks := w.tasks[pid := w.tasks[pid].(uid := uid)]);
      if uid > 0 then SetCnode(v, o.value, EmptyCnode()) else v
  }

  predicate Mintable(kind: Kind) {
    kind != Root && kind != Invalid
  }

  function Mint(w: World, pid: int, kind: Kind, rights: set<Right>, a: nat, b: nat): World {
    var o := OwnerOf(w, pid);
    if o == None || !HasRoot(w.tasks[o.value].cnode) || !Mintable(kind) then w
    else
      var obj := ObjectOf(kind, a, b, Living(w));
      if obj == None then w
      else
        var c := Cap(kind, rights, obj.value);
        SetCnode(w.(minted := w.minted + {c}), o.value, Insert(w.tasks[o.value].cnode, c))
  }

  /** `mask` None is the call's 0: the source rights verbatim. */
  function Grant(w: World, pid: int, target: int, slot: nat, mask: Option<set<Right>>): World {
    var o, t := OwnerOf(w, pid), OwnerOf(w, target);
    if o == None || t == None || slot >= CNODE_SLOTS || slot >= |w.tasks[o.value].cnode| then w
    else
      var src := w.tasks[o.value].cnode[slot];
      if src.kind == Invalid || (!HasRoot(w.tasks[o.value].cnode) && CanGrant !in src.rights) then w
      else
        var c := src.(rights := if mask.Some? then src.rights * mask.value else src.rights);
        if c.rights == {} then w else SetCnode(w, t.value, Insert(w.tasks[t.value].cnode, c))
  }

  function Revoke(w: World, pid: int, slot: nat): World {
    var o := OwnerOf(w, pid);
    if o == None || slot >= |w.tasks[o.value].cnode| then w
    else SetCnode(w, o.value, w.tasks[o.value].cnode[slot := NO_CAP])
  }

  function RuleAt(rules: seq<Rule>, cmd: string, i: nat): (k: nat)
    requires i <= |rules|
    ensures i <= k <= |rules|
    ensures k < |rules| ==> rules[k].cmd == cmd
    decreases |rules| - i
  {
    if i == |rules| || rules[i].cmd == cmd then i else RuleAt(rules, cmd, i + 1)
  }

  function Stored(cmd: string): string {
    if |cmd| < CMD_MAX then cmd else cmd[..CMD_MAX - 1]
  }

  function PolicyAdd(w: World, pid: int, cmd: string, e: Entry): World {
    var o := OwnerOf(w, pid);
    if o == None || !HasRoot(w.tasks[o.value].cnode) || cmd == [] || e.kind == Invalid then w
    else
      var k := RuleAt(w.policy, cmd, 0);
      if k == |w.policy| then
        if k >= RULE_MAX then w else w.(policy := w.policy + [Rule(Stored(cmd), [e])])
      else if |w.policy[k].entries| >= ENTRY_MAX then w
      else w.(policy := w.policy[k := Rule(w.policy[k].cmd, w.policy[k].entries + [e])])
  }

  function Ended(t: Task): Task {
    t.(uuid := 0, father := if t.main then t.father else 0)
  }

  /** A process takes the threads it forked itself with it; a thread takes none. */
  function Exit(w: World, pid: int): World {
    if !Alive(w, pid) then w
    else
      w.(tasks := map p | p in w.tasks ::
           if p == pid || (w.tasks[pid].main && !w.tasks[p].main && w.tasks[p].father == pid) then Ended(w.tasks[p])
           else w.tasks[p])
  }

  /** `sys_detach`: pid 0 becomes the father. */
  function Detach(w: World, pid: int): World {
    if Alive(w, pid) then w.(tasks := w.tasks[pid := w.tasks[pid].(father := 0)]) else w
  }

  /** `proc_cap_has` for the root authority. */
  predicate Authorized(w: World, pid: int) {
    OwnerOf(w, pid).Some? && HasRoot(w.tasks[OwnerOf(w, pid).value].cnode)
  }

  function Bury(w: World, pid: int): World {
    if pid in w.tasks && w.tasks[pid].uuid == 0 then w.(tasks := w.tasks - {pid}) else w
  }
}
