/** Over every run a client is handed its own request's reply, or exactly when not. */
module IpcReplyRuns {
  import opened Options
  import opened IpcReply

  /** Cells stay sound as the records grow. */
  lemma CellKept(w: World, v: World, s: nat, c: Cell)
    requires CellOk(w, s, c) && Extends(w, v)
    ensures CellOk(v, s, c)
  {
    assert Packages(w, c.of) <= Packages(v, c.of);
  }

  /** Putting a sound cell keeps everything. */
  lemma PutCellGood(w: World, pid: int, intr: bool, c: Cell)
    requires Good(w) && pid in w.tasks && w.tasks[pid].space in w.spaces
    requires CellOk(w, w.tasks[pid].space, c)
    ensures Good(PutCell(w, pid, intr, c))
  {
    var s := w.tasks[pid].space;
    assert SpaceOk(w, s) && TaskOk(w, pid);
    if intr {
      SpaceGood(w, s, w.spaces[s].(interruptCell := c));
    } else {
      TaskGood(w, pid, w.tasks[pid].(cell := c));
    }
  }

  /** Growing the records alone. */
  lemma ExtendGood(w: World, v: World)
    requires Good(w) && Extends(w, v) && Histories(v) && w.lastUuid <= v.lastUuid
    requires v.servers == w.servers && v.tasks == w.tasks && v.spaces == w.spaces
    ensures Good(v)
  {
    forall s | s in v.spaces ensures SpaceOk(v, s) {
      assert SpaceOk(w, s);
      CellKept(w, v, s, w.spaces[s].interruptCell);
      forall k | k in v.spaces[s].saved ensures CellOk(v, s, v.spaces[s].saved[k]) {
        CellKept(w, v, s, w.spaces[s].saved[k]);
      }
    }
    forall p | p in v.tasks ensures TaskOk(v, p) {
      assert TaskOk(w, p);
      CellKept(w, v, w.tasks[p].space, w.tasks[p].cell);
    }
    forall s | s in v.servers ensures ServerOk(v, s) {
      assert ServerOk(w, s);
      forall i | 0 <= i < |v.servers[s].slots| ensures SlotOk(v, v.servers[s].slots[i]) {
        assert SlotOk(w, w.servers[s].slots[i]);
      }
    }
  }

  lemma ServerGood(w: World, s: nat, x: Server)
    requires Good(w) && forall i :: 0 <= i < |x.slots| ==> SlotOk(w, x.slots[i])
    ensures Good(w.(servers := w.servers[s := x]))
  {
    var v := w.(servers := w.servers[s := x]);
    forall t | t in v.spaces ensures SpaceOk(v, t) {
      assert SpaceOk(w, t);
    }
    forall p | p in v.tasks ensures TaskOk(v, p) {
      assert TaskOk(w, p);
    }
    forall t | t in v.servers ensures ServerOk(v, t) {
      forall i | 0 <= i < |v.servers[t].slots| ensures SlotOk(v, v.servers[t].slots[i]) {
        if t != s {
          assert ServerOk(w, t);
          assert SlotOk(w, w.servers[t].slots[i]);
        } else {
          assert SlotOk(w, x.slots[i]);
        }
      }
    }
  }

  lemma SlotGood(w: World, s: nat, i: nat, r: Request)
    requires Good(w) && s in w.servers && i < |w.servers[s].slots| && SlotOk(w, r)
    ensures Good(w.(servers := w.servers[s := w.servers[s].(slots := w.servers[s].slots[i := r])]))
  {
    var x := w.servers[s].(slots := w.servers[s].slots[i := r]);
    assert ServerOk(w, s);
    forall j | 0 <= j < |x.slots| ensures SlotOk(w, x.slots[j]) {
      if j != i {
        assert SlotOk(w, w.servers[s].slots[j]);
      }
    }
    ServerGood(w, s, x);
  }

  lemma CellSound(w: World, pid: int, intr: bool)
    requires Good(w) && pid in w.tasks && w.tasks[pid].space in w.spaces
    ensures CellOk(w, w.tasks[pid].space, CellOf(w, pid, intr))
  {
    assert TaskOk(w, pid) && SpaceOk(w, w.tasks[pid].space);
  }

  lemma TaskSound(w: World, pid: int)
    requires Good(w) && pid in w.tasks
    ensures TaskOk(w, pid)
  {
  }

  lemma IssueGood(w: World, id: Id)
    requires Good(w) && id.uuid in w.home
    ensures Good(w.(lastUid := w.lastUid + 1, issuer := w.issuer[w.lastUid + 1 := id]))
  {
    var v := w.(lastUid := w.lastUid + 1, issuer := w.issuer[w.lastUid + 1 := id]);
    assert w.lastUid + 1 !in w.issuer;
    assert Extends(w, v);
    ExtendGood(w, v);
  }

  lemma NameGood(w: World, s: nat)
    requires Good(w)
    ensures Good(w.(lastUuid := w.lastUuid + 1, home := w.home[w.lastUuid + 1 := s]))
  {
    var v := w.(lastUuid := w.lastUuid + 1, home := w.home[w.lastUuid + 1 := s]);
    assert w.lastUuid + 1 !in w.home;
    assert Extends(w, v);
    ExtendGood(w, v);
  }

  lemma AskGood(w: World, pid: int, s: nat, i: nat, noReply: bool)
    requires Good(w)
    ensures Good(Ask(w, pid, s, i, noReply))
  {
    hide Good;
    if pid in w.tasks && w.tasks[pid].uuid != 0 && w.tasks[pid].space in w.spaces
       && s in w.servers && i < |w.servers[s].slots| && w.servers[s].slots[i].uid == 0
    {
      TaskSound(w, pid);
      var id := Id(pid, w.tasks[pid].uuid);
      var intr := InHandler(w, pid);
      var uid := w.lastUid + 1;
      var r := Request(uid, id, intr, noReply, Id(0, 0));
      IssueGood(w, id);
      var u := w.(lastUid := uid, issuer := w.issuer[uid := id]);
      SlotGood(u, s, i, r);
      var v := u.(servers := u.servers[s := u.servers[s].(slots := u.servers[s].slots[i := r])]);
      CellSound(v, pid, intr);
      PutCellGood(v, pid, intr, CellOf(v, pid, intr).(state := Busy));
    }
  }

  lemma BindGood(w: World, s: nat, i: nat, worker: Id)
    requires Good(w)
    ensures Good(Bind(w, s, i, worker))
  {
    if s in w.servers && i < |w.servers[s].slots| && w.servers[s].slots[i].uid != 0 {
      assert ServerOk(w, s);
      assert SlotOk(w, w.servers[s].slots[i]);
      SlotGood(w, s, i, w.servers[s].slots[i].(handler := worker));
    }
  }

  /** The client a live request names belongs to the process that issued it. */
  lemma ClientIsIssuer(w: World, s: nat, i: nat)
    requires Good(w) && s in w.servers && i < |w.servers[s].slots| && w.servers[s].slots[i].uid != 0
    requires Alive(w, w.servers[s].slots[i].client)
    ensures IssuedBy(w, w.servers[s].slots[i].uid, w.tasks[w.servers[s].slots[i].client.pid].space)
  {
    assert ServerOk(w, s);
    assert SlotOk(w, w.servers[s].slots[i]);
    assert TaskOk(w, w.servers[s].slots[i].client.pid);
  }

  lemma SetReturnGood(w: World, pid: int, s: nat, i: nat, uid: nat, pkg: Option<Payload>)
    requires Good(w)
    ensures Good(SetReturn(w, pid, s, i, uid, pkg))
  {
    if Serving(w, pid, s, i, uid) && !w.servers[s].slots[i].noReply && Alive(w, w.servers[s].slots[i].client) {
      var r := w.servers[s].slots[i];
      ClientIsIssuer(w, s, i);
      var was := CellOf(w, r.client.pid, r.intr);
      CellSound(w, r.client.pid, r.intr);
      var c := if pkg.Some? then Cell(uid, Returned, pkg.value, uid) else Cell(uid, Returned, was.data, was.of);
      var h := if pkg.Some? then w.(stored := w.stored[uid := Packages(w, uid) + {pkg.value}])
               else w.(bare := w.bare + {uid});
      assert Extends(w, h);
      ExtendGood(w, h);
      PutCellGood(h, r.client.pid, r.intr, c);
      assert SetReturn(w, pid, s, i, uid, pkg) == PutCell(h, r.client.pid, r.intr, c);
    }
  }

  lemma GetReturnGood(w: World, pid: int, s: nat, uid: nat, room: Option<nat>)
    requires Good(w) && pid in w.tasks && w.tasks[pid].space in w.spaces
    ensures Good(GetReturn(w, pid, s, uid, room).0)
  {
    PutCellGood(w, pid, InHandler(w, pid), CLEARED);
  }

  lemma CloseGood(w: World, s: nat, i: nat)
    requires Good(w)
    ensures Good(Close(w, s, i))
  {
    if s in w.servers && i < |w.servers[s].slots| {
      SlotGood(w, s, i, IDLE);
    }
  }

  lemma BlankGood(w: World, r: Request, keep: bool)
    requires Good(w)
    ensures Good(Blank(w, r, keep))
  {
    if Alive(w, r.client) {
      PutCellGood(w, r.client.pid, r.intr, CLEARED);
    }
  }

  lemma AbortGood(w: World, s: nat, i: nat)
    requires Good(w)
    ensures Good(Abort(w, s, i))
  {
    hide Good;
    if s in w.servers && i < |w.servers[s].slots| {
      BlankGood(w, w.servers[s].slots[i], false);
      CloseGood(Blank(w, w.servers[s].slots[i], false), s, i);
    }
  }

  lemma {:induction false} ClearGood(w: World, s: nat, n: nat)
    requires Good(w)
    ensures Good(ClearSlots(w, s, n))
  {
    hide Good, Close, Blank;
    if n > 0 {
      ClearGood(w, s, n - 1);
      var v := ClearSlots(w, s, n - 1);
      if s in v.servers && n - 1 < |v.servers[s].slots| {
        var r := v.servers[s].slots[n - 1];
        BlankGood(v, r, true);
        CloseGood(v, s, n - 1);
        CloseGood(Blank(v, r, true), s, n - 1);
      }
    }
  }

  lemma SpaceGood(w: World, s: nat, x: Space)
    requires Good(w) && CellOk(w, s, x.interruptCell) && forall k :: k in x.saved ==> CellOk(w, s, x.saved[k])
    ensures Good(w.(spaces := w.spaces[s := x]))
  {
    var v := w.(spaces := w.spaces[s := x]);
    forall t | t in v.spaces ensures SpaceOk(v, t) {
      if t != s {
        assert SpaceOk(w, t);
      } else {
        assert forall k :: k in x.saved ==> CellOk(w, s, x.saved[k]) && CellOk(v, s, x.saved[k]);
      }
    }
    forall p | p in v.tasks ensures TaskOk(v, p) {
      assert TaskOk(w, p);
    }
    forall t | t in v.servers ensures ServerOk(v, t) {
      assert ServerOk(w, t);
      forall i | 0 <= i < |v.servers[t].slots| ensures SlotOk(v, v.servers[t].slots[i]) {
        assert SlotOk(w, w.servers[t].slots[i]);
      }
    }
  }

  lemma SaveGood(w: World, pid: int, k: nat)
    requires Good(w)
    ensures Good(Save(w, pid, k))
  {
    if pid in w.tasks && w.tasks[pid].space in w.spaces {
      var s := w.tasks[pid].space;
      assert TaskOk(w, pid) && SpaceOk(w, s);
      SpaceGood(w, s, w.spaces[s].(saved := w.spaces[s].saved[k := w.tasks[pid].cell]));
    }
  }

  lemma RestoreGood(w: World, pid: int, k: nat)
    requires Good(w)
    ensures Good(Restore(w, pid, k))
  {
    if pid in w.tasks && w.tasks[pid].space in w.spaces && k in w.spaces[w.tasks[pid].space].saved {
      var s := w.tasks[pid].space;
      assert TaskOk(w, pid) && SpaceOk(w, s);
      var x := w.spaces[s].(saved := w.spaces[s].saved[k := CLEARED]);
      SpaceGood(w, s, x);
      PutCellGood(w.(spaces := w.spaces[s := x]), pid, false, w.spaces[s].saved[k]);
    }
  }

  lemma InterruptGood(w: World, s: nat, on: bool)
    requires Good(w)
    ensures Good(Interrupt(w, s, on))
  {
    if s in w.spaces {
      assert SpaceOk(w, s);
      SpaceGood(w, s, w.spaces[s].(inInterrupt := on));
    }
  }

  lemma TaskGood(w: World, pid: int, t: Task)
    requires Good(w) && CellOk(w, t.space, t.cell) && t.uuid <= w.lastUuid
    requires t.uuid != 0 ==> t.uuid in w.home && w.home[t.uuid] == t.space
    ensures Good(w.(tasks := w.tasks[pid := t]))
  {
    var v := w.(tasks := w.tasks[pid := t]);
    forall s | s in v.spaces ensures SpaceOk(v, s) {
      assert SpaceOk(w, s);
    }
    forall p | p in v.tasks ensures TaskOk(v, p) {
      if p != pid {
        assert TaskOk(w, p);
      }
    }
    forall s | s in v.servers ensures ServerOk(v, s) {
      assert ServerOk(w, s);
      forall i | 0 <= i < |v.servers[s].slots| ensures SlotOk(v, v.servers[s].slots[i]) {
        assert SlotOk(w, w.servers[s].slots[i]);
      }
    }
  }

  lemma CreateGood(w: World, pid: int, s: nat, main: bool)
    requires Good(w)
    ensures Good(Create(w, pid, s, main))
  {
    hide Good;
    if pid !in w.tasks {
      var uuid := w.lastUuid + 1;
      NameGood(w, s);
      var v := w.(lastUuid := uuid, home := w.home[uuid := s]);
      TaskGood(v, pid, Task(uuid, s, main, CLEARED));
      var u := v.(tasks := v.tasks[pid := Task(uuid, s, main, CLEARED)]);
      if s !in w.spaces {
        SpaceGood(u, s, Space(false, CLEARED, map[]));
      }
    }
  }

  lemma ExecGood(w: World, pid: int)
    requires Good(w)
    ensures Good(Exec(w, pid))
  {
    hide Good;
    if pid in w.tasks && w.tasks[pid].uuid != 0 {
      var uuid := w.lastUuid + 1;
      NameGood(w, w.tasks[pid].space);
      var v := w.(lastUuid := uuid, home := w.home[uuid := w.tasks[pid].space]);
      TaskSound(v, pid);
      TaskGood(v, pid, v.tasks[pid].(uuid := uuid));
    }
  }

  lemma ExitGood(w: World, pid: int)
    requires Good(w)
    ensures Good(Exit(w, pid))
  {
    if pid in w.tasks {
      assert TaskOk(w, pid);
      TaskGood(w, pid, w.tasks[pid].(uuid := 0));
    }
  }

  lemma BuryGood(w: World, pid: int)
    requires Good(w)
    ensures Good(Bury(w, pid))
  {
    var v := Bury(w, pid);
    forall s | s in v.spaces ensures SpaceOk(v, s) {
      assert SpaceOk(w, s);
    }
    forall p | p in v.tasks ensures TaskOk(v, p) {
      assert TaskOk(w, p);
    }
    forall s | s in v.servers ensures ServerOk(v, s) {
      assert ServerOk(w, s);
      forall i | 0 <= i < |v.servers[s].slots| ensures SlotOk(v, v.servers[s].slots[i]) {
        assert SlotOk(w, w.servers[s].slots[i]);
      }
    }
  }

  lemma AdvanceGood(w: World, s: nat, head: nat)
    requires Good(w)
    ensures Good(Advance(w, s, head))
  {
    if s in w.servers {
      assert ServerOk(w, s);
      ServerGood(w, s, w.servers[s].(head := head));
    }
  }

  lemma NextGood(w: World, e: Event)
    requires Good(w)
    ensures Good(Next(w, e))
  {
    hide Good, Ask, Bind, SetReturn, GetReturn, Close, Abort, Save, Restore, Interrupt, Create, Exec, Exit, Bury,
        Advance;
    match e
    case EAsk(pid, s, i, noReply) => AskGood(w, pid, s, i, noReply);
    case EBind(s, i, worker) => BindGood(w, s, i, worker);
    case ESetReturn(pid, s, i, uid, pkg) => SetReturnGood(w, pid, s, i, uid, pkg);
    case EGetReturn(pid, s, uid, room) =>
      if pid in w.tasks && w.tasks[pid].space in w.spaces { GetReturnGood(w, pid, s, uid, room); }
    case EClose(s, i) => CloseGood(w, s, i);
    case EAbort(s, i) => AbortGood(w, s, i);
    case EClear(s, n) => ClearGood(w, s, n);
    case ESave(pid, k) => SaveGood(w, pid, k);
    case ERestore(pid, k) => RestoreGood(w, pid, k);
    case EInterrupt(s, on) => InterruptGood(w, s, on);
    case ECreate(pid, s, main) => CreateGood(w, pid, s, main);
    case EExec(pid) => ExecGood(w, pid);
    case EExit(pid) => ExitGood(w, pid);
    case EBury(pid) => BuryGood(w, pid);
    case EServe(s, pool, n) => ServerGood(w, s, Server(pool, seq(n, i => IDLE), 0));
    case EAdvance(s, head) => AdvanceGood(w, s, head);
  }

  lemma {:induction false} RunsGood(es: seq<Event>)
    ensures Good(Runs(START, es))
    decreases |es|
  {
    if es != [] {
      hide Next, Good;
      RunsGood(es[..|es| - 1]);
      NextGood(Runs(START, es[..|es| - 1]), es[|es| - 1]);
    }
  }

  /** The cell the next reply of this task is read from. */
  function Current(w: World, pid: int): Cell
    requires pid in w.tasks && w.tasks[pid].space in w.spaces
  {
    CellOf(w, pid, InHandler(w, pid))
  }

  /** Whatever happened before (time-outs, aborts, teardown, slot reuse, context saves, exec, pid
      reuse), a reply delivered for `uid` goes to the process that issued `uid`. Its data is the package
      of `uid` unless `uid` was answered without one; even then it is blank or a package of another
      request of the same process. */
  lemma DeliveredIsOwn(es: seq<Event>, pid: int, s: nat, uid: nat, room: Option<nat>)
    requires var w := Runs(START, es); pid in w.tasks && w.tasks[pid].space in w.spaces
    ensures var w := Runs(START, es); var o := GetReturn(w, pid, s, uid, room).1; var of := Current(w, pid).of;
            o.Delivered? ==>
              && IssuedBy(w, uid, w.tasks[pid].space)
              && (uid !in w.bare ==> of == uid)
              && (if of == 0 then o.data == [] else IssuedBy(w, of, w.tasks[pid].space) && o.data in Packages(w, of))
  {
    hide Good;
    RunsGood(es);
    var w := Runs(START, es);
    CellSound(w, pid, InHandler(w, pid));
  }

  /** A request being served whose live client is due an answer, in the context it asked from. */
  ghost predicate Answered(w: World, server: int, s: nat, i: nat, uid: nat) {
    && Serving(w, server, s, i, uid) && !w.servers[s].slots[i].noReply && Alive(w, w.servers[s].slots[i].client)
    && InHandler(w, w.servers[s].slots[i].client.pid) == w.servers[s].slots[i].intr
  }

  /** In every reachable state an answer delivers a package of its own request exactly when it carries
      one or the cell holds one already; otherwise what is delivered is blank or was stored for another
      request of the same process. */
  lemma ReplyExact(es: seq<Event>, server: int, s: nat, i: nat, uid: nat, pkg: Option<Payload>, room: nat)
    requires Answered(Runs(START, es), server, s, i, uid)
    ensures var w := Runs(START, es);
            var pid := w.servers[s].slots[i].client.pid;
            var was := Current(w, pid);
            var v := SetReturn(w, server, s, i, uid, pkg);
            && pid in v.tasks && v.tasks[pid].space in v.spaces
            && (|Current(v, pid).data| <= room ==>
                  var o := GetReturn(v, pid, s, uid, Some(room)).1;
                  && o.Delivered?
                  && (o.data in Packages(v, uid) <==> pkg.Some? || was.data in Packages(w, uid))
                  && (pkg.Some? ==> o.data == pkg.value)
                  && (pkg.None? ==> o.data == [] ||
                                    exists u :: IssuedBy(w, u, w.tasks[pid].space) && o.data in Packages(w, u)))
  {
    RunsGood(es);
    var w := Runs(START, es);
    var pid := w.servers[s].slots[i].client.pid;
    CellSound(w, pid, InHandler(w, pid));
    hide Good, Runs;
    var v := SetReturn(w, server, s, i, uid, pkg);
    assert Current(v, pid).uid == uid;
    var was := Current(w, pid);
    if pkg.None? && was.of != 0 {
      assert IssuedBy(w, was.of, w.tasks[pid].space) && was.data in Packages(w, was.of);
    }
  }

  /** A reply with a package is what the client then reads; the cell is blank afterwards, so it is
      read once. */
  lemma ReplyRoundTrip(w: World, server: int, s: nat, i: nat, uid: nat, d: Payload, room: nat)
    requires Answered(w, server, s, i, uid) && room >= |d|
    ensures var pid := w.servers[s].slots[i].client.pid;
            var v := SetReturn(w, server, s, i, uid, Some(d));
            pid in v.tasks && v.tasks[pid].space in v.spaces
            && var (u, o) := GetReturn(v, pid, s, uid, Some(room));
               o == Delivered(d) && pid in u.tasks && u.tasks[pid].space in u.spaces
               && CellOf(u, pid, w.servers[s].slots[i].intr) == CLEARED
  {
  }

  /** After an abort the client's request has neither a slot nor a cell: asking for it fails. */
  lemma AbortedFails(w: World, s: nat, i: nat, uid: nat, room: Option<nat>)
    requires Good(w) && s in w.servers && i < |w.servers[s].slots| && w.servers[s].slots[i].uid == uid != 0
    requires forall j :: 0 <= j < |w.servers[s].slots| && j != i ==> w.servers[s].slots[j].uid != uid
    requires Alive(w, w.servers[s].slots[i].client)
    requires InHandler(w, w.servers[s].slots[i].client.pid) == w.servers[s].slots[i].intr
    ensures var pid := w.servers[s].slots[i].client.pid; var v := Abort(w, s, i);
            pid in v.tasks && v.tasks[pid].space in v.spaces && GetReturn(v, pid, s, uid, room).1 == Failed
  {
    var r := w.servers[s].slots[i];
    var v := Abort(w, s, i);
    forall j | 0 <= j < |v.servers[s].slots| ensures v.servers[s].slots[j].uid != uid {
    }
  }

  lemma RunsStep(es: seq<Event>, k: nat)
    requires k < |es|
    ensures Runs(START, es[..k + 1]) == Next(Runs(START, es[..k]), es[k])
  {
    assert es[..k + 1][..k] == es[..k];
  }

  const NULL_REPLY_RUN: seq<Event> := [
    ECreate(1, 10, true), ECreate(2, 20, true), EServe(20, false, 1),
    EAsk(1, 20, 0, false), ESetReturn(2, 20, 0, 1, Some([7])), EClose(20, 0),
    EAsk(1, 20, 0, false), ESetReturn(2, 20, 0, 2, None)]

  /** Client 1 and a one-slot server 2, as the run goes through its states. */
  function Two(slot: Request, cell: Cell, uid: nat, issuer: map<nat, Id>, stored: map<nat, set<Payload>>,
      bare: set<nat>): World {
    World(map[20 := Server(false, [slot], 0)],
          map[1 := Task(1, 10, true, cell), 2 := Task(2, 20, true, CLEARED)],
          map[10 := Space(false, CLEARED, map[]), 20 := Space(false, CLEARED, map[])],
          uid, 2, map[1 := 10, 2 := 20], issuer, stored, bare)
  }

  function Asked(uid: nat): Request {
    Request(uid, Id(1, 1), false, false, Id(0, 0))
  }

  lemma TwoStart()
    ensures Next(Next(Next(START, ECreate(1, 10, true)), ECreate(2, 20, true)), EServe(20, false, 1))
         == Two(IDLE, CLEARED, 0, map[], map[], {})
  {
    assert seq(1, i => IDLE) == [IDLE];
  }

  lemma TwoCell(tasks: map<int, Task>, cell: Cell, c: Cell)
    requires tasks == map[1 := Task(1, 10, true, cell), 2 := Task(2, 20, true, CLEARED)]
    ensures tasks[1 := tasks[1].(cell := c)] == map[1 := Task(1, 10, true, c), 2 := Task(2, 20, true, CLEARED)]
  {
  }

  lemma TwoAsk(cell: Cell, uid: nat, issuer: map<nat, Id>, stored: map<nat, set<Payload>>, bare: set<nat>)
    ensures Next(Two(IDLE, cell, uid, issuer, stored, bare), EAsk(1, 20, 0, false))
         == Two(Asked(uid + 1), cell.(state := Busy), uid + 1, issuer[uid + 1 := Id(1, 1)], stored, bare)
  {
    var w := Two(IDLE, cell, uid, issuer, stored, bare);
    var srv := Server(false, [Asked(uid + 1)], 0);
    assert w.servers[20].(slots := w.servers[20].slots[0 := Asked(uid + 1)]) == srv;
    assert w.servers[20 := srv] == map[20 := srv];
    assert !InHandler(w, 1);
    TwoCell(w.tasks, cell, cell.(state := Busy));
  }

  lemma TwoReply(cell: Cell, uid: nat, issuer: map<nat, Id>, stored: map<nat, set<Payload>>, bare: set<nat>,
      pkg: Option<Payload>)
    requires uid != 0 && uid !in stored
    ensures Next(Two(Asked(uid), cell, uid, issuer, stored, bare), ESetReturn(2, 20, 0, uid, pkg))
         == (if pkg.Some? then
               Two(Asked(uid), Cell(uid, Returned, pkg.value, uid), uid, issuer, stored[uid := {pkg.value}], bare)
             else Two(Asked(uid), Cell(uid, Returned, cell.data, cell.of), uid, issuer, stored, bare + {uid}))
  {
    var w := Two(Asked(uid), cell, uid, issuer, stored, bare);
    assert Serving(w, 2, 20, 0, uid) && Alive(w, Id(1, 1));
    assert Packages(w, uid) == {};
    var c := if pkg.Some? then Cell(uid, Returned, pkg.value, uid) else Cell(uid, Returned, cell.data, cell.of);
    TwoCell(w.tasks, cell, c);
    var v := PutCell(w, 1, false, c);
    assert v == Two(Asked(uid), c, uid, issuer, stored, bare);
    assert pkg.Some? ==> Packages(v, uid) + {pkg.value} == {pkg.value};
  }

  lemma TwoClose(cell: Cell, uid: nat, issuer: map<nat, Id>, stored: map<nat, set<Payload>>, bare: set<nat>)
    ensures Next(Two(Asked(uid), cell, uid, issuer, stored, bare), EClose(20, 0))
         == Two(IDLE, cell, uid, issuer, stored, bare)
  {
    assert [Asked(uid)][0 := IDLE] == [IDLE];
  }

  /** The proviso is needed: a server answers request 1 with [7], which the client does not collect,
      then answers request 2 with a null package; asking for 2 delivers the [7] of request 1. */
  lemma NullReplyMisdelivers()
    ensures var w := Runs(START, NULL_REPLY_RUN);
            && 1 in w.tasks && w.tasks[1].space in w.spaces
            && GetReturn(w, 1, 20, 2, Some(1)).1 == Delivered([7])
            && [7] !in Packages(w, 2)
  {
    NullReplyRun();
  }

  /** The first request, answered with [7]. */
  lemma FirstReplyRun()
    ensures Runs(START, NULL_REPLY_RUN[..5])
         == Two(Asked(1), Cell(1, Returned, [7], 1), 1, map[1 := Id(1, 1)], map[1 := {[7]}], {})
  {
    var es := NULL_REPLY_RUN;
    assert Runs(START, es[..0]) == START;
    hide Next, Two, Runs;
    RunsStep(es, 0);
    RunsStep(es, 1);
    RunsStep(es, 2);
    TwoStart();
    RunsStep(es, 3);
    TwoAsk(CLEARED, 0, map[], map[], {});
    RunsStep(es, 4);
    TwoReply(Cell(0, Busy, [], 0), 1, map[1 := Id(1, 1)], map[], {}, Some([7]));
  }

  lemma NullReplyRun()
    ensures Runs(START, NULL_REPLY_RUN)
         == Two(Asked(2), Cell(2, Returned, [7], 1), 2, map[1 := Id(1, 1), 2 := Id(1, 1)], map[1 := {[7]}], {2})
  {
    var es := NULL_REPLY_RUN;
    hide Next, Two, Runs;
    FirstReplyRun();
    RunsStep(es, 5);
    TwoClose(Cell(1, Returned, [7], 1), 1, map[1 := Id(1, 1)], map[1 := {[7]}], {});
    RunsStep(es, 6);
    TwoAsk(Cell(1, Returned, [7], 1), 1, map[1 := Id(1, 1)], map[1 := {[7]}], {});
    RunsStep(es, 7);
    assert map[1 := Id(1, 1)][2 := Id(1, 1)] == map[1 := Id(1, 1), 2 := Id(1, 1)];
    TwoReply(Cell(1, Busy, [7], 1), 2, map[1 := Id(1, 1), 2 := Id(1, 1)], map[1 := {[7]}], {}, None);
    var none: set<nat> := {};
    assert none + {2} == {2};
    assert es[..8] == es;
  }
}
