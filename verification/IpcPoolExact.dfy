/** When a call on a pool server is served, and what becomes of workers, exactly, in every reachable
    state. */
module IpcPoolExact {
  import opened Options
  import opened IpcPool
  import opened IpcPoolInvariant
  import R = IpcPoolRuns

  // ----- calls

  ghost predicate SlotFree(w: World) {
    exists i :: 0 <= i < |w.slots| && w.slots[i].uid == 0
  }

  ghost predicate WorkerIdle(w: World, core: nat) {
    exists m :: 0 <= m < |w.pool| && IdleOn(w, m, core)
  }

  /** A spawned worker would have a pid and a pool slot, and the policy allows one more on the core. */
  ghost predicate CanGrow(w: World, core: nat, room: Option<int>) {
    && room.Some? && room.value > 0 && room.value !in w.tasks
    && (exists m :: 0 <= m < |w.pool| && !Holds(w, m))
    && (w.multiCore ==> forall m :: 0 <= m < |w.pool| && Standing(w, m) ==> w.tasks[w.pool[m].pid].core != core)
  }

  /** A slot is free, the client waits for no other request in the per-client mode, and a worker is idle
      on its core or can be made. */
  ghost predicate Serviceable(w: World, pid: int, room: Option<int>)
    requires pid in w.tasks
  {
    && SlotFree(w)
    && (!w.multiCore ==> forall i :: 0 <= i < |w.slots| ==> !InFlightOf(w.slots[i], IdOf(w.tasks, pid)))
    && (WorkerIdle(w, w.tasks[pid].core) || CanGrow(w, w.tasks[pid].core, room))
  }

  lemma {:induction false} CountFull(w: World, n: nat)
    requires n <= |w.pool|
    ensures Count(w, n) <= n
    ensures Count(w, n) == n <==> forall m :: 0 <= m < n ==> Holds(w, m)
  {
    if n > 0 {
      CountFull(w, n - 1);
    }
  }

  /** Forgetting dead workers changes neither who holds a slot nor who stands. */
  lemma SweptSame(w: World, n: nat)
    requires n <= |w.pool|
    ensures var v := w.(pool := Swept(w, n));
            |v.pool| == |w.pool| && forall m :: 0 <= m < |w.pool| ==>
              (Holds(v, m) <==> Holds(w, m)) && (Holds(w, m) ==> v.pool[m] == w.pool[m])
  {
  }

  lemma GrowsExactly(w: World, core: nat, room: Option<int>)
    ensures var v := w.(pool := Swept(w, |w.pool|));
            MayGrow(v, core) && room.Some? && room.value > 0 && room.value !in v.tasks <==> CanGrow(w, core, room)
  {
    SweptSame(w, |w.pool|);
    var v := w.(pool := Swept(w, |w.pool|));
    hide Swept;
    CountFull(v, |v.pool|);
    assert forall m :: 0 <= m < |w.pool| ==> (Standing(v, m) <==> Standing(w, m));
    if !HasMember(v, core) {
      forall m | 0 <= m < |w.pool| && Standing(w, m) ensures w.tasks[w.pool[m].pid].core != core {
        assert Standing(v, m);
      }
    }
  }

  lemma AssignExactly(w: World, i: nat, core: nat, room: Option<int>)
    requires i < |w.slots|
    ensures Assign(w, i, core, room).1.Some? <==>
              && (w.multiCore || !ClientBusy(w.slots, w.slots[i].client, i))
              && (WorkerIdle(w, core) || CanGrow(w, core, room))
  {
    GrowsExactly(w, core, room);
    hide CanGrow, MayGrow, Swept, Spawned, Registered, BindTo;
  }

  /** The worker chosen stands in the pool. */
  lemma AssignStands(w: World, i: nat, core: nat, room: Option<int>)
    requires i < |w.slots| && Inv(w, i) && Assign(w, i, core, room).1.Some?
    ensures var (v, p) := Assign(w, i, core, room);
            exists m :: 0 <= m < |v.pool| && Standing(v, m) && v.pool[m].pid == p.value
  {
    var (v, p) := Assign(w, i, core, room);
    var m := FirstIdle(w, core, 0);
    if m < |w.pool| {
      SweptSame(w, m + 1);
      BoundStands(w.(pool := Swept(w, m + 1)), p.value, i, m);
    } else {
      GrowsExactly(w, core, room);
      SweptSame(w, |w.pool|);
      var a := w.(pool := Swept(w, |w.pool|));
      RegisteredStands(a, p.value, core);
      hide Swept;
      var s := Registered(Spawned(a, p.value, core), p.value);
      var k := FirstGone(Spawned(a, p.value, core), 0);
      BoundStands(s, p.value, i, k);
    }
  }

  lemma BoundStands(w: World, pid: int, i: nat, m: nat)
    requires i < |w.slots| && m < |w.pool| && Holds(w, m) && w.pool[m].pid == pid && pid in w.tasks
    requires forall j :: 0 <= j < m ==> !(w.pool[j].pid == pid && w.pool[j].uuid == w.tasks[pid].uuid)
    ensures var v := Woken(BindTo(w, pid, i), pid); |v.pool| == |w.pool| && Standing(v, m) && v.pool[m].pid == pid
  {
    assert MemberAt(w.pool, IdOf(w.tasks, pid), 0) == m;
  }

  lemma RegisteredStands(w: World, pid: int, core: nat)
    requires pid !in w.tasks && pid > 0 && (exists m :: 0 <= m < |w.pool| && !Holds(w, m))
    requires forall m :: 0 <= m < |w.pool| ==> w.pool[m].uuid <= w.lastUuid
    ensures var a := Spawned(w, pid, core); var s, k := Registered(a, pid), FirstGone(a, 0);
            && k < |s.pool| && |s.slots| == |w.slots| && Holds(s, k) && s.pool[k].pid == pid && pid in s.tasks
            && forall j :: 0 <= j < k ==> s.pool[j].uuid != s.tasks[pid].uuid
  {
    var a := Spawned(w, pid, core);
    assert forall m :: 0 <= m < |w.pool| ==> (Holds(a, m) <==> Holds(w, m));
    var k := FirstGone(a, 0);
    forall j | 0 <= j < k ensures Registered(a, pid).pool[j] == w.pool[j] {
      assert Holds(a, j);
    }
  }

  /** In every reachable state a call by a live client is given a uid if and only if it is serviceable, and
      then a standing member of the pool serves it. Otherwise it is to be tried again in the per-core mode
      with a slot free, and the client is parked in all other cases. */
  lemma CallExactly(multiCore: bool, n: nat, es: seq<R.Event>, pid: int, room: Option<int>)
    requires var w := R.Runs(R.Fresh(multiCore, n), es); Alive(w.tasks, pid) && !w.tasks[pid].ours
    ensures var w := R.Runs(R.Fresh(multiCore, n), es); var (v, a) := Call(w, pid, room);
            && (a.Uid? <==> Serviceable(w, pid, room))
            && (a.Retry? <==> !Serviceable(w, pid, room) && multiCore && SlotFree(w))
            && (a.Parked? <==> !Serviceable(w, pid, room) && !(multiCore && SlotFree(w)))
            && (a.Uid? ==> exists i, m :: 0 <= i < |v.slots| && v.slots[i].uid == a.uid
                             && 0 <= m < |v.pool| && Standing(v, m) && v.pool[m].pid == v.slots[i].handler.pid)
  {
    R.RunsInv(multiCore, n, es);
    R.ModeFixed(multiCore, n, es);
    var w := R.Runs(R.Fresh(multiCore, n), es);
    hide R.Runs;
    CallDecides(w, pid, room);
    if Call(w, pid, room).1.Uid? {
      CallStands(w, pid, room);
    }
    hide Call, Inv, Serviceable, SlotFree, Standing;
  }

  lemma CallDecides(w: World, pid: int, room: Option<int>)
    requires Inv(w, -1) && Alive(w.tasks, pid)
    ensures var a := Call(w, pid, room).1;
            && (a.Uid? <==> Serviceable(w, pid, room))
            && (a.Retry? <==> !Serviceable(w, pid, room) && w.multiCore && SlotFree(w))
            && (a.Parked? <==> !Serviceable(w, pid, room) && !(w.multiCore && SlotFree(w)))
  {
    AdmitFullExactly(w, pid);
    var (a, i) := Admit(w, pid);
    assert |w.slots| == IPC_CTX_MAX == |a.slots|;
    if i < |a.slots| {
      AssignExactly(a, i, w.tasks[pid].core, room);
      AdmittedSame(w, pid, room);
      hide Assign, Admit, WorkerIdle, CanGrow, Inv, ClientBusy;
    }
  }

  /** What an admission changes is nothing to the conditions. */
  lemma AdmittedSame(w: World, pid: int, room: Option<int>)
    requires pid in w.tasks && Admit(w, pid).1 < |w.slots|
    ensures var (a, i) := Admit(w, pid); var core := w.tasks[pid].core;
            && a.multiCore == w.multiCore && i < |a.slots|
            && (WorkerIdle(a, core) <==> WorkerIdle(w, core)) && (CanGrow(a, core, room) <==> CanGrow(w, core, room))
            && (ClientBusy(a.slots, a.slots[i].client, i) <==>
                  exists j :: 0 <= j < |w.slots| && InFlightOf(w.slots[j], IdOf(w.tasks, pid)))
  {
    var (a, i) := Admit(w, pid);
    assert forall m :: 0 <= m < |w.pool| ==> (Holds(a, m) <==> Holds(w, m)) && (Standing(a, m) <==> Standing(w, m));
    assert forall m :: 0 <= m < |w.pool| ==> (IdleOn(a, m, w.tasks[pid].core) <==> IdleOn(w, m, w.tasks[pid].core));
    forall j | 0 <= j < |w.slots| && j != i
      ensures InFlightOf(a.slots[j], a.slots[i].client) <==> InFlightOf(w.slots[j], IdOf(w.tasks, pid))
    {
    }
    assert !InFlightOf(w.slots[i], IdOf(w.tasks, pid));
  }

  lemma CallStands(w: World, pid: int, room: Option<int>)
    requires Inv(w, -1) && Alive(w.tasks, pid) && Call(w, pid, room).1.Uid?
    ensures var (v, a) := Call(w, pid, room);
            exists i, m :: 0 <= i < |v.slots| && v.slots[i].uid == a.uid
                           && 0 <= m < |v.pool| && Standing(v, m) && v.pool[m].pid == v.slots[i].handler.pid
  {
    var (x, i) := Admit(w, pid);
    AdmitInv(w, pid);
    var core := w.tasks[pid].core;
    AssignStands(x, i, core, room);
    R.AssignAnswers(x, i, core, room);
    hide Assign, Admit, Inv, Standing;
    var (b, p) := Assign(x, i, core, room);
    var m :| 0 <= m < |b.pool| && Standing(b, m) && b.pool[m].pid == p.value;
    assert b.slots[i].uid == Call(w, pid, room).1.uid;
  }

  // ----- workers

  predicate PidsOk(w: World) {
    forall p :: p in w.tasks ==> p > 0
  }

  lemma {:induction false} TickKeys(w: World, usec: nat, frozen: bool, n: nat)
    requires n <= |w.slots|
    ensures Tick(w, usec, frozen, n).tasks.Keys == w.tasks.Keys
  {
    if n > 0 {
      TickKeys(w, usec, frozen, n - 1);
    }
  }

  lemma CallPids(w: World, pid: int, room: Option<int>)
    requires PidsOk(w) && pid in w.tasks
    ensures PidsOk(Call(w, pid, room).0)
  {
    hide Swept, ClientBusy, HasMember, Count;
  }

  lemma NextPids(w: World, e: R.Event)
    requires PidsOk(w)
    ensures PidsOk(R.Next(w, e))
  {
    match e
    case Watchdog(usec, frozen) => TickKeys(w, usec, frozen, |w.slots|);
    case CallIpc(pid, room) => if pid in w.tasks { CallPids(w, pid, room); }
    case _ =>
  }

  /** Every task has a positive pid. */
  lemma {:induction false} RunsPids(multiCore: bool, n: nat, es: seq<R.Event>)
    ensures PidsOk(R.Runs(R.Fresh(multiCore, n), es))
    decreases |es|
  {
    if es != [] {
      hide R.Next, PidsOk;
      RunsPids(multiCore, n, es[..|es| - 1]);
      NextPids(R.Runs(R.Fresh(multiCore, n), es[..|es| - 1]), es[|es| - 1]);
    }
  }

  /** A worker that ends its request is idle on its core, with the time stamped, if it is a member that is
      not to quit; any other thread of the server is gone, and holds no pool slot. */
  lemma EndExactly(multiCore: bool, n: nat, es: seq<R.Event>, pid: int, now: nat)
    requires var w := R.Runs(R.Fresh(multiCore, n), es); Alive(w.tasks, pid) && w.tasks[pid].ours
    ensures var w := R.Runs(R.Fresh(multiCore, n), es); var v := EndServing(w, pid, now);
            && |v.pool| == |w.pool| && pid in v.tasks
            && (if exists m :: 0 <= m < |w.pool| && Standing(w, m) && w.pool[m].pid == pid
                then exists m :: 0 <= m < |w.pool| && IdleOn(v, m, w.tasks[pid].core) && v.pool[m].pid == pid
                                 && v.pool[m].idleSec == now
                else !Alive(v.tasks, pid) && forall m :: 0 <= m < |v.pool| && Holds(v, m) ==> v.pool[m].pid != pid)
  {
    R.RunsInv(multiCore, n, es);
    RunsPids(multiCore, n, es);
    var w := R.Runs(R.Fresh(multiCore, n), es);
    hide R.Runs;
    MemberTells(w, pid);
    assert pid > 0;
    var m := MemberAt(w.pool, IdOf(w.tasks, pid), 0);
    var v := EndServing(w, pid, now);
    if m < |w.pool| && Standing(w, m) {
      assert IdleOn(v, m, w.tasks[pid].core);
    }
  }

  /** A live task that parks is blocked, with the time on its record if it has one; a member told to quit is
      gone instead, and its record empty. */
  lemma ParkExactly(w: World, pid: int, now: nat)
    requires Alive(w.tasks, pid)
    ensures var v := Park(w, pid, now); var m := MemberAt(w.pool, IdOf(w.tasks, pid), 0);
            && |v.pool| == |w.pool| && pid in v.tasks
            && (if m < |w.pool| && w.pool[m].quit
                then !Alive(v.tasks, pid) && v.pool[m] == EMPTY
                else Alive(v.tasks, pid) && v.tasks[pid].state == Blocked && v.slots == w.slots
                     && (m < |w.pool| ==> v.pool[m] == w.pool[m].(idleSec := now)))
            && (forall j :: 0 <= j < |w.pool| && j != m ==> v.pool[j] == w.pool[j])
  {
  }

  /** What a task's birth, exec and burial do: a birth and an exec give an identity nobody had, under which
      the task lives; a burial frees the pid of a dead task and of no other. */
  lemma LivesExactly(multiCore: bool, n: nat, es: seq<R.Event>, pid: int, ours: bool, core: nat, q: int)
    ensures var w := R.Runs(R.Fresh(multiCore, n), es);
            && (pid > 0 && pid !in w.tasks ==>
                  var v := Created(w, pid, ours, core);
                  && Alive(v.tasks, pid) && v.tasks[pid].ours == ours && v.tasks[pid].core == core
                  && v.tasks[pid].serving == None && (q in w.tasks ==> w.tasks[q].uuid != v.tasks[pid].uuid))
            && (Alive(w.tasks, pid) && !w.tasks[pid].ours ==>
                  var v := Execed(w, pid);
                  && Alive(v.tasks, pid) && v.tasks[pid].(uuid := 0) == w.tasks[pid].(uuid := 0)
                  && (q in w.tasks ==> w.tasks[q].uuid != v.tasks[pid].uuid))
            && (q in Buried(w, pid).tasks <==> q in w.tasks && !(q == pid && !Alive(w.tasks, pid)))
  {
    R.RunsInv(multiCore, n, es);
  }

  /** The member record of a live task is the one slot that holds it. */
  lemma MemberTells(w: World, pid: int)
    requires Inv(w, -1) && Alive(w.tasks, pid)
    ensures var m := MemberAt(w.pool, IdOf(w.tasks, pid), 0);
            && (m < |w.pool| ==> w.pool[m].pid == pid && (pid > 0 ==> Holds(w, m)))
            && (forall j :: 0 <= j < |w.pool| && Holds(w, j) && w.pool[j].pid == pid ==> j == m)
  {
    var m := MemberAt(w.pool, IdOf(w.tasks, pid), 0);
    forall j | 0 <= j < |w.pool| && Holds(w, j) && w.pool[j].pid == pid ensures j == m {
      assert m <= j;
      assert m < j ==> Holds(w, m);
    }
  }

  /** A sweep marks and wakes exactly one member when some are tired, the last of them, and otherwise
      nobody: only the tired are sent home. */
  lemma ShrinkExactly(multiCore: bool, n: nat, es: seq<R.Event>, now: nat, m: nat)
    requires m < |R.Runs(R.Fresh(multiCore, n), es).pool|
    ensures var w := R.Runs(R.Fresh(multiCore, n), es); var v := Shrink(w, now);
            var last := Tired(w, m, now) && forall j :: m < j < |w.pool| ==> !Tired(w, j, now);
            && |v.pool| == |w.pool| && v.tasks.Keys == w.tasks.Keys
            && (Holds(v, m) <==> Holds(w, m))
            && (Holds(w, m) ==>
                  && v.pool[m] == w.pool[m].(quit := w.pool[m].quit || last)
                  && var t := w.tasks[w.pool[m].pid];
                     v.tasks[w.pool[m].pid] == t.(state := if last then Active else t.state))
  {
    R.RunsInv(multiCore, n, es);
    var w := R.Runs(R.Fresh(multiCore, n), es);
    hide R.Runs;
    SweptSame(w, |w.pool|);
    var x := w.(pool := Swept(w, |w.pool|));
    hide Swept;
    assert forall j :: 0 <= j < |w.pool| ==> (Tired(x, j, now) <==> Tired(w, j, now));
    var k := LastTired(x, now, |x.pool|);
    if k < |x.pool| {
      assert Holds(w, k);
    }
  }

  /** A task that dies takes its request with it and no other, and holds no pool slot any more. */
  lemma KillExactly(multiCore: bool, n: nat, es: seq<R.Event>, pid: int, i: nat)
    requires var w := R.Runs(R.Fresh(multiCore, n), es); Alive(w.tasks, pid) && i < |w.slots|
    ensures var w := R.Runs(R.Fresh(multiCore, n), es); var v := Terminated(w, pid);
            && pid in v.tasks && !Alive(v.tasks, pid) && |v.slots| == |w.slots| && v.tasks.Keys == w.tasks.Keys
            && (forall q :: q in w.tasks && q != pid ==> v.tasks[q] == w.tasks[q])
            && v.slots[i] == (if w.slots[i].uid != 0 && w.slots[i].handler == IdOf(w.tasks, pid)
                              then IDLE else w.slots[i])
            && forall m :: 0 <= m < |v.pool| && Holds(v, m) ==> v.pool[m].pid != pid
  {
    R.RunsInv(multiCore, n, es);
    var w := R.Runs(R.Fresh(multiCore, n), es);
    hide R.Runs;
    if w.tasks[pid].serving.Some? {
      assert Serves(w, pid);
      assert Bound(w, w.tasks[pid].serving.value);
    }
    if w.slots[i].uid != 0 {
      assert Bound(w, i);
    }
  }

  /** When the server goes, no request is in flight and none of its threads lives; others are untouched. */
  lemma DownExactly(w: World, pid: int)
    requires pid in w.tasks
    ensures var v := ServerDown(w);
            && (forall i :: 0 <= i < |v.slots| ==> v.slots[i].uid == 0) && v.taskNum == 0 && pid in v.tasks
            && (if w.tasks[pid].ours then !Alive(v.tasks, pid) else v.tasks[pid] == w.tasks[pid])
  {
  }
}
