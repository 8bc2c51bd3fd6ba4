/** Every step of a pool server keeps its requests and workers tied one to one. */
module IpcPoolInvariant {
  import opened Options
  import opened IpcPool

  lemma {:induction false} OccupiedUpdate(slots: seq<Request>, i: nat, r: Request)
    requires i < |slots|
    ensures Occupied(slots[i := r]) + (if slots[i].uid != 0 then 1 else 0)
         == Occupied(slots) + (if r.uid != 0 then 1 else 0)
    decreases |slots|
  {
    var n := |slots| - 1;
    var t := slots[i := r];
    if i == n {
      assert t[..n] == slots[..n];
    } else {
      assert t[..n] == slots[..n][i := r];
      OccupiedUpdate(slots[..n], i, r);
    }
  }

  lemma {:induction false} OccupiedFull(slots: seq<Request>)
    ensures Occupied(slots) <= |slots|
    ensures Occupied(slots) == |slots| <==> FreeSlot(slots, 0) == |slots|
    decreases |slots|
  {
    if slots != [] {
      var n := |slots| - 1;
      OccupiedFull(slots[..n]);
      var a, b := FreeSlot(slots, 0), FreeSlot(slots[..n], 0);
      assert forall j :: 0 <= j < n ==> slots[..n][j] == slots[j];
    }
  }

  // ----- admission

  /** A request is refused exactly when every slot is taken. */
  lemma AdmitFullExactly(w: World, pid: int)
    requires Inv(w, -1) && pid in w.tasks
    ensures Admit(w, pid).1 < IPC_CTX_MAX <==> exists i :: 0 <= i < |w.slots| && w.slots[i].uid == 0
    ensures Admit(w, pid).1 >= IPC_CTX_MAX ==> Admit(w, pid).0 == w
  {
    OccupiedFull(w.slots);
  }

  lemma AdmitInv(w: World, pid: int)
    requires Inv(w, -1) && Alive(w.tasks, pid) && Admit(w, pid).1 < IPC_CTX_MAX
    ensures Inv(Admit(w, pid).0, Admit(w, pid).1)
  {
    var (a, i) := Admit(w, pid);
    SamePool(w, a);
    hide PoolDistinct, OnePerCore, UuidsDistinct, Occupied;
    OccupiedUpdate(w.slots, i, a.slots[i]);
    forall j | 0 <= j < |a.slots| && j != i && a.slots[j].uid != 0 ensures Bound(a, j) {
      assert Bound(w, j);
    }
    forall q | q in a.tasks && a.tasks[q].serving.Some? ensures Serves(a, q) {
      assert Serves(w, q);
    }
  }

  // ----- releasing a slot

  /** Resetting a slot leaves the others distinct. */
  lemma ClearedSlots(w: World, k: nat, j: int)
    requires k < |w.slots| && UidsDistinct(w) && IdleBlank(w) && OnePerClient(w, j) && (j == -1 || j == k)
    ensures var a := w.(slots := w.slots[k := IDLE]); UidsDistinct(a) && IdleBlank(a) && OnePerClient(a, -1)
  {
  }

  /** Giving up slot `k`, admitted but never bound. */
  lemma VacatedInv(w: World, k: nat)
    requires Inv(w, k)
    ensures Inv(Vacated(w, k), -1)
  {
    var a := Vacated(w, k);
    SamePool(w, a);
    OccupiedUpdate(w.slots, k, IDLE);
    ClearedSlots(w, k, k);
    hide PoolDistinct, OnePerCore, UuidsDistinct, Occupied, UidsDistinct, OnePerClient, IdleBlank;
    forall j | 0 <= j < |a.slots| && a.slots[j].uid != 0 ensures Bound(a, j) {
      assert Bound(w, j);
    }
    forall q | q in a.tasks && a.tasks[q].serving.Some? ensures Serves(a, q) {
      assert Serves(w, q);
    }
    SlotFacts(w, a);
  }

  /** Facts about the slots alone carry over to a world with the same slots. */
  lemma SlotFacts(w: World, a: World)
    ensures a.slots == w.slots && a.lastUid == w.lastUid && UidsDistinct(w) ==> UidsDistinct(a)
  {
  }

  /** Detaching the worker of slot `i` and freeing the slot. */
  lemma ReleasedInv(w: World, i: nat)
    requires Inv(w, -1) && i < |w.slots| && w.slots[i].uid != 0
    ensures Bound(w, i) && Inv(Vacated(SetServing(w, w.slots[i].handler.pid, None), i), -1)
    ensures Aborted(w, i) == Vacated(SetServing(w, w.slots[i].handler.pid, None), i)
  {
    assert Bound(w, i);
    var h := w.slots[i].handler;
    var a := Vacated(SetServing(w, h.pid, None), i);
    SamePool(w, a);
    ReleasedBound(w, i);
    OccupiedUpdate(w.slots, i, IDLE);
    ClearedSlots(w, i, -1);
    hide PoolDistinct, OnePerCore, UuidsDistinct, Occupied, SlotsBound, WorkersBound, UidsDistinct, OnePerClient;
  }

  lemma ReleasedBound(w: World, i: nat)
    requires SlotsBound(w, -1) && WorkersBound(w) && i < |w.slots| && w.slots[i].uid != 0 && Bound(w, i)
    ensures var a := Vacated(SetServing(w, w.slots[i].handler.pid, None), i); SlotsBound(a, -1) && WorkersBound(a)
  {
    var a := Vacated(SetServing(w, w.slots[i].handler.pid, None), i);
    forall j | 0 <= j < |a.slots| && a.slots[j].uid != 0 ensures Bound(a, j) {
      assert Bound(w, j);
    }
    forall q | q in a.tasks && a.tasks[q].serving.Some? ensures Serves(a, q) {
      assert Serves(w, q);
    }
  }

  /** The pool's promises depend only on who is alive under which uuid and core. */
  predicate SameTasks(w: World, a: World) {
    && a.tasks.Keys == w.tasks.Keys && a.pool == w.pool && a.lastUuid == w.lastUuid && a.multiCore == w.multiCore
    && forall p :: p in w.tasks ==>
         a.tasks[p].uuid == w.tasks[p].uuid && a.tasks[p].core == w.tasks[p].core && a.tasks[p].ours == w.tasks[p].ours
  }

  lemma SamePool(w: World, a: World)
    requires PoolDistinct(w) && OnePerCore(w) && UuidsDistinct(w) && SameTasks(w, a)
    ensures PoolDistinct(a) && OnePerCore(a) && UuidsDistinct(a)
  {
    assert forall i :: 0 <= i < |w.pool| ==> (Holds(a, i) <==> Holds(w, i));
    assert forall i :: 0 <= i < |w.pool| ==> (Standing(a, i) <==> Standing(w, i));
  }

  lemma AbortedInv(w: World, i: nat)
    requires Inv(w, -1) && i < |w.slots|
    ensures Inv(Aborted(w, i), -1)
  {
    if w.slots[i].uid != 0 {
      ReleasedInv(w, i);
    }
  }

  lemma SetStateInv(w: World, k: int, pid: int, st: RunState)
    requires Inv(w, k) && pid in w.tasks
    ensures Inv(SetState(w, pid, st), k)
  {
    var a := SetState(w, pid, st);
    forall j | 0 <= j < |a.slots| && j != k && a.slots[j].uid != 0 ensures Bound(a, j) {
      assert Bound(w, j);
    }
    forall q | q in a.tasks && a.tasks[q].serving.Some? ensures Serves(a, q) {
      assert Serves(w, q);
    }
    SamePool(w, a);
  }

  // ----- giving a request to a worker

  lemma SweptInv(w: World, k: int, n: nat)
    requires Inv(w, k) && n <= |w.pool|
    ensures Inv(w.(pool := Swept(w, n)), k)
    ensures forall i :: 0 <= i < |w.pool| && Holds(w, i) ==> Swept(w, n)[i] == w.pool[i]
  {
    var a := w.(pool := Swept(w, n));
    forall j | 0 <= j < |a.slots| && j != k && a.slots[j].uid != 0 ensures Bound(a, j) {
      assert Bound(w, j);
    }
    forall q | q in a.tasks && a.tasks[q].serving.Some? ensures Serves(a, q) {
      assert Serves(w, q);
    }
    forall i | 0 <= i < |a.pool| ensures Holds(a, i) ==> Holds(w, i) && a.pool[i] == w.pool[i] {
    }
    forall i | 0 <= i < |a.pool| ensures Standing(a, i) ==> Standing(w, i) {
    }
  }

  /** `pid` may take slot `i`: a live idle worker of ours on the right core. */
  predicate Fit(w: World, pid: int, i: nat)
    requires i < |w.slots|
  {
    Alive(w.tasks, pid) && w.tasks[pid].ours && w.tasks[pid].serving == None && w.tasks[pid].core == w.slots[i].core
  }

  lemma BindToInv(w: World, pid: int, i: nat)
    requires Inv(w, i) && Fit(w, pid, i) && OnePerClient(w, -1)
    requires forall m :: 0 <= m < |w.pool| && w.pool[m].pid == pid && Holds(w, m) ==> !w.pool[m].quit
    ensures Inv(BindTo(w, pid, i), -1)
  {
    var a := BindTo(w, pid, i);
    BindPool(w, pid, i);
    hide PoolDistinct, OnePerCore, UuidsDistinct, Occupied;
    OccupiedUpdate(w.slots, i, a.slots[i]);
    forall j | 0 <= j < |a.slots| && a.slots[j].uid != 0 ensures Bound(a, j) {
      if j != i {
        assert Bound(w, j);
      }
    }
    forall q | q in a.tasks && a.tasks[q].serving.Some? ensures Serves(a, q) {
      if q != pid {
        assert Serves(w, q);
      }
    }
  }

  lemma BindPool(w: World, pid: int, i: nat)
    requires PoolDistinct(w) && OnePerCore(w) && UuidsDistinct(w) && Alive(w.tasks, pid) && i < |w.slots|
    requires forall m :: 0 <= m < |w.pool| && w.pool[m].pid == pid && Holds(w, m) ==> !w.pool[m].quit
    ensures var a := BindTo(w, pid, i); PoolDistinct(a) && OnePerCore(a) && UuidsDistinct(a)
  {
    var a := BindTo(w, pid, i);
    BindShape(w, pid, i);
    hide BindTo;
    assert forall j :: 0 <= j < |w.pool| ==> (Holds(a, j) <==> Holds(w, j));
    assert forall j :: 0 <= j < |w.pool| ==> (Standing(a, j) ==> Standing(w, j));
  }

  /** Binding changes no identity and no core, and may only call off the retirement of the worker. */
  lemma BindShape(w: World, pid: int, i: nat)
    requires Alive(w.tasks, pid) && i < |w.slots|
    ensures var a := BindTo(w, pid, i);
            && a.tasks.Keys == w.tasks.Keys && a.lastUuid == w.lastUuid && a.multiCore == w.multiCore
            && (forall p :: p in w.tasks ==> a.tasks[p].uuid == w.tasks[p].uuid && a.tasks[p].core == w.tasks[p].core
                                             && a.tasks[p].ours == w.tasks[p].ours)
            && |a.pool| == |w.pool|
            && (forall j :: 0 <= j < |w.pool| ==>
                  && a.pool[j].pid == w.pool[j].pid && a.pool[j].uuid == w.pool[j].uuid
                  && (a.pool[j].quit == w.pool[j].quit || w.pool[j].pid == pid))
  {
  }

  lemma SpawnedInv(w: World, k: int, pid: int, core: nat)
    requires Inv(w, k) && pid !in w.tasks
    ensures Inv(Spawned(w, pid, core), k)
    ensures forall i :: 0 <= i < |w.pool| ==> w.pool[i].pid != pid || !Holds(Spawned(w, pid, core), i)
    ensures forall i :: 0 <= i < |w.pool| ==> (Holds(Spawned(w, pid, core), i) <==> Holds(w, i))
  {
    var a := Spawned(w, pid, core);
    forall j | 0 <= j < |a.slots| && j != k && a.slots[j].uid != 0 ensures Bound(a, j) {
      assert Bound(w, j);
    }
    forall q | q in a.tasks && a.tasks[q].serving.Some? ensures Serves(a, q) {
      assert Serves(w, q);
    }
    assert forall i :: 0 <= i < |w.pool| ==> (Holds(a, i) <==> Holds(w, i));
    assert forall i :: 0 <= i < |w.pool| ==> (Standing(a, i) <==> Standing(w, i));
  }

  /** Registering the fresh worker; in the per-core mode only where the core had no member. */
  lemma RegisteredInv(w: World, k: int, pid: int)
    requires Inv(w, k) && Alive(w.tasks, pid) && w.tasks[pid].ours && pid > 0
    requires forall i :: 0 <= i < |w.pool| && Holds(w, i) ==> w.pool[i].pid != pid
    requires w.multiCore ==> !HasMember(w, w.tasks[pid].core)
    ensures Inv(Registered(w, pid), k)
    ensures var a := Registered(w, pid);
            forall m :: 0 <= m < |a.pool| && a.pool[m].pid == pid && Holds(a, m) ==> !a.pool[m].quit
  {
    RegisteredPool(w, k, pid);
    var a := Registered(w, pid);
    hide PoolDistinct, OnePerCore, Registered;
    forall j | 0 <= j < |a.slots| && j != k && a.slots[j].uid != 0 ensures Bound(a, j) {
      assert Bound(w, j);
    }
    forall q | q in a.tasks && a.tasks[q].serving.Some? ensures Serves(a, q) {
      assert Serves(w, q);
    }
  }

  /** The fresh member aside, the registered pool holds only members the old one held. */
  lemma RegisteredPool(w: World, k: int, pid: int)
    requires Inv(w, k) && Alive(w.tasks, pid) && w.tasks[pid].ours && pid > 0
    requires forall i :: 0 <= i < |w.pool| && Holds(w, i) ==> w.pool[i].pid != pid
    requires w.multiCore ==> !HasMember(w, w.tasks[pid].core)
    ensures var a := Registered(w, pid);
            a == w.(pool := a.pool) && PoolDistinct(a) && OnePerCore(a)
            && forall m :: 0 <= m < |a.pool| && a.pool[m].pid == pid && Holds(a, m) ==> !a.pool[m].quit
  {
    hide SlotsBound, WorkersBound, OnePerClient, UidsDistinct;
    var n := FirstGone(w, 0);
    SweptInv(w, k, n);
    SweptInv(w, k, |w.pool|);
    if n < |w.pool| {
      AddMember(w.(pool := Swept(w, n)), n, pid);
    }
  }

  lemma AddMember(w: World, n: nat, pid: int)
    requires PoolDistinct(w) && OnePerCore(w) && n < |w.pool| && !Holds(w, n)
    requires Alive(w.tasks, pid) && w.tasks[pid].ours && pid > 0 && w.tasks[pid].uuid <= w.lastUuid
    requires forall i :: 0 <= i < |w.pool| && Holds(w, i) ==> w.pool[i].pid != pid
    requires w.multiCore ==> !HasMember(w, w.tasks[pid].core)
    ensures var a := w.(pool := w.pool[n := Member(pid, w.tasks[pid].uuid, 0, false)]);
            PoolDistinct(a) && OnePerCore(a)
            && forall m :: 0 <= m < |a.pool| && a.pool[m].pid == pid && Holds(a, m) ==> !a.pool[m].quit
  {
    var a := w.(pool := w.pool[n := Member(pid, w.tasks[pid].uuid, 0, false)]);
    assert forall i :: 0 <= i < |a.pool| && i != n ==> (Holds(a, i) <==> Holds(w, i));
    assert forall i :: 0 <= i < |a.pool| && i != n ==> (Standing(a, i) <==> Standing(w, i));
  }

  lemma NotBusy(w: World, i: nat)
    requires OnePerClient(w, i) && i < |w.slots|
    requires w.multiCore || !ClientBusy(w.slots, w.slots[i].client, i)
    ensures OnePerClient(w, -1)
  {
    if !w.multiCore {
      forall a, b | 0 <= a < b < |w.slots| && w.slots[a].uid != 0 && w.slots[b].uid != 0
        ensures w.slots[a].client != w.slots[b].client
      {
        if a == i {
          assert !InFlightOf(w.slots[b], w.slots[i].client);
        } else if b == i {
          assert !InFlightOf(w.slots[a], w.slots[i].client);
        }
      }
    }
  }

  lemma WokenInv(w: World, k: int, pid: int)
    requires Inv(w, k)
    ensures Inv(Woken(w, pid), k)
  {
    if Alive(w.tasks, pid) {
      SetStateInv(w, k, pid, Active);
    }
  }

  lemma AssignIdleInv(w: World, i: nat, core: nat)
    requires Inv(w, i) && core == w.slots[i].core && OnePerClient(w, -1)
    requires FirstIdle(w, core, 0) < |w.pool|
    ensures var m := FirstIdle(w, core, 0); var pid := w.pool[m].pid;
            Fit(w, pid, i) && Inv(BindTo(w.(pool := Swept(w, m + 1)), pid, i), -1)
  {
    var m := FirstIdle(w, core, 0);
    SweptInv(w, i, m + 1);
    var v := w.(pool := Swept(w, m + 1));
    assert Holds(w, m) && v.pool[m] == w.pool[m] && Holds(v, m);
    forall j | 0 <= j < |v.pool| && v.pool[j].pid == v.pool[m].pid && Holds(v, j) ensures !v.pool[j].quit {
      assert j == m;
    }
    BindToInv(v, w.pool[m].pid, i);
  }

  lemma AssignFreshInv(w: World, i: nat, core: nat, pid: int)
    requires Inv(w, i) && core == w.slots[i].core && OnePerClient(w, -1)
    requires MayGrow(w, core) && pid > 0 && pid !in w.tasks
    ensures Inv(BindTo(Registered(Spawned(w, pid, core), pid), pid, i), -1)
  {
    var v := Spawned(w, pid, core);
    SpawnedInv(w, i, pid, core);
    assert w.multiCore ==> !HasMember(v, core);
    RegisteredInv(v, i, pid);
    BindToInv(Registered(v, pid), pid, i);
  }

  lemma AssignFromPool(w: World, i: nat, core: nat, room: Option<int>)
    requires Inv(w, i) && i < |w.slots| && core == w.slots[i].core && OnePerClient(w, -1)
    requires w.multiCore || !ClientBusy(w.slots, w.slots[i].client, i)
    requires FirstIdle(w, core, 0) < |w.pool|
    ensures var (a, p) := Assign(w, i, core, room); p.Some? && Inv(a, -1) && a.multiCore == w.multiCore
  {
    hide Inv, Swept, OnePerClient;
    AssignIdleInv(w, i, core);
    var m := FirstIdle(w, core, 0);
    WokenInv(BindTo(w.(pool := Swept(w, m + 1)), w.pool[m].pid, i), -1, w.pool[m].pid);
  }

  lemma AssignByGrowth(w: World, i: nat, core: nat, room: Option<int>)
    requires Inv(w, i) && i < |w.slots| && core == w.slots[i].core && OnePerClient(w, -1)
    requires w.multiCore || !ClientBusy(w.slots, w.slots[i].client, i)
    requires FirstIdle(w, core, 0) == |w.pool|
    ensures var (a, p) := Assign(w, i, core, room); Inv(a, if p.Some? then -1 else i)
    ensures var (a, p) := Assign(w, i, core, room); p == None ==> a.tasks == w.tasks && a.slots == w.slots
    ensures var (a, p) := Assign(w, i, core, room); a.multiCore == w.multiCore
  {
    SweptInv(w, i, |w.pool|);
    var v := w.(pool := Swept(w, |w.pool|));
    assert OnePerClient(v, -1);
    hide Inv, Swept, OnePerClient, Spawned, Registered, BindTo;
    if MayGrow(v, core) && room.Some? && room.value > 0 && room.value !in v.tasks {
      AssignFreshInv(v, i, core, room.value);
      GrownMode(v, i, core, room.value);
      WokenInv(BindTo(Registered(Spawned(v, room.value, core), room.value), room.value, i), -1, room.value);
    }
  }

  lemma GrownMode(w: World, i: nat, core: nat, pid: int)
    requires i < |w.slots|
    ensures BindTo(Registered(Spawned(w, pid, core), pid), pid, i).multiCore == w.multiCore
  {
  }

  /** Assignment binds the request, or leaves it unbound with nothing else changed but the pool's
      forgotten slots. */
  lemma AssignInv(w: World, i: nat, core: nat, room: Option<int>)
    requires Inv(w, i) && core == w.slots[i].core
    ensures var (a, p) := Assign(w, i, core, room); Inv(a, if p.Some? then -1 else i)
    ensures var (a, p) := Assign(w, i, core, room); p == None ==> a.tasks == w.tasks && a.slots == w.slots
    ensures var (a, p) := Assign(w, i, core, room); a.multiCore == w.multiCore
  {
    assert OnePerClient(w, i) && i < |w.slots|;
    hide Inv, OnePerClient;
    if w.multiCore || !ClientBusy(w.slots, w.slots[i].client, i) {
      NotBusy(w, i);
      hide Assign;
      if FirstIdle(w, core, 0) < |w.pool| {
        AssignFromPool(w, i, core, room);
      } else {
        AssignByGrowth(w, i, core, room);
      }
    }
  }

  /** A call admits and binds the request, or leaves the request table as it was. */
  lemma CallInv(w: World, pid: int, room: Option<int>)
    requires Inv(w, -1) && Alive(w.tasks, pid)
    ensures Inv(Call(w, pid, room).0, -1)
  {
    hide SlotsBound, WorkersBound, PoolDistinct, OnePerCore, UuidsDistinct, Assign;
    var (a, i) := Admit(w, pid);
    if i >= |a.slots| {
      SetStateInv(w, -1, pid, Blocked);
    } else {
      AdmitInv(w, pid);
      AssignInv(a, i, w.tasks[pid].core, room);
      var (b, p) := Assign(a, i, w.tasks[pid].core, room);
      if p == None {
        VacatedInv(b, i);
        SetStateInv(Vacated(b, i), -1, pid, Blocked);
      }
    }
  }

  // ----- tasks come and go

  /** A task that serves nothing dies. */
  lemma KilledInv(w: World, pid: int)
    requires Inv(w, -1) && pid in w.tasks && w.tasks[pid].serving == None
    ensures Inv(w.(tasks := w.tasks[pid := w.tasks[pid].(uuid := 0, state := Zombie, serving := None)]), -1)
  {
    var a := w.(tasks := w.tasks[pid := w.tasks[pid].(uuid := 0, state := Zombie, serving := None)]);
    forall j | 0 <= j < |a.slots| && a.slots[j].uid != 0 ensures Bound(a, j) {
      assert Bound(w, j);
    }
    forall q | q in a.tasks && a.tasks[q].serving.Some? ensures Serves(a, q) {
      assert Serves(w, q);
    }
    FewerAlive(w, a);
  }

  /** Pool promises survive tasks dying or being reaped. */
  lemma FewerAlive(w: World, a: World)
    requires PoolDistinct(w) && OnePerCore(w) && UuidsDistinct(w)
    requires a.pool == w.pool && a.lastUuid == w.lastUuid && a.multiCore == w.multiCore
    requires forall p :: p in a.tasks ==>
        p in w.tasks && a.tasks[p].core == w.tasks[p].core && a.tasks[p].ours == w.tasks[p].ours
    requires forall p :: p in a.tasks ==> a.tasks[p].uuid == 0 || a.tasks[p].uuid == w.tasks[p].uuid
    ensures PoolDistinct(a) && OnePerCore(a) && UuidsDistinct(a)
  {
    assert forall i :: 0 <= i < |w.pool| ==> (Holds(a, i) ==> Holds(w, i));
    assert forall i :: 0 <= i < |w.pool| ==> (Standing(a, i) ==> Standing(w, i));
  }

  lemma TerminatedInv(w: World, pid: int)
    requires Inv(w, -1)
    ensures Inv(Terminated(w, pid), -1)
  {
    if Alive(w.tasks, pid) {
      var s := w.tasks[pid].serving;
      if s.Some? {
        assert Serves(w, pid);
        assert Bound(w, s.value);
        ReleasedInv(w, s.value);
        KilledInv(Aborted(w, s.value), pid);
      } else {
        KilledInv(w, pid);
      }
    }
  }

  /** Rewriting a pool slot of one worker without making it a member it was not. */
  lemma PoolSlotInv(w: World, k: int, m: nat, x: Member)
    requires Inv(w, k) && m < |w.pool|
    requires x == EMPTY || (x.pid == w.pool[m].pid && x.uuid == w.pool[m].uuid && (w.pool[m].quit ==> x.quit))
    ensures Inv(w.(pool := w.pool[m := x]), k)
  {
    var a := w.(pool := w.pool[m := x]);
    forall j | 0 <= j < |a.slots| && j != k && a.slots[j].uid != 0 ensures Bound(a, j) {
      assert Bound(w, j);
    }
    forall q | q in a.tasks && a.tasks[q].serving.Some? ensures Serves(a, q) {
      assert Serves(w, q);
    }
    assert forall i :: 0 <= i < |w.pool| ==> (Holds(a, i) ==> Holds(w, i));
    assert forall i :: 0 <= i < |w.pool| ==> (Standing(a, i) ==> Standing(w, i));
  }

  lemma ParkInv(w: World, pid: int, now: nat)
    requires Inv(w, -1) && pid in w.tasks
    ensures Inv(Park(w, pid, now), -1)
  {
    hide SlotsBound, WorkersBound, PoolDistinct, OnePerCore, UuidsDistinct, Terminated;
    SetStateInv(w, -1, pid, Blocked);
    var b := SetState(w, pid, Blocked);
    var m := MemberAt(w.pool, IdOf(w.tasks, pid), 0);
    if m < |w.pool| {
      if w.pool[m].quit {
        PoolSlotInv(b, -1, m, EMPTY);
        TerminatedInv(b.(pool := b.pool[m := EMPTY]), pid);
      } else {
        PoolSlotInv(b, -1, m, b.pool[m].(idleSec := now));
      }
    }
  }

  lemma EndServingInv(w: World, pid: int, now: nat)
    requires Inv(w, -1) && pid in w.tasks
    ensures Inv(EndServing(w, pid, now), -1)
  {
    var s := w.tasks[pid].serving;
    var a := SetServing(w, pid, None);
    var b: World;
    if s.Some? {
      assert Serves(w, pid);
      assert Bound(w, s.value);
      ReleasedInv(w, s.value);
      b := Vacated(a, s.value);
    } else {
      assert a == w;
      b := w;
    }
    hide SlotsBound, WorkersBound, PoolDistinct, OnePerCore, UuidsDistinct, Terminated, Park;
    if MemberAt(w.pool, IdOf(w.tasks, pid), 0) < |w.pool| {
      ParkInv(b, pid, now);
    } else {
      TerminatedInv(b, pid);
    }
  }

  lemma AgedInv(w: World, i: nat, c: nat)
    requires Inv(w, -1) && i < |w.slots| && w.slots[i].uid != 0
    ensures Inv(w.(slots := w.slots[i := w.slots[i].(counter := c)]), -1)
  {
    var a := w.(slots := w.slots[i := w.slots[i].(counter := c)]);
    SamePool(w, a);
    hide PoolDistinct, OnePerCore, UuidsDistinct, Occupied;
    OccupiedUpdate(w.slots, i, a.slots[i]);
    forall j | 0 <= j < |a.slots| && a.slots[j].uid != 0 ensures Bound(a, j) {
      assert Bound(w, j);
    }
    forall q | q in a.tasks && a.tasks[q].serving.Some? ensures Serves(a, q) {
      assert Serves(w, q);
    }
  }

  lemma TickSlotInv(w: World, i: nat, usec: nat, frozen: bool)
    requires Inv(w, -1) && i < |w.slots|
    ensures Inv(TickSlot(w, i, usec, frozen), -1)
  {
    hide Inv, Aborted;
    AbortedInv(w, i);
    if w.slots[i].uid != 0 {
      AgedInv(w, i, 0);
      AgedInv(w, i, w.slots[i].counter + usec);
      AbortedInv(w.(slots := w.slots[i := w.slots[i].(counter := w.slots[i].counter + usec)]), i);
    }
  }

  lemma {:induction false} TickInv(w: World, usec: nat, frozen: bool, n: nat)
    requires Inv(w, -1) && n <= |w.slots|
    ensures Inv(Tick(w, usec, frozen, n), -1)
  {
    hide Inv, TickSlot;
    if n > 0 {
      TickInv(w, usec, frozen, n - 1);
      TickSlotInv(Tick(w, usec, frozen, n - 1), n - 1, usec, frozen);
    }
  }

  lemma ShrinkInv(w: World, now: nat)
    requires Inv(w, -1)
    ensures Inv(Shrink(w, now), -1)
  {
    hide SlotsBound, WorkersBound, PoolDistinct, OnePerCore, UuidsDistinct;
    SweptInv(w, -1, |w.pool|);
    var v := w.(pool := Swept(w, |w.pool|));
    var k := LastTired(v, now, |v.pool|);
    if k < |v.pool| {
      PoolSlotInv(v, -1, k, v.pool[k].(quit := true));
      WokenInv(v.(pool := v.pool[k := v.pool[k].(quit := true)]), -1, v.pool[k].pid);
    }
  }

  lemma {:induction false} OccupiedNone(slots: seq<Request>)
    requires forall i :: 0 <= i < |slots| ==> slots[i].uid == 0
    ensures Occupied(slots) == 0
    decreases |slots|
  {
    if slots != [] {
      OccupiedNone(slots[..|slots| - 1]);
    }
  }

  lemma ServerDownInv(w: World)
    requires Inv(w, -1)
    ensures Inv(ServerDown(w), -1)
  {
    var a := ServerDown(w);
    OccupiedNone(a.slots);
    forall q | q in w.tasks && w.tasks[q].serving.Some? ensures w.tasks[q].ours {
      assert Serves(w, q);
      assert Bound(w, w.tasks[q].serving.value);
    }
    FewerAlive(w, a);
  }

  lemma CreatedInv(w: World, pid: int, ours: bool, core: nat)
    requires Inv(w, -1)
    ensures Inv(Created(w, pid, ours, core), -1)
  {
    var a := Created(w, pid, ours, core);
    if pid !in w.tasks {
      forall j | 0 <= j < |a.slots| && a.slots[j].uid != 0 ensures Bound(a, j) {
        assert Bound(w, j);
      }
      forall q | q in a.tasks && a.tasks[q].serving.Some? ensures Serves(a, q) {
        assert Serves(w, q);
      }
      assert forall i :: 0 <= i < |w.pool| ==> (Holds(a, i) <==> Holds(w, i));
      assert forall i :: 0 <= i < |w.pool| ==> (Standing(a, i) <==> Standing(w, i));
    }
  }

  lemma BuriedInv(w: World, pid: int)
    requires Inv(w, -1)
    ensures Inv(Buried(w, pid), -1)
  {
    var a := Buried(w, pid);
    forall j | 0 <= j < |a.slots| && a.slots[j].uid != 0 ensures Bound(a, j) {
      assert Bound(w, j);
    }
    forall q | q in a.tasks && a.tasks[q].serving.Some? ensures Serves(a, q) {
      assert Serves(w, q);
    }
    FewerAlive(w, a);
  }

  lemma ExecedInv(w: World, pid: int)
    requires Inv(w, -1)
    ensures Inv(Execed(w, pid), -1)
  {
    var a := Execed(w, pid);
    if Alive(w.tasks, pid) && !w.tasks[pid].ours {
      forall j | 0 <= j < |a.slots| && a.slots[j].uid != 0 ensures Bound(a, j) {
        assert Bound(w, j);
      }
      forall q | q in a.tasks && a.tasks[q].serving.Some? ensures Serves(a, q) {
        assert Serves(w, q);
        assert Bound(w, w.tasks[q].serving.value);
      }
      assert forall i :: 0 <= i < |w.pool| ==> (Holds(a, i) <==> Holds(w, i));
      assert forall i :: 0 <= i < |w.pool| ==> (Standing(a, i) <==> Standing(w, i));
    }
  }
}
