/** The state invariant of the blocking core and what every locked micro-step does to it.

    A permit is in the pool (`count`), parked in the wait table (`granted`) or held by a task
    (`held`, a history the kernel does not keep); `credit` is what the three must add up to. */
module SemaphoreInvariant {
  import opened WakeLatch
  import opened Semaphore

  /** Where a task stands inside `semaphore_enter_raw`: between publishing its slot and
      parking (or re-checking) the proc lock is free and anything may happen. */
  datatype Pc = Idle | Window(semId: int, slot: int, timed: bool, usec: nat)

  datatype World = World(k: Kernel, pc: seq<Pc>, dying: seq<bool>, held: seq<multiset<int>>, credit: seq<int>)

  predicate Shaped(w: World) {
    && Shape(w.k)
    && |w.pc| == |w.dying| == |w.k.tasks|
    && |w.held| == |w.credit| == |w.k.sems|
  }

  function GrantedSet(ws: seq<Waiter>, semId: int): set<int> {
    set i | 0 <= i < |ws| && ws[i].semId == semId && ws[i].granted
  }

  predicate SlotOk(k: Kernel, i: int)
    requires 0 <= i < |k.waiters|
  {
    var w := k.waiters[i];
    && w.seqNo == w.arrival % SEQ_MODULUS
    && if w.semId == 0 then w.pid == NO_PID && !w.granted
       else ValidIdx(k, w.semId - 1) && 0 <= w.pid < |k.tasks| && w.arrival < k.arrivals
  }

  ghost predicate SlotsOk(k: Kernel) {
    forall i :: 0 <= i < |k.waiters| ==> SlotOk(k, i)
  }

  predicate SameKey(a: Waiter, b: Waiter) {
    a.semId != 0 && a.semId == b.semId && a.pid == b.pid
  }

  /** A task has at most one slot per semaphore, and arrival numbers are unique. */
  ghost predicate Unique(ws: seq<Waiter>) {
    forall i, j :: 0 <= i < j < |ws| ==>
      !SameKey(ws[i], ws[j]) && (ws[i].semId != 0 && ws[j].semId != 0 ==> ws[i].arrival != ws[j].arrival)
  }

  predicate SemOk(s: Sem) {
    s.creator != NO_PID ==>
      && (s.maxCount == 1 || s.maxCount == SEMAPHORE_COUNT_MAX)
      && 0 <= s.count <= s.maxCount
      && s.occupied == (s.count <= 0)
  }

  ghost predicate NoWaiter(ws: seq<Waiter>, semId: int) {
    forall i :: 0 <= i < |ws| ==> !Waits(ws[i], semId)
  }

  /** Permits may lie in the pool only while nobody is queued; in the middle of a release one
      permit (`slack`) is on its way to the queue. */
  ghost predicate NoBarging(k: Kernel, idx: int, slack: int)
    requires 0 <= idx < |k.sems|
  {
    k.sems[idx].creator != NO_PID && k.sems[idx].count > slack ==> NoWaiter(k.waiters, idx + 1)
  }

  ghost predicate Balanced(w: World, idx: int)
    requires Shaped(w) && 0 <= idx < |w.k.sems|
  {
    w.k.sems[idx].creator != NO_PID ==>
      && w.k.sems[idx].count + |GrantedSet(w.k.waiters, idx + 1)| + |w.held[idx]| == w.credit[idx]
      && (IsBinary(w.k.sems[idx]) ==> w.credit[idx] == 1)
  }

  /** On a binary semaphore the recorded occupant is the holder or the grantee. */
  ghost predicate OccupantNamed(w: World, idx: int)
    requires Shaped(w) && 0 <= idx < |w.k.sems|
  {
    var s := w.k.sems[idx];
    s.creator != NO_PID && IsBinary(s) ==>
      && (s.count > 0 ==> s.occupiedPid == NO_PID)
      && (forall i :: 0 <= i < |w.k.waiters| && On(w.k.waiters[i], idx + 1) && w.k.waiters[i].granted
            ==> w.k.waiters[i].pid == s.occupiedPid)
      && (forall p :: p in w.held[idx] ==> p == s.occupiedPid && 0 <= p < |w.k.tasks|)
  }

  ghost predicate SemGood(w: World, idx: int, hot: int)
    requires Shaped(w) && 0 <= idx < |w.k.sems|
  {
    && SemOk(w.k.sems[idx])
    && NoBarging(w.k, idx, if idx == hot then 1 else 0)
    && Balanced(w, idx)
    && OccupantNamed(w, idx)
  }

  /** A granted task neither sleeps on that semaphore's token nor is about to: its saved states
      are not BLOCK, and if it has not parked yet a node-scoped wake is latched for it. */
  predicate Unparked(t: Task, pc: Pc, semId: int)
    requires semId > 0
  {
    && (t.blockBy == SemToken(semId - 1) ==>
          t.state != Block && t.signalSaved != Block && t.interruptSaved != Block)
    && (pc.Window? && pc.semId == semId ==> t.wakePending && t.wakeBy != GENERIC)
  }

  ghost predicate ParkSafe(w: World)
    requires Shaped(w) && SlotsOk(w.k)
  {
    forall i :: 0 <= i < |w.k.waiters| && w.k.waiters[i].semId != 0 && w.k.waiters[i].granted ==>
      SlotOk(w.k, i) && Unparked(w.k.tasks[w.k.waiters[i].pid], w.pc[w.k.waiters[i].pid], w.k.waiters[i].semId)
  }

  /** A task in its window is not blocked, and the slot index it carries still names its own
      place or none. */
  ghost predicate WindowsOk(w: World)
    requires Shaped(w)
  {
    forall t :: 0 <= t < |w.pc| && w.pc[t].Window? ==>
      && w.k.tasks[t].state != Block
      && 0 <= w.pc[t].slot < |w.k.waiters|
      && 1 <= w.pc[t].semId <= |w.k.sems|
      && (w.k.waiters[w.pc[t].slot].semId != 0 && w.k.waiters[w.pc[t].slot].pid == t ==>
            w.k.waiters[w.pc[t].slot].semId == w.pc[t].semId)
  }

  ghost predicate NoSlotOf(ws: seq<Waiter>, pid: int) {
    forall i :: 0 <= i < |ws| ==> ws[i].pid != pid
  }

  ghost predicate HoldsNoMutex(w: World, pid: int)
    requires Shaped(w)
  {
    forall idx :: 0 <= idx < |w.k.sems| && w.k.sems[idx].creator != NO_PID && IsBinary(w.k.sems[idx]) ==>
      pid !in w.held[idx]
  }

  /** Once its termination is complete a dead task has no place and no mutex left. */
  ghost predicate DeadClean(w: World)
    requires Shaped(w)
  {
    forall t :: 0 <= t < |w.k.tasks| && !Alive(w.k.tasks[t]) && !w.dying[t] ==>
      NoSlotOf(w.k.waiters, t) && HoldsNoMutex(w, t)
  }

  ghost predicate SemsGood(w: World, hot: int)
    requires Shaped(w)
  {
    forall idx :: 0 <= idx < |w.k.sems| ==> SemGood(w, idx, hot)
  }

  ghost predicate Good(w: World, hot: int) {
    && Shaped(w)
    && SlotsOk(w.k)
    && Unique(w.k.waiters)
    && SemsGood(w, hot)
    && ParkSafe(w)
    && WindowsOk(w)
    && DeadClean(w)
  }

  ghost predicate Inv(w: World) {
    Good(w, -1)
  }

  // ----- how single-slot updates move the granted sets

  lemma GrantedAfterUpdate(ws: seq<Waiter>, slot: int, x: Waiter, semId: int)
    requires 0 <= slot < |ws|
    ensures var before, after := GrantedSet(ws, semId), GrantedSet(ws[slot := x], semId);
      && (x.semId == semId && x.granted ==> after == before + {slot})
      && (!(x.semId == semId && x.granted) ==> after == before - {slot})
  {
  }

  lemma GrantedSize(ws: seq<Waiter>, slot: int, x: Waiter, semId: int)
    requires 0 <= slot < |ws|
    ensures |GrantedSet(ws[slot := x], semId)| == |GrantedSet(ws, semId)|
      - (if ws[slot].semId == semId && ws[slot].granted then 1 else 0)
      + (if x.semId == semId && x.granted then 1 else 0)
  {
    GrantedAfterUpdate(ws, slot, x, semId);
    var a := GrantedSet(ws, semId);
    assert slot in a <==> ws[slot].semId == semId && ws[slot].granted;
  }

  // ----- micro-steps

  /** Dropping an ungranted slot. */
  lemma DropGood(w: World, slot: int, hot: int)
    requires Good(w, hot) && 0 <= slot < |w.k.waiters| && !w.k.waiters[slot].granted
    ensures Good(w.(k := DropSlot(w.k, slot)), hot)
  {
    var w' := w.(k := DropSlot(w.k, slot));
    assert SlotsOk(w'.k) by {
      forall i | 0 <= i < |w'.k.waiters| ensures SlotOk(w'.k, i) { assert SlotOk(w.k, i); }
    }
    forall idx | 0 <= idx < |w.k.sems| ensures SemGood(w', idx, hot) {
      assert SemGood(w, idx, hot);
      GrantedSize(w.k.waiters, slot, Freed(w.k.waiters[slot]), idx + 1);
    }
    DropKeepsDead(w, slot);
  }

  lemma DropKeepsDead(w: World, slot: int)
    requires Shaped(w) && DeadClean(w) && 0 <= slot < |w.k.waiters|
    ensures DeadClean(w.(k := DropSlot(w.k, slot)))
  {
    var w' := w.(k := DropSlot(w.k, slot));
    forall t | 0 <= t < |w'.k.tasks| && !Alive(w'.k.tasks[t]) && !w'.dying[t]
      ensures NoSlotOf(w'.k.waiters, t) && HoldsNoMutex(w', t)
    {
      assert NoSlotOf(w.k.waiters, t) && HoldsNoMutex(w, t);
    }
  }

  function AddHeld(w: World, idx: int, pid: int): World
    requires Shaped(w) && 0 <= idx < |w.held|
  {
    w.(held := w.held[idx := w.held[idx] + multiset{pid}])
  }

  /** The grantee collects its parked permit and becomes a holder. */
  lemma CollectGood(w: World, slot: int)
    requires Inv(w) && 0 <= slot < |w.k.waiters|
    requires w.k.waiters[slot].semId != 0 && w.k.waiters[slot].granted
    requires var p := w.k.waiters[slot].pid; 0 <= p < |w.k.tasks| && (Alive(w.k.tasks[p]) || w.dying[p])
    ensures SlotOk(w.k, slot)
    ensures Inv(AddHeld(w.(k := DropSlot(w.k, slot)), w.k.waiters[slot].semId - 1, w.k.waiters[slot].pid))
  {
    assert SlotOk(w.k, slot);
    var s := w.k.waiters[slot];
    var w' := AddHeld(w.(k := DropSlot(w.k, slot)), s.semId - 1, s.pid);
    assert SlotsOk(w'.k) by {
      forall i | 0 <= i < |w'.k.waiters| ensures SlotOk(w'.k, i) { assert SlotOk(w.k, i); }
    }
    forall idx | 0 <= idx < |w.k.sems| ensures SemGood(w', idx, -1) {
      assert SemGood(w, idx, -1);
      GrantedSize(w.k.waiters, slot, Freed(s), idx + 1);
    }
    DropKeepsDead(w, slot);
  }

  /** A permit taken straight from the pool. */
  lemma AcquireGood(w: World, idx: nat, pid: int)
    requires Inv(w) && ValidIdx(w.k, idx) && w.k.sems[idx].count > 0
    requires 0 <= pid < |w.k.tasks| && Alive(w.k.tasks[pid])
    ensures Inv(AddHeld(w.(k := TryAcquire(w.k, idx, pid)), idx, pid))
  {
    var w' := AddHeld(w.(k := TryAcquire(w.k, idx, pid)), idx, pid);
    assert SemGood(w, idx, -1);
    assert SlotsOk(w'.k) by {
      forall i | 0 <= i < |w'.k.waiters| ensures SlotOk(w'.k, i) { assert SlotOk(w.k, i); }
    }
    forall j | 0 <= j < |w.k.sems| ensures SemGood(w', j, -1) {
      assert SemGood(w, j, -1);
      if j == idx && IsBinary(w.k.sems[idx]) {
        assert |GrantedSet(w.k.waiters, idx + 1)| == 0 && |w.held[idx]| == 0;
      }
    }
  }

  /** Publishing a new slot while the pool is empty. */
  lemma AddGood(w: World, slot: int, semId: int, pid: int)
    requires Inv(w) && 0 <= slot < |w.k.waiters| && w.k.waiters[slot].semId == 0
    requires ValidIdx(w.k, semId - 1) && w.k.sems[semId - 1].count <= 0
    requires 0 <= pid < |w.k.tasks| && Alive(w.k.tasks[pid]) && w.pc[pid] == Idle
    requires forall j :: 0 <= j < |w.k.waiters| ==> !Keyed(w.k.waiters[j], semId, pid)
    ensures Inv(w.(k := AddAt(w.k, slot, semId, pid)))
  {
    var w' := w.(k := AddAt(w.k, slot, semId, pid));
    var x := w'.k.waiters[slot];
    assert SlotsOk(w'.k) by {
      forall i | 0 <= i < |w'.k.waiters| ensures SlotOk(w'.k, i) { assert SlotOk(w.k, i); }
    }
    assert Unique(w'.k.waiters) by {
      forall i, j | 0 <= i < j < |w'.k.waiters|
        ensures !SameKey(w'.k.waiters[i], w'.k.waiters[j])
        ensures w'.k.waiters[i].semId != 0 && w'.k.waiters[j].semId != 0 ==>
          w'.k.waiters[i].arrival != w'.k.waiters[j].arrival
      {
        assert SlotOk(w.k, i) && SlotOk(w.k, j);
        assert !Keyed(w.k.waiters[i], semId, pid) && !Keyed(w.k.waiters[j], semId, pid);
      }
    }
    forall idx | 0 <= idx < |w.k.sems| ensures SemGood(w', idx, -1) {
      assert SemGood(w, idx, -1);
      GrantedSize(w.k.waiters, slot, x, idx + 1);
    }
    forall t | 0 <= t < |w'.k.tasks| && !Alive(w'.k.tasks[t]) && !w'.dying[t]
      ensures NoSlotOf(w'.k.waiters, t) && HoldsNoMutex(w', t)
    {
      assert NoSlotOf(w.k.waiters, t) && HoldsNoMutex(w, t);
    }
  }

  /** A change of one task's scheduling fields that keeps it clear of its granted semaphores. */
  ghost predicate TaskMoveOk(w: World, pid: int, t: Task, pc: Pc)
    requires Shaped(w) && 0 <= pid < |w.k.tasks|
  {
    && (forall i :: 0 <= i < |w.k.waiters| && w.k.waiters[i].semId > 0 && w.k.waiters[i].granted
                  && w.k.waiters[i].pid == pid
          ==> Unparked(t, pc, w.k.waiters[i].semId))
    && (pc.Window? ==> pc == w.pc[pid] && t.state != Block)
    && (!Alive(t) ==> !Alive(w.k.tasks[pid]) || w.dying[pid])
  }

  lemma TaskMoveGood(w: World, pid: int, t: Task, pc: Pc, hot: int)
    requires Good(w, hot) && 0 <= pid < |w.k.tasks| && TaskMoveOk(w, pid, t, pc)
    ensures Good(w.(k := w.k.(tasks := w.k.tasks[pid := t]), pc := w.pc[pid := pc]), hot)
  {
    var w' := w.(k := w.k.(tasks := w.k.tasks[pid := t]), pc := w.pc[pid := pc]);
    assert SlotsOk(w'.k) by {
      forall i | 0 <= i < |w'.k.waiters| ensures SlotOk(w'.k, i) { assert SlotOk(w.k, i); }
    }
    forall idx | 0 <= idx < |w.k.sems| ensures SemGood(w', idx, hot) {
      assert SemGood(w, idx, hot);
    }
    assert ParkSafe(w') by {
      forall i | 0 <= i < |w.k.waiters| && w.k.waiters[i].semId != 0 && w.k.waiters[i].granted
        ensures SlotOk(w'.k, i)
            && Unparked(w'.k.tasks[w.k.waiters[i].pid], w'.pc[w.k.waiters[i].pid], w.k.waiters[i].semId)
      {
        assert SlotOk(w.k, i);
      }
    }
    forall x | 0 <= x < |w'.k.tasks| && !Alive(w'.k.tasks[x]) && !w'.dying[x]
      ensures NoSlotOf(w'.k.waiters, x) && HoldsNoMutex(w', x)
    {
      assert !Alive(w.k.tasks[x]) && !w.dying[x];
      assert NoSlotOf(w.k.waiters, x) && HoldsNoMutex(w, x);
    }
  }

  /** A wake never endangers a granted task: it either latches or clears the block. */
  lemma WakeMoveOk(w: World, pid: int, token: Token, hot: int)
    requires Good(w, hot) && 0 <= pid < |w.k.tasks|
    ensures TaskMoveOk(w, pid, WakeBy(w.k.tasks[pid], token), w.pc[pid])
  {
    forall i | 0 <= i < |w.k.waiters| && w.k.waiters[i].semId > 0 && w.k.waiters[i].granted && w.k.waiters[i].pid == pid
      ensures Unparked(WakeBy(w.k.tasks[pid], token), w.pc[pid], w.k.waiters[i].semId)
    {
      assert SlotOk(w.k, i);
      assert Unparked(w.k.tasks[pid], w.pc[pid], w.k.waiters[i].semId);
    }
  }

  /** The wake that comes with a grant makes the grantee safe whatever it was doing: blocked on
      this token it is released, in its window it finds the edge latched. */
  lemma GrantWakesUp(t: Task, pc: Pc, semId: int)
    requires semId > 0 && Alive(t)
    requires pc.Window? ==> t.state != Block
    ensures Unparked(WakeBy(t, SemToken(semId - 1)), pc, semId)
  {
  }
}
