/** What each semaphore call answers and does, exactly, in every reachable state. */
module SemaphoreExact {
  import opened WakeLatch
  import opened Semaphore
  import opened SemaphoreInvariant
  import SemaphoreHandoff
  import R = SemaphoreRuns

  ghost predicate HasPlace(k: Kernel, semId: int, pid: int) {
    exists i :: 0 <= i < |k.waiters| && Keyed(k.waiters[i], semId, pid)
  }

  ghost predicate HasGrant(k: Kernel, semId: int, pid: int) {
    exists i :: 0 <= i < |k.waiters| && Keyed(k.waiters[i], semId, pid) && k.waiters[i].granted
  }

  ghost predicate HasRoom(k: Kernel) {
    exists i :: 0 <= i < |k.waiters| && k.waiters[i].semId == 0
  }

  /** A permit is in the pool, or already the caller's. */
  ghost predicate Obtainable(k: Kernel, semId: int, pid: int) {
    ValidIdx(k, semId - 1) && (k.sems[semId - 1].count > 0 || HasGrant(k, semId, pid))
  }

  /** The place `Find` finds is the task's only one. */
  lemma FindTells(k: Kernel, semId: int, pid: int)
    requires Unique(k.waiters) && semId != 0
    ensures var f := Find(k.waiters, semId, pid);
      && (f >= 0 <==> HasPlace(k, semId, pid))
      && (HasGrant(k, semId, pid) <==> f >= 0 && k.waiters[f].granted)
      && (forall i :: 0 <= i < |k.waiters| && Keyed(k.waiters[i], semId, pid) ==> i == f)
  {
    var f := Find(k.waiters, semId, pid);
    forall i | 0 <= i < |k.waiters| && Keyed(k.waiters[i], semId, pid) ensures i == f {
      assert 0 <= f < i ==> !SameKey(k.waiters[f], k.waiters[i]);
    }
  }

  lemma RoomTells(k: Kernel)
    ensures FreeFrom(k.waiters, 0) >= 0 <==> HasRoom(k)
  {
  }

  /** Dropping its one place leaves the task none. */
  lemma DelClears(k: Kernel, semId: int, pid: int)
    requires Unique(k.waiters) && semId != 0
    ensures !HasPlace(Del(k, Find(k.waiters, semId, pid), pid), semId, pid)
  {
    FindTells(k, semId, pid);
  }

  lemma EnterVerdict(k: Kernel, pid: int, semId: int)
    requires Unique(k.waiters)
    ensures var r := EnterLocked(k, pid, semId).1;
      && (r.Error? <==> !ValidIdx(k, semId - 1))
      && (r.Acquired? <==> Obtainable(k, semId, pid))
      && (r.Park? <==> ValidIdx(k, semId - 1) && !Obtainable(k, semId, pid) && (HasPlace(k, semId, pid) || HasRoom(k)))
      && (r.Occupied? <==>
            ValidIdx(k, semId - 1) && !Obtainable(k, semId, pid) && !HasPlace(k, semId, pid) && !HasRoom(k))
  {
    if semId != 0 {
      FindTells(k, semId, pid);
    }
    RoomTells(k);
    hide HasPlace, HasGrant, HasRoom, Find;
  }

  lemma EnterEffect(k: Kernel, pid: int, semId: int)
    requires Unique(k.waiters)
    ensures var (v, r) := EnterLocked(k, pid, semId);
      && v.tasks == k.tasks && |v.sems| == |k.sems| && |v.waiters| == |k.waiters|
      && (r.Error? || r.Occupied? ==> v == k)
      && (r.Acquired? ==>
            && !HasPlace(v, semId, pid)
            && v.sems[semId - 1].count == k.sems[semId - 1].count - (if HasGrant(k, semId, pid) then 0 else 1))
      && (r.Park? ==>
            && v.sems == k.sems && 0 <= r.slot < |v.waiters|
            && Keyed(v.waiters[r.slot], semId, pid) && !v.waiters[r.slot].granted
            && v.waiters == k.waiters[r.slot := v.waiters[r.slot]] && (HasPlace(k, semId, pid) ==> v == k))
  {
    if ValidIdx(k, semId - 1) {
      FindTells(k, semId, pid);
      DelClears(k, semId, pid);
      DelClears(TryAcquire(k, semId - 1, pid), semId, pid);
    }
  }

  /** Enter acquires if and only if a permit is in the pool or granted to the caller, who is then one
      more holder without a place in the queue. With neither it queues if it has a place or there is
      room, at its own place, and is refused if and only if there is none. */
  lemma EnterExactly(w0: World, es: seq<R.Step>, pid: int, semId: int, usec: nat)
    requires R.Initial(w0) && R.CanRun(w0, es) && R.Enabled(R.After(w0, es), R.Enter(pid, semId, usec))
    ensures var w := R.After(w0, es);
            var v, r := R.Next(w, R.Enter(pid, semId, usec)), EnterLocked(w.k, pid, semId).1;
      && (r.Error? <==> !ValidIdx(w.k, semId - 1))
      && (r.Acquired? <==> Obtainable(w.k, semId, pid))
      && (r.Park? <==>
            ValidIdx(w.k, semId - 1) && !Obtainable(w.k, semId, pid) && (HasPlace(w.k, semId, pid) || HasRoom(w.k)))
      && (r.Occupied? <==>
            ValidIdx(w.k, semId - 1) && !Obtainable(w.k, semId, pid) && !HasPlace(w.k, semId, pid) && !HasRoom(w.k))
      && (r.Error? || r.Occupied? ==> v == w)
      && (r.Acquired? ==>
            && |w.held| == |v.held| && 1 <= semId <= |w.held|
            && v.held[semId - 1] == w.held[semId - 1] + multiset{pid} && !HasPlace(v.k, semId, pid)
            && v.k.sems[semId - 1].count == w.k.sems[semId - 1].count - (if HasGrant(w.k, semId, pid) then 0 else 1))
      && (r.Park? ==>
            && 0 <= r.slot < |v.k.waiters| && Keyed(v.k.waiters[r.slot], semId, pid) && !v.k.waiters[r.slot].granted
            && v.pc == w.pc[pid := Window(semId, r.slot, usec > 0, usec)] && v.held == w.held && v.k.sems == w.k.sems
            && (HasPlace(w.k, semId, pid) ==> v.k == w.k))
  {
    Reached(w0, es);
    var w := R.After(w0, es);
    hide R.CanRun, R.After;
    EnterVerdict(w.k, pid, semId);
    EnterEffect(w.k, pid, semId);
    hide EnterLocked, Obtainable, HasPlace, HasGrant, HasRoom, Unique;
  }

  lemma Reached(w0: World, es: seq<R.Step>)
    requires R.Initial(w0) && R.CanRun(w0, es)
    ensures var w := R.After(w0, es); Inv(w) && Unique(w.k.waiters) && Shaped(w) && SlotsOk(w.k)
  {
    R.InitialInv(w0);
    R.RunsKeepInv(w0, es);
  }

  /** Try-enter acquires under the same condition, and otherwise leaves the queue. */
  lemma TryExactly(w0: World, es: seq<R.Step>, pid: int, semId: int)
    requires R.Initial(w0) && R.CanRun(w0, es) && R.Enabled(R.After(w0, es), R.TryLock(pid, semId))
    ensures var w := R.After(w0, es); var v, r := R.Next(w, R.TryLock(pid, semId)), TryEnter(w.k, pid, semId).1;
      && (r.Error? <==> !ValidIdx(w.k, semId - 1)) && (r.Error? ==> v == w)
      && (r.Acquired? <==> Obtainable(w.k, semId, pid))
      && (r.Occupied? <==> ValidIdx(w.k, semId - 1) && !Obtainable(w.k, semId, pid))
      && (!r.Error? ==> !HasPlace(v.k, semId, pid) && v.k.tasks == w.k.tasks)
      && (r.Occupied? ==> v.held == w.held && v.k.sems == w.k.sems)
      && (r.Acquired? ==>
            && |w.held| == |v.held| && 1 <= semId <= |w.held| && v.held[semId - 1] == w.held[semId - 1] + multiset{pid}
            && v.k.sems[semId - 1].count == w.k.sems[semId - 1].count - (if HasGrant(w.k, semId, pid) then 0 else 1))
  {
    Reached(w0, es);
    var w := R.After(w0, es);
    hide R.CanRun, R.After;
    if ValidIdx(w.k, semId - 1) {
      FindTells(w.k, semId, pid);
      DelClears(w.k, semId, pid);
    }
    hide HasGrant, HasRoom, Unique, Find;
  }

  /** A context that must not sleep takes its grant if it has one at its place, and leaves that place. */
  lemma ServingExactly(w0: World, es: seq<R.Step>, pid: int)
    requires R.Initial(w0) && R.CanRun(w0, es) && R.Enabled(R.After(w0, es), R.ServingRecheck(pid))
    ensures var w := R.After(w0, es); var v := R.Next(w, R.ServingRecheck(pid)); var pc := w.pc[pid];
      && 0 <= pc.slot < |w.k.waiters| == |v.k.waiters| && 1 <= pc.semId <= |w.held| == |v.held|
      && v.pc == w.pc[pid := Idle] && v.k.sems == w.k.sems && v.k.tasks == w.k.tasks
      && !Keyed(v.k.waiters[pc.slot], pc.semId, pid)
      && var own := Keyed(w.k.waiters[pc.slot], pc.semId, pid) && w.k.waiters[pc.slot].granted;
         v.held[pc.semId - 1] == w.held[pc.semId - 1] + (if own then multiset{pid} else multiset{})
  {
    Reached(w0, es);
    hide R.CanRun, R.After;
  }

  // ----- a release

  /** What hand-off does beside the queue: the permit goes with the grant, and the grantee is woken. */
  lemma {:induction false} HandoffEffect(k: Kernel, idx: nat)
    requires idx < |k.sems| && k.sems[idx].count > 0
    ensures var v := Handoff(k, idx); |v.sems| == |k.sems| && |v.tasks| == |k.tasks| && |v.waiters| == |k.waiters|
    ensures (forall i :: !R.Contends(k, idx, i)) ==> Handoff(k, idx).sems == k.sems && Handoff(k, idx).tasks == k.tasks
    ensures (exists i :: R.Contends(k, idx, i)) ==>
      exists g :: R.Contends(k, idx, g) && Handed(k, Handoff(k, idx), idx, g)
    decreases WaitingSet(k.waiters, idx + 1)
  {
    HandoffFrame(k, idx);
    var slot := Head(k.waiters, idx + 1);
    if slot >= 0 {
      if Live(k.tasks, k.waiters[slot].pid) {
        assert R.Contends(k, idx, slot) && Handed(k, Handoff(k, idx), idx, slot);
      } else {
        var k1 := DropSlot(k, slot);
        DropShrinks(k, slot, idx + 1);
        HandoffEffect(k1, idx);
        assert forall i :: R.Contends(k1, idx, i) <==> R.Contends(k, idx, i);
        if g :| R.Contends(k1, idx, g) && Handed(k1, Handoff(k1, idx), idx, g) {
          assert Handed(k, Handoff(k, idx), idx, g);
        }
      }
    }
  }

  /** The slot `g` alone has the permit, and its task the wake. */
  predicate Handed(k: Kernel, v: Kernel, idx: nat, g: int) {
    && idx < |k.sems| == |v.sems| && 0 <= g < |k.waiters| == |v.waiters| && Live(k.tasks, k.waiters[g].pid)
    && v.sems[idx].count == k.sems[idx].count - 1
    && v.waiters[g] == k.waiters[g].(granted := true)
    && (forall i :: 0 <= i < |k.waiters| && v.waiters[i].granted && i != g ==> k.waiters[i].granted)
    && v.tasks == k.tasks[k.waiters[g].pid := WakeBy(k.tasks[k.waiters[g].pid], SemToken(idx))]
  }

  /** A quit is refused if and only if the semaphore is gone or its pool stands at the ceiling, and then
      changes nothing. Otherwise the permit goes to the pool if and only if no live task is queued;
      else it goes to one of those, who is made READY if it sleeps on the semaphore's token. */
  lemma ReleaseExactly(w0: World, es: seq<R.Step>, pid: int, semId: int)
    requires R.Initial(w0) && R.CanRun(w0, es) && R.Enabled(R.After(w0, es), R.Release(pid, semId))
    ensures var w := R.After(w0, es); var v := R.Next(w, R.Release(pid, semId)); var idx := semId - 1;
      if !ValidIdx(w.k, idx) || w.k.sems[idx].count == w.k.sems[idx].maxCount then v == w
      else
        && ValidIdx(v.k, idx)
        && ((forall i :: !R.Contends(w.k, idx, i)) ==>
              v.k.sems[idx].count == w.k.sems[idx].count + 1 && v.k.tasks == w.k.tasks)
        && ((exists i :: R.Contends(w.k, idx, i)) ==>
              v.k.sems[idx].count == w.k.sems[idx].count && exists g :: Released(w.k, v.k, idx, g))
  {
    Reached(w0, es);
    var w, idx := R.After(w0, es), semId - 1;
    assert ValidIdx(w.k, idx) ==> SemGood(w, idx, -1);
    hide R.CanRun, R.After, Inv;
    if ValidIdx(w.k, idx) && w.k.sems[idx].count < w.k.sems[idx].maxCount {
      assert w.k.sems[idx].count >= 0;
      hide SemGood;
      QuitEffect(w.k, pid, semId);
      hide Quit, R.Contends, Released;
    }
  }

  lemma QuitEffect(k: Kernel, pid: int, semId: int)
    requires QuitAccepted(k, semId) && k.sems[semId - 1].count >= 0
    ensures var v, idx := Quit(k, pid, semId), semId - 1;
      && ValidIdx(v, idx)
      && ((forall i :: !R.Contends(k, idx, i)) ==> v.sems[idx].count == k.sems[idx].count + 1 && v.tasks == k.tasks)
      && ((exists i :: R.Contends(k, idx, i)) ==>
            v.sems[idx].count == k.sems[idx].count && exists g :: Released(k, v, idx, g))
  {
    var idx := semId - 1;
    var k1 := Returned(k, idx, pid);
    HandoffEffect(k1, idx);
    SemaphoreHandoff.HandoffSems(k1, idx, idx);
    hide Handoff;
    assert forall i :: R.Contends(k1, idx, i) <==> R.Contends(k, idx, i);
    if i :| R.Contends(k, idx, i) {
      var g :| R.Contends(k1, idx, g) && Handed(k1, Handoff(k1, idx), idx, g);
      WakeExactly(k.tasks[k.waiters[g].pid], SemToken(idx));
      assert Released(k, Handoff(k1, idx), idx, g);
    }
  }

  /** Slot `g`, a live waiter's, is granted now, and its task does not sleep on the token. */
  predicate Released(k: Kernel, v: Kernel, idx: nat, g: int) {
    && 0 <= g < |k.waiters| == |v.waiters| && Waits(k.waiters[g], idx + 1) && Live(k.tasks, k.waiters[g].pid)
    && v.waiters[g].granted && |v.tasks| == |k.tasks|
    && var p := k.waiters[g].pid;
       (k.tasks[p].state == Block && k.tasks[p].blockBy == SemToken(idx) ==> v.tasks[p].state == Ready)
       && forall q :: 0 <= q < |k.tasks| && q != p ==> v.tasks[q] == k.tasks[q]
  }

  /** In every reachable state, a slot that a release grants belongs to a task that is READY afterwards
      if it slept on the semaphore's token before. */
  lemma GrantWakes(w0: World, es: seq<R.Step>, pid: int, semId: int, i: int)
    requires R.Initial(w0) && R.CanRun(w0, es) && R.Enabled(R.After(w0, es), R.Release(pid, semId))
    requires var w := R.After(w0, es); var v := R.Next(w, R.Release(pid, semId));
      0 <= i < |w.k.waiters| == |v.k.waiters| && !w.k.waiters[i].granted && v.k.waiters[i].granted
    ensures var w := R.After(w0, es); var v := R.Next(w, R.Release(pid, semId)); var p := w.k.waiters[i].pid;
      && ValidIdx(w.k, semId - 1) && Keyed(w.k.waiters[i], semId, p) && Live(w.k.tasks, p) && |v.k.tasks| == |w.k.tasks|
      && (w.k.tasks[p].state == Block && w.k.tasks[p].blockBy == SemToken(semId - 1) ==> v.k.tasks[p].state == Ready)
  {
    Reached(w0, es);
    var w, idx := R.After(w0, es), semId - 1;
    hide R.CanRun, R.After;
    assert SemGood(w, idx, -1);
    var k1 := Returned(w.k, idx, pid);
    HandoffGrants(k1, idx, i);
    hide Inv, Good, Handoff;
    WakeExactly(w.k.tasks[w.k.waiters[i].pid], SemToken(idx));
  }

  /** Whoever hand-off grants is woken by it. */
  lemma {:induction false} HandoffGrants(k: Kernel, idx: nat, i: int)
    requires idx < |k.sems| && 0 <= i < |k.waiters| && !k.waiters[i].granted
    requires |Handoff(k, idx).waiters| == |k.waiters| && Handoff(k, idx).waiters[i].granted
    ensures R.Contends(k, idx, i)
    ensures Handoff(k, idx).tasks == k.tasks[k.waiters[i].pid := WakeBy(k.tasks[k.waiters[i].pid], SemToken(idx))]
    decreases WaitingSet(k.waiters, idx + 1)
  {
    var slot := Head(k.waiters, idx + 1);
    if !Live(k.tasks, k.waiters[slot].pid) {
      DropShrinks(k, slot, idx + 1);
      HandoffFrame(DropSlot(k, slot), idx);
      HandoffGrants(DropSlot(k, slot), idx, i);
    }
  }

  // ----- making and unmaking

  /** Creation takes the first free record, with one permit for a mutex and the asked, at least 0, for a
      counting semaphore; nobody waits for it. It changes nothing if and only if no record is free. */
  lemma CreateExactly(w0: World, es: seq<R.Step>, owner: int, count: int, binary: bool)
    requires R.Initial(w0) && R.CanRun(w0, es) && R.Enabled(R.After(w0, es), R.Create(owner, count, binary))
    ensures var w := R.After(w0, es); var v := R.Next(w, R.Create(owner, count, binary));
      && v.k.waiters == w.k.waiters && v.k.tasks == w.k.tasks && |v.k.sems| == |w.k.sems|
      && ((forall i :: 0 <= i < |w.k.sems| ==> w.k.sems[i].creator != NO_PID) ==> v == w)
      && forall i :: 0 <= i < |w.k.sems| ==>
           if Vacant(w.k.sems, i) then
             && v.k.sems[i].creator == owner && (v.k.sems[i].maxCount == 1 <==> binary)
             && v.k.sems[i].count == (if binary then 1 else if count < 0 then 0 else count)
             && NoWaiter(v.k.waiters, i + 1)
           else v.k.sems[i] == w.k.sems[i]
  {
    Reached(w0, es);
    var w := R.After(w0, es);
    var f := FreeSemFrom(w.k.sems, 0);
    hide R.CanRun, R.After;
    FirstVacant(w.k.sems, 0);
    forall j | 0 <= j < |w.k.waiters| && f >= 0 ensures w.k.waiters[j].semId != f + 1 {
      assert SlotOk(w.k, j);
    }
  }

  /** The first record that is nobody's. */
  predicate Vacant(sems: seq<Sem>, i: int)
    requires 0 <= i < |sems|
  {
    sems[i].creator == NO_PID && forall j :: 0 <= j < i ==> sems[j].creator != NO_PID
  }

  lemma {:induction false} FirstVacant(sems: seq<Sem>, n: nat)
    requires n <= |sems| && forall j :: 0 <= j < n ==> sems[j].creator != NO_PID
    ensures var f := FreeSemFrom(sems, n);
      forall i :: 0 <= i < |sems| ==> (Vacant(sems, i) <==> i == f)
    decreases |sems| - n
  {
    if n < |sems| && sems[n].creator != NO_PID {
      FirstVacant(sems, n + 1);
    }
  }

  /** What a teardown leaves of slot `j`, and of task `p`. */
  lemma {:induction false} PurgeEffect(k: Kernel, idx: nat, i: nat, j: int, p: int)
    requires i <= |k.waiters| && 0 <= j < |k.waiters| && 0 <= p < |k.tasks|
    ensures var v := PurgeFrom(k, idx, i);
      && |v.waiters| == |k.waiters| && |v.tasks| == |k.tasks|
      && v.waiters[j] == (if i <= j && k.waiters[j].semId == idx + 1 then Freed(k.waiters[j]) else k.waiters[j])
      && (k.tasks[p].state != Block || k.tasks[p].blockBy != SemToken(idx) ==> Unblocked(v.tasks[p], idx))
      && (i <= j && k.waiters[j].semId == idx + 1 && k.waiters[j].pid == p ==> Unblocked(v.tasks[p], idx))
    decreases |k.waiters| - i
  {
    PurgeFrame(k, idx, i);
    if i < |k.waiters| {
      PurgeEffect(PurgeAt(k, idx, i), idx, i + 1, j, p);
    }
  }

  predicate Unblocked(t: Task, idx: nat) {
    t.state != Block || t.blockBy != SemToken(idx)
  }

  /** Destroying a semaphore frees its record and every place in its queue, leaves every other record and
      place as it was, and leaves nobody who was queued asleep on its token. Only the creator can. */
  lemma DestroyExactly(w0: World, es: seq<R.Step>, owner: int, semId: int)
    requires R.Initial(w0) && R.CanRun(w0, es) && R.Enabled(R.After(w0, es), R.Destroy(owner, semId))
    ensures var w := R.After(w0, es); var v := R.Next(w, R.Destroy(owner, semId)); var idx := semId - 1;
      if !(0 <= idx < |w.k.sems|) || w.k.sems[idx].creator != owner then v == w
      else
        && v.k.sems == w.k.sems[idx := FREE_SEM] && |v.k.waiters| == |w.k.waiters| && |v.k.tasks| == |w.k.tasks|
        && forall j :: 0 <= j < |w.k.waiters| ==>
             if w.k.waiters[j].semId == semId then
               && v.k.waiters[j].semId == 0 && 0 <= w.k.waiters[j].pid < |w.k.tasks|
               && Unblocked(v.k.tasks[w.k.waiters[j].pid], idx)
             else v.k.waiters[j] == w.k.waiters[j]
  {
    Reached(w0, es);
    var w, idx := R.After(w0, es), semId - 1;
    hide R.CanRun, R.After;
    if 0 <= idx < |w.k.sems| && w.k.sems[idx].creator == owner {
      PurgeFrame(w.k, idx, 0);
      forall j | 0 <= j < |w.k.waiters|
        ensures var v := PurgeFrom(w.k, idx, 0);
          if w.k.waiters[j].semId == semId then
            && v.waiters[j].semId == 0 && 0 <= w.k.waiters[j].pid < |w.k.tasks|
            && Unblocked(v.tasks[w.k.waiters[j].pid], idx)
          else v.waiters[j] == w.k.waiters[j]
      {
        assert SlotOk(w.k, j);
        if w.k.waiters[j].semId == semId {
          PurgeEffect(w.k, idx, 0, j, w.k.waiters[j].pid);
        } else {
          PurgeSlot(w.k, idx, 0, j);
        }
      }
      hide PurgeFrom;
    }
  }

  lemma {:induction false} PurgeSlot(k: Kernel, idx: nat, i: nat, j: int)
    requires i <= |k.waiters| && 0 <= j < |k.waiters| && k.waiters[j].semId != idx + 1
    ensures |PurgeFrom(k, idx, i).waiters| == |k.waiters| && PurgeFrom(k, idx, i).waiters[j] == k.waiters[j]
    decreases |k.waiters| - i
  {
    if i < |k.waiters| {
      PurgeSlot(PurgeAt(k, idx, i), idx, i + 1, j);
    }
  }
}
