/** Releases, recovery and teardown keep the invariant of the blocking core. */
module SemaphoreHandoff {
  import opened WakeLatch
  import opened Semaphore
  import opened SemaphoreInvariant

  lemma GrantSem(w: World, idx: nat, slot: int, j: int)
    requires Good(w, idx) && ValidIdx(w.k, idx) && w.k.sems[idx].count > 0 && 0 <= j < |w.k.sems|
    requires 0 <= slot < |w.k.waiters| && Waits(w.k.waiters[slot], idx + 1) && Live(w.k.tasks, w.k.waiters[slot].pid)
    ensures SemGood(w.(k := Grant(w.k, idx, slot)), j, -1)
  {
    var x := w.k.waiters[slot].(granted := true);
    var w' := w.(k := Grant(w.k, idx, slot));
    assert SemGood(w, j, idx);
    assert w'.k.waiters == w.k.waiters[slot := x];
    GrantedSize(w.k.waiters, slot, x, j + 1);
    if j == idx {
      assert Waits(w.k.waiters[slot], idx + 1);
      if IsBinary(w.k.sems[idx]) {
        assert GrantedSet(w.k.waiters, idx + 1) == {} && w.held[idx] == multiset{};
        forall i | 0 <= i < |w'.k.waiters| && On(w'.k.waiters[i], idx + 1) && w'.k.waiters[i].granted
          ensures w'.k.waiters[i].pid == w'.k.sems[idx].occupiedPid
        {
          assert i != slot ==> i in GrantedSet(w.k.waiters, idx + 1);
        }
      }
    }
  }

  /** The permit moves from the pool to the oldest waiter's slot, and the waiter is woken. */
  lemma GrantGood(w: World, idx: nat, slot: int)
    requires Good(w, idx) && ValidIdx(w.k, idx) && w.k.sems[idx].count > 0
    requires 0 <= slot < |w.k.waiters| && Waits(w.k.waiters[slot], idx + 1) && Live(w.k.tasks, w.k.waiters[slot].pid)
    ensures Inv(w.(k := Grant(w.k, idx, slot)))
  {
    var pid := w.k.waiters[slot].pid;
    var x := w.k.waiters[slot].(granted := true);
    var w' := w.(k := Grant(w.k, idx, slot));
    assert SlotOk(w.k, slot);
    assert w'.k.waiters == w.k.waiters[slot := x];
    assert SlotsOk(w'.k) by {
      forall i | 0 <= i < |w'.k.waiters| ensures SlotOk(w'.k, i) { assert SlotOk(w.k, i); }
    }
    forall j | 0 <= j < |w.k.sems| ensures SemGood(w', j, -1) {
      GrantSem(w, idx, slot, j);
    }
    assert ParkSafe(w') by {
      GrantWakesUp(w.k.tasks[pid], w.pc[pid], idx + 1);
      WakeMoveOk(w, pid, SemToken(idx), idx);
      forall i | 0 <= i < |w'.k.waiters| && w'.k.waiters[i].semId != 0 && w'.k.waiters[i].granted
        ensures SlotOk(w'.k, i)
            && Unparked(w'.k.tasks[w'.k.waiters[i].pid], w'.pc[w'.k.waiters[i].pid], w'.k.waiters[i].semId)
      {
        assert SlotOk(w.k, i);
      }
    }
    forall t | 0 <= t < |w'.k.tasks| && !Alive(w'.k.tasks[t]) && !w'.dying[t]
      ensures NoSlotOf(w'.k.waiters, t) && HoldsNoMutex(w', t)
    {
      assert NoSlotOf(w.k.waiters, t) && HoldsNoMutex(w, t);
    }
  }

  /** With nobody queued, a spare permit may stay in the pool. */
  lemma CoolDown(w: World, idx: nat)
    requires Good(w, idx) && idx < |w.k.sems|
    requires w.k.sems[idx].count <= 0 || NoWaiter(w.k.waiters, idx + 1)
    ensures Inv(w)
  {
    forall j | 0 <= j < |w.k.sems| ensures SemGood(w, j, -1) {
      assert SemGood(w, j, idx);
    }
  }

  /** Hand-off restores the invariant after a permit came back. */
  lemma {:induction false} HandoffGood(w: World, idx: nat)
    requires Good(w, idx) && ValidIdx(w.k, idx)
    ensures Inv(w.(k := Handoff(w.k, idx)))
    decreases WaitingSet(w.k.waiters, idx + 1)
  {
    if w.k.sems[idx].count <= 0 {
      CoolDown(w, idx);
    } else {
      var slot := Head(w.k.waiters, idx + 1);
      if slot < 0 {
        CoolDown(w, idx);
      } else if !Live(w.k.tasks, w.k.waiters[slot].pid) {
        DropShrinks(w.k, slot, idx + 1);
        DropGood(w, slot, idx);
        HandoffGood(w.(k := DropSlot(w.k, slot)), idx);
      } else {
        GrantGood(w, idx, slot);
      }
    }
  }

  /** Hand-off creates no slot: what belongs to `pid` afterwards belonged to it before. */
  lemma {:induction false} HandoffSlots(k: Kernel, idx: nat, i: int, pid: int)
    requires idx < |k.sems| && 0 <= i < |k.waiters| && pid != NO_PID
    ensures |Handoff(k, idx).waiters| == |k.waiters|
    ensures Handoff(k, idx).waiters[i].pid == pid ==> k.waiters[i].pid == pid
    decreases WaitingSet(k.waiters, idx + 1)
  {
    if k.sems[idx].count > 0 {
      var slot := Head(k.waiters, idx + 1);
      if slot >= 0 && !Live(k.tasks, k.waiters[slot].pid) {
        DropShrinks(k, slot, idx + 1);
        HandoffSlots(DropSlot(k, slot), idx, i, pid);
      }
    }
  }

  /** History of a release: a holder gives its permit back, anybody else posts a new one. */
  function GiveBack(w: World, idx: int, pid: int): World
    requires Shaped(w) && 0 <= idx < |w.held|
  {
    if pid in w.held[idx] then w.(held := w.held[idx := w.held[idx] - multiset{pid}])
    else w.(credit := w.credit[idx := w.credit[idx] + 1])
  }

  lemma ReturnedGood(w: World, idx: nat, pid: int)
    requires Inv(w) && ValidIdx(w.k, idx) && w.k.sems[idx].count < w.k.sems[idx].maxCount
    requires IsBinary(w.k.sems[idx]) ==> pid in w.held[idx]
    ensures Good(GiveBack(w.(k := Returned(w.k, idx, pid)), idx, pid), idx)
  {
    var w' := GiveBack(w.(k := Returned(w.k, idx, pid)), idx, pid);
    assert SemGood(w, idx, -1);
    assert SlotsOk(w'.k) by {
      forall i | 0 <= i < |w'.k.waiters| ensures SlotOk(w'.k, i) { assert SlotOk(w.k, i); }
    }
    forall j | 0 <= j < |w.k.sems| ensures SemGood(w', j, idx) {
      assert SemGood(w, j, -1);
      if j == idx && IsBinary(w.k.sems[idx]) {
        assert w.held[idx] == multiset{pid} + w'.held[idx];
        assert GrantedSet(w.k.waiters, idx + 1) == {} && w'.held[idx] == multiset{};
        forall i | 0 <= i < |w.k.waiters| && On(w.k.waiters[i], idx + 1) ensures !w.k.waiters[i].granted {
          assert i !in GrantedSet(w.k.waiters, idx + 1);
        }
      }
    }
    forall t | 0 <= t < |w'.k.tasks| && !Alive(w'.k.tasks[t]) && !w'.dying[t]
      ensures NoSlotOf(w'.k.waiters, t) && HoldsNoMutex(w', t)
    {
      assert NoSlotOf(w.k.waiters, t) && HoldsNoMutex(w, t);
    }
  }

  /** History of an uncollected grant given back: only at the ceiling is the permit lost. */
  function Clip(w: World, idx: int): World
    requires Shaped(w) && 0 <= idx < |w.k.sems|
  {
    if w.k.sems[idx].count < w.k.sems[idx].maxCount then w
    else w.(credit := w.credit[idx := w.credit[idx] - 1])
  }

  function UngrantedW(w: World, slot: int): World
    requires Shaped(w) && 0 <= slot < |w.k.waiters| && ValidIdx(w.k, w.k.waiters[slot].semId - 1)
  {
    var s := w.k.waiters[slot];
    Clip(w, s.semId - 1).(k := Ungranted(DropSlot(w.k, slot), s.semId - 1, s.pid))
  }

  lemma UngrantedSem(w: World, slot: int, j: int)
    requires Inv(w) && 0 <= slot < |w.k.waiters| && 0 <= j < |w.k.sems|
    requires ValidIdx(w.k, w.k.waiters[slot].semId - 1) && w.k.waiters[slot].granted
    ensures SemGood(UngrantedW(w, slot), j, w.k.waiters[slot].semId - 1)
  {
    var s := w.k.waiters[slot];
    var idx := s.semId - 1;
    var w' := UngrantedW(w, slot);
    assert SemGood(w, j, -1);
    GrantedSize(w.k.waiters, slot, Freed(s), j + 1);
    if j == idx && IsBinary(w.k.sems[idx]) {
      assert |GrantedSet(w'.k.waiters, idx + 1)| == 0 && |w.held[idx]| == 0;
      forall i | 0 <= i < |w'.k.waiters| && On(w'.k.waiters[i], idx + 1) ensures !w'.k.waiters[i].granted {
        assert i !in GrantedSet(w'.k.waiters, idx + 1);
      }
    }
  }

  lemma UngrantedGood(w: World, slot: int)
    requires Inv(w) && 0 <= slot < |w.k.waiters|
    requires w.k.waiters[slot].semId != 0 && w.k.waiters[slot].granted
    ensures ValidIdx(w.k, w.k.waiters[slot].semId - 1)
    ensures Good(UngrantedW(w, slot), w.k.waiters[slot].semId - 1)
  {
    assert SlotOk(w.k, slot);
    var w1 := w.(k := DropSlot(w.k, slot));
    var w' := UngrantedW(w, slot);
    assert SlotsOk(w'.k) by {
      forall i | 0 <= i < |w'.k.waiters| ensures SlotOk(w'.k, i) { assert SlotOk(w.k, i); }
    }
    var hot := w.k.waiters[slot].semId - 1;
    forall j | 0 <= j < |w.k.sems| ensures SemGood(w', j, hot) {
      UngrantedSem(w, slot, j);
    }
    DropKeepsDead(w, slot);
    forall t | 0 <= t < |w'.k.tasks| && !Alive(w'.k.tasks[t]) && !w'.dying[t]
      ensures NoSlotOf(w'.k.waiters, t) && HoldsNoMutex(w', t)
    {
      assert NoSlotOf(w1.k.waiters, t) && HoldsNoMutex(w1, t);
    }
  }

  // ----- recovery after a death

  function ClearSlotW(w: World, pid: int, i: int): World
    requires Shaped(w) && 0 <= i < |w.k.waiters|
  {
    var s := w.k.waiters[i];
    ClearSlotFrame(w.k, pid, i);
    (if s.semId != 0 && s.pid == pid && s.granted && ValidIdx(w.k, s.semId - 1) then Clip(w, s.semId - 1) else w)
      .(k := ClearSlotAt(w.k, pid, i))
  }

  function ClearSlotsW(w: World, pid: int, i: nat): World
    requires Shaped(w) && i <= |w.k.waiters|
    decreases |w.k.waiters| - i
  {
    if i == |w.k.waiters| then w else
    ClearSlotFrame(w.k, pid, i);
    ClearSlotsW(ClearSlotW(w, pid, i), pid, i + 1)
  }

  ghost predicate NoSlotBelow(ws: seq<Waiter>, pid: int, n: int) {
    forall i :: 0 <= i < n && i < |ws| ==> ws[i].pid != pid
  }

  lemma ClearSlotInv(w: World, pid: int, i: int)
    requires Inv(w) && 0 <= i < |w.k.waiters|
    ensures Inv(ClearSlotW(w, pid, i)) && ClearSlotW(w, pid, i).held == w.held
  {
    var s := w.k.waiters[i];
    assert SlotOk(w.k, i);
    if s.semId != 0 && s.pid == pid {
      if s.granted {
        UngrantedGood(w, i);
        var w1 := UngrantedW(w, i);
        HandoffGood(w1, s.semId - 1);
        assert ClearSlotW(w, pid, i) == w1.(k := Handoff(w1.k, s.semId - 1));
      } else {
        DropGood(w, i, -1);
      }
    }
  }

  lemma ClearSlotGood(w: World, pid: int, i: int)
    requires Inv(w) && 0 <= i < |w.k.waiters| && pid >= 0 && NoSlotBelow(w.k.waiters, pid, i)
    ensures Inv(ClearSlotW(w, pid, i))
    ensures NoSlotBelow(ClearSlotW(w, pid, i).k.waiters, pid, i + 1)
    ensures ClearSlotW(w, pid, i).held == w.held
  {
    ClearSlotInv(w, pid, i);
    var s := w.k.waiters[i];
    assert SlotOk(w.k, i);
    hide Inv, Good;
    if s.semId != 0 && s.pid == pid && s.granted {
      var idx := s.semId - 1;
      var w1 := UngrantedW(w, i);
      assert ClearSlotW(w, pid, i).k == Handoff(w1.k, idx);
      forall j | 0 <= j < i + 1 && j < |w.k.waiters| ensures Handoff(w1.k, idx).waiters[j].pid != pid {
        HandoffSlots(w1.k, idx, j, pid);
      }
    }
  }

  lemma {:induction false} ClearSlotsGood(w: World, pid: int, i: nat)
    requires Inv(w) && i <= |w.k.waiters| && pid >= 0 && NoSlotBelow(w.k.waiters, pid, i)
    ensures Inv(ClearSlotsW(w, pid, i))
    ensures NoSlotOf(ClearSlotsW(w, pid, i).k.waiters, pid)
    ensures ClearSlotsW(w, pid, i).k == ClearSlotsFrom(w.k, pid, i)
    ensures ClearSlotsW(w, pid, i).dying == w.dying && ClearSlotsW(w, pid, i).pc == w.pc
    decreases |w.k.waiters| - i
  {
    if i < |w.k.waiters| {
      ClearSlotFrame(w.k, pid, i);
      ClearSlotGood(w, pid, i);
      ClearSlotsGood(ClearSlotW(w, pid, i), pid, i + 1);
    }
  }

  function ClearHeldW(w: World, pid: int, i: nat): World
    requires Shaped(w) && i < |w.k.sems|
  {
    ClearHeldFrame(w.k, pid, i);
    (if HeldBy(w.k.sems[i], pid) then w.(held := w.held[i := multiset{}]) else w).(k := ClearHeldAt(w.k, pid, i))
  }

  function ClearHeldsW(w: World, pid: int, i: nat): World
    requires Shaped(w) && i <= |w.k.sems|
    decreases |w.k.sems| - i
  {
    if i == |w.k.sems| then w else
    ClearHeldFrame(w.k, pid, i);
    ClearHeldsW(ClearHeldW(w, pid, i), pid, i + 1)
  }

  ghost predicate HoldsNoneBelow(w: World, pid: int, n: int)
    requires Shaped(w)
  {
    forall idx :: 0 <= idx < n && idx < |w.k.sems| && w.k.sems[idx].creator != NO_PID && IsBinary(w.k.sems[idx]) ==>
      pid !in w.held[idx]
  }

  lemma RecoverGood(w: World, pid: int, i: nat)
    requires Inv(w) && i < |w.k.sems| && pid >= 0 && NoSlotOf(w.k.waiters, pid) && HeldBy(w.k.sems[i], pid)
    ensures var s := w.k.sems[i].(count := w.k.sems[i].maxCount, occupied := false, occupiedPid := NO_PID);
            Good(w.(held := w.held[i := multiset{}], k := w.k.(sems := w.k.sems[i := s])), i)
  {
    var s := w.k.sems[i].(count := w.k.sems[i].maxCount, occupied := false, occupiedPid := NO_PID);
    var w' := w.(held := w.held[i := multiset{}], k := w.k.(sems := w.k.sems[i := s]));
    assert SemGood(w, i, -1);
    assert GrantedSet(w.k.waiters, i + 1) == {};
    assert SlotsOk(w'.k) by {
      forall j | 0 <= j < |w'.k.waiters| ensures SlotOk(w'.k, j) { assert SlotOk(w.k, j); }
    }
    forall j | 0 <= j < |w.k.sems| ensures SemGood(w', j, i) {
      assert SemGood(w, j, -1);
      if j == i {
        forall n | 0 <= n < |w.k.waiters| && On(w.k.waiters[n], i + 1) ensures !w.k.waiters[n].granted {
          assert n !in GrantedSet(w.k.waiters, i + 1);
        }
      }
    }
    forall t | 0 <= t < |w'.k.tasks| && !Alive(w'.k.tasks[t]) && !w'.dying[t]
      ensures NoSlotOf(w'.k.waiters, t) && HoldsNoMutex(w', t)
    {
      assert NoSlotOf(w.k.waiters, t) && HoldsNoMutex(w, t);
    }
  }

  /** Hand-off changes at most one semaphore's record, and neither its creator nor its ceiling. */
  lemma {:induction false} HandoffSems(k: Kernel, idx: nat, j: int)
    requires idx < |k.sems| && 0 <= j < |k.sems|
    ensures |Handoff(k, idx).sems| == |k.sems|
    ensures Handoff(k, idx).sems[j].creator == k.sems[j].creator
    ensures Handoff(k, idx).sems[j].maxCount == k.sems[j].maxCount
    decreases WaitingSet(k.waiters, idx + 1)
  {
    if k.sems[idx].count > 0 {
      var slot := Head(k.waiters, idx + 1);
      if slot >= 0 && !Live(k.tasks, k.waiters[slot].pid) {
        DropShrinks(k, slot, idx + 1);
        HandoffSems(DropSlot(k, slot), idx, j);
      }
    }
  }

  lemma ClearHeldGood(w: World, pid: int, i: nat)
    requires Inv(w) && i < |w.k.sems| && pid >= 0
    requires NoSlotOf(w.k.waiters, pid) && HoldsNoneBelow(w, pid, i)
    ensures Inv(ClearHeldW(w, pid, i))
    ensures NoSlotOf(ClearHeldW(w, pid, i).k.waiters, pid)
    ensures HoldsNoneBelow(ClearHeldW(w, pid, i), pid, i + 1)
  {
    var w' := ClearHeldW(w, pid, i);
    assert SemGood(w, i, -1);
    if HeldBy(w.k.sems[i], pid) {
      var s := w.k.sems[i].(count := w.k.sems[i].maxCount, occupied := false, occupiedPid := NO_PID);
      var w1 := w.(held := w.held[i := multiset{}], k := w.k.(sems := w.k.sems[i := s]));
      RecoverGood(w, pid, i);
      HandoffGood(w1, i);
      assert w' == w1.(k := Handoff(w1.k, i));
      forall j | 0 <= j < |w.k.waiters| ensures w'.k.waiters[j].pid != pid {
        HandoffSlots(w1.k, i, j, pid);
      }
      forall j | 0 <= j < i + 1 && j < |w'.k.sems| && w'.k.sems[j].creator != NO_PID && IsBinary(w'.k.sems[j])
        ensures pid !in w'.held[j]
      {
        HandoffSems(w1.k, i, j);
      }
    }
  }

  lemma {:induction false} ClearHeldsGood(w: World, pid: int, i: nat)
    requires Inv(w) && i <= |w.k.sems| && pid >= 0
    requires NoSlotOf(w.k.waiters, pid) && HoldsNoneBelow(w, pid, i)
    ensures Inv(ClearHeldsW(w, pid, i))
    ensures NoSlotOf(ClearHeldsW(w, pid, i).k.waiters, pid) && HoldsNoMutex(ClearHeldsW(w, pid, i), pid)
    ensures ClearHeldsW(w, pid, i).k == ClearHeldFrom(w.k, pid, i)
    ensures ClearHeldsW(w, pid, i).dying == w.dying && ClearHeldsW(w, pid, i).pc == w.pc
    decreases |w.k.sems| - i
  {
    if i < |w.k.sems| {
      ClearHeldFrame(w.k, pid, i);
      ClearHeldGood(w, pid, i);
      ClearHeldsGood(ClearHeldW(w, pid, i), pid, i + 1);
    } else {
      assert HoldsNoMutex(w, pid);
    }
  }

  function RecoverW(w: World, pid: int): World
    requires Shaped(w)
  {
    ClearSlotsShaped(w, pid, 0);
    ClearHeldsW(ClearSlotsW(w, pid, 0), pid, 0)
  }

  lemma {:induction false} ClearSlotsShaped(w: World, pid: int, i: nat)
    requires Shaped(w) && i <= |w.k.waiters|
    ensures Shaped(ClearSlotsW(w, pid, i))
    decreases |w.k.waiters| - i
  {
    if i < |w.k.waiters| {
      ClearSlotFrame(w.k, pid, i);
      ClearSlotsShaped(ClearSlotW(w, pid, i), pid, i + 1);
    }
  }

  /** The death of `pid` returns everything it had and leaves the invariant in place. */
  lemma RecoverWGood(w: World, pid: int)
    requires Inv(w) && pid >= 0
    ensures Inv(RecoverW(w, pid))
    ensures RecoverW(w, pid).k == ClearOccupied(w.k, pid)
    ensures NoSlotOf(RecoverW(w, pid).k.waiters, pid) && HoldsNoMutex(RecoverW(w, pid), pid)
    ensures RecoverW(w, pid).dying == w.dying && RecoverW(w, pid).pc == w.pc
  {
    ClearSlotsShaped(w, pid, 0);
    ClearSlotsGood(w, pid, 0);
    ClearHeldsGood(ClearSlotsW(w, pid, 0), pid, 0);
  }

  // ----- teardown of a semaphore

  /** While a queue is being purged its semaphore is exempt from the ledger. */
  ghost predicate GoodBut(w: World, dead: int) {
    && Shaped(w)
    && SlotsOk(w.k)
    && Unique(w.k.waiters)
    && (forall idx :: 0 <= idx < |w.k.sems| && idx != dead ==> SemGood(w, idx, -1))
    && ParkSafe(w)
    && WindowsOk(w)
    && DeadClean(w)
  }

  lemma PurgeDropGood(w: World, idx: nat, i: int)
    requires GoodBut(w, idx) && idx < |w.k.sems| && 0 <= i < |w.k.waiters| && w.k.waiters[i].semId == idx + 1
    ensures GoodBut(w.(k := DropSlot(w.k, i)), idx)
  {
    var w' := w.(k := DropSlot(w.k, i));
    assert SlotsOk(w'.k) by {
      forall n | 0 <= n < |w'.k.waiters| ensures SlotOk(w'.k, n) { assert SlotOk(w.k, n); }
    }
    forall j | 0 <= j < |w.k.sems| && j != idx ensures SemGood(w', j, -1) {
      assert SemGood(w, j, -1);
      GrantedSize(w.k.waiters, i, Freed(w.k.waiters[i]), j + 1);
    }
    DropKeepsDead(w, i);
  }

  lemma PurgeWakeGood(w: World, dead: int, pid: int, token: Token)
    requires GoodBut(w, dead)
    ensures GoodBut(w.(k := WakePid(w.k, pid, token)), dead)
  {
    if Live(w.k.tasks, pid) {
      var t := WakeBy(w.k.tasks[pid], token);
      var w' := w.(k := WakePid(w.k, pid, token));
      assert SlotsOk(w'.k) by {
        forall n | 0 <= n < |w'.k.waiters| ensures SlotOk(w'.k, n) { assert SlotOk(w.k, n); }
      }
      assert ParkSafe(w') by {
        forall i | 0 <= i < |w.k.waiters| && w.k.waiters[i].semId != 0 && w.k.waiters[i].granted
          ensures SlotOk(w'.k, i)
              && Unparked(w'.k.tasks[w.k.waiters[i].pid], w'.pc[w.k.waiters[i].pid], w.k.waiters[i].semId)
        {
          assert SlotOk(w.k, i);
        }
      }
      forall j | 0 <= j < |w.k.sems| && j != dead ensures SemGood(w', j, -1) {
        assert SemGood(w, j, -1);
      }
      forall x | 0 <= x < |w'.k.tasks| && !Alive(w'.k.tasks[x]) && !w'.dying[x]
        ensures NoSlotOf(w'.k.waiters, x) && HoldsNoMutex(w', x)
      {
        assert NoSlotOf(w.k.waiters, x) && HoldsNoMutex(w, x);
      }
    }
  }

  lemma {:induction false} PurgeGood(w: World, idx: nat, i: nat)
    requires GoodBut(w, idx) && idx < |w.k.sems| && i <= |w.k.waiters|
    requires forall n :: 0 <= n < i ==> w.k.waiters[n].semId != idx + 1
    ensures GoodBut(w.(k := PurgeFrom(w.k, idx, i)), idx)
    ensures forall n :: 0 <= n < |w.k.waiters| ==>
      |PurgeFrom(w.k, idx, i).waiters| == |w.k.waiters| && PurgeFrom(w.k, idx, i).waiters[n].semId != idx + 1
    decreases |w.k.waiters| - i
  {
    if i < |w.k.waiters| {
      if w.k.waiters[i].semId == idx + 1 {
        PurgeDropGood(w, idx, i);
        PurgeWakeGood(w.(k := DropSlot(w.k, i)), idx, w.k.waiters[i].pid, SemToken(idx));
      }
      PurgeGood(w.(k := PurgeAt(w.k, idx, i)), idx, i + 1);
    }
  }

  lemma ResetGood(w: World, idx: nat)
    requires Inv(w) && idx < |w.k.sems|
    ensures Inv(w.(k := Reset(w.k, idx)))
  {
    assert GoodBut(w, idx) by {
      forall j | 0 <= j < |w.k.sems| ensures SemGood(w, j, -1) {}
    }
    PurgeGood(w, idx, 0);
    PurgeFrame(w.k, idx, 0);
    var w1 := w.(k := PurgeFrom(w.k, idx, 0));
    var w' := w.(k := Reset(w.k, idx));
    assert SlotsOk(w'.k) by {
      forall i | 0 <= i < |w'.k.waiters| ensures SlotOk(w'.k, i) {
        assert SlotOk(w1.k, i);
        assert w1.k.waiters[i].semId != idx + 1;
      }
    }
    forall j | 0 <= j < |w.k.sems| ensures SemGood(w', j, -1) {
      assert j != idx ==> SemGood(w1, j, -1);
    }
    assert ParkSafe(w') by { assert ParkSafe(w1); }
    forall x | 0 <= x < |w'.k.tasks| && !Alive(w'.k.tasks[x]) && !w'.dying[x]
      ensures NoSlotOf(w'.k.waiters, x) && HoldsNoMutex(w', x)
    {
      assert NoSlotOf(w1.k.waiters, x) && HoldsNoMutex(w1, x);
    }
  }

  lemma {:induction false} ClearCreatedGood(w: World, pid: int, i: nat)
    requires Inv(w) && i <= |w.k.sems|
    ensures Inv(w.(k := ClearFrom(w.k, pid, i)))
    decreases |w.k.sems| - i
  {
    if i < |w.k.sems| {
      if w.k.sems[i].creator == pid {
        ResetGood(w, i);
        PurgeFrame(w.k, i, 0);
        ClearCreatedGood(w.(k := Reset(w.k, i)), pid, i + 1);
      } else {
        ClearCreatedGood(w, pid, i + 1);
      }
    }
  }
}
