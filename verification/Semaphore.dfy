/** The kernel semaphore table: a permit pool per semaphore, one flat wait table shared by
    all of them, and hand-off of a returned permit to the oldest queued task.

    Every function below is one step taken with the proc lock held; the class at the end
    is the same table updated in place, each method proved equal to its function. */
module Semaphore {
  import opened WakeLatch

  const SEMAPHORE_MAX := 1024
  const SEM_WAITER_MAX := 256
  const SEMAPHORE_COUNT_MAX := 0x7fff_ffff
  const SEQ_MODULUS := 0x1_0000_0000
  const NO_PID := -1

  /** Address of the semaphore table; any positive value would do. */
  const TABLE_BASE := 0x8000_0000
  const RECORD_SIZE := 20

  datatype Sem = Sem(creator: int, occupiedPid: int, occupied: bool, count: int, maxCount: int)

  /** A wait-table slot; `semId` is 1-based and 0 marks the slot free.  `seqNo` is the 32-bit
      arrival number the kernel keeps.  `arrival` is the same number without wrap-around; no
      operation reads it. */
  datatype Waiter = Waiter(semId: int, pid: int, seqNo: nat, granted: bool, arrival: nat)

  datatype Kernel = Kernel(sems: seq<Sem>, waiters: seq<Waiter>, arrivals: nat, tasks: seq<Task>)

  datatype Verdict = Acquired | Error | Occupied | Park(slot: int)

  function SemToken(idx: nat): (t: Token)
    ensures t != GENERIC
  {
    TABLE_BASE + idx * RECORD_SIZE
  }

  lemma SemTokenInjective(i: nat, j: nat)
    ensures SemToken(i) == SemToken(j) ==> i == j
  {
  }

  predicate Shape(k: Kernel) {
    |k.sems| == SEMAPHORE_MAX && |k.waiters| == SEM_WAITER_MAX
  }

  predicate ValidIdx(k: Kernel, idx: int) {
    0 <= idx < |k.sems| && k.sems[idx].creator != NO_PID
  }

  predicate IsBinary(s: Sem) {
    s.maxCount == 1
  }

  function Refresh(s: Sem): Sem {
    s.(occupied := s.count <= 0)
  }

  /** `proc_get(pid) != NULL`. */
  predicate Live(tasks: seq<Task>, pid: int) {
    0 <= pid < |tasks| && Alive(tasks[pid])
  }

  function WakePid(k: Kernel, pid: int, token: Token): Kernel {
    if Live(k.tasks, pid) then k.(tasks := k.tasks[pid := WakeBy(k.tasks[pid], token)]) else k
  }

  // ----- the wait table

  predicate On(w: Waiter, semId: int) {
    w.semId == semId
  }

  predicate Waits(w: Waiter, semId: int) {
    w.semId == semId && !w.granted
  }

  predicate Keyed(w: Waiter, semId: int, pid: int) {
    w.semId == semId && w.pid == pid
  }

  /** Least slot from `i` on that is keyed by (semId, pid), or -1. */
  function FindFrom(ws: seq<Waiter>, semId: int, pid: int, i: nat): (r: int)
    requires i <= |ws|
    ensures r == -1 || (i <= r < |ws| && Keyed(ws[r], semId, pid))
    ensures forall j :: i <= j < (if r == -1 then |ws| else r) ==> !Keyed(ws[j], semId, pid)
    decreases |ws| - i
  {
    if i == |ws| then -1 else if Keyed(ws[i], semId, pid) then i else FindFrom(ws, semId, pid, i + 1)
  }

  function Find(ws: seq<Waiter>, semId: int, pid: int): int {
    FindFrom(ws, semId, pid, 0)
  }

  function FreeFrom(ws: seq<Waiter>, i: nat): (r: int)
    requires i <= |ws|
    ensures r == -1 || (i <= r < |ws| && ws[r].semId == 0)
    ensures r == -1 ==> forall j :: i <= j < |ws| ==> ws[j].semId != 0
    decreases |ws| - i
  {
    if i == |ws| then -1 else if ws[i].semId == 0 then i else FreeFrom(ws, i + 1)
  }

  /** Oldest ungranted waiter among slots `i..`, given the best candidate so far. */
  function HeadFrom(ws: seq<Waiter>, semId: int, i: nat, best: int): (r: int)
    requires i <= |ws| && -1 <= best < i
    requires best >= 0 ==> Waits(ws[best], semId)
    ensures r == -1 || (0 <= r < |ws| && Waits(ws[r], semId))
    ensures best >= 0 ==> r >= 0 && ws[r].seqNo <= ws[best].seqNo
    ensures r == -1 ==> forall j :: i <= j < |ws| ==> !Waits(ws[j], semId)
    ensures r >= 0 ==> forall j :: i <= j < |ws| && Waits(ws[j], semId) ==> ws[r].seqNo <= ws[j].seqNo
    decreases |ws| - i
  {
    if i == |ws| then best
    else if Waits(ws[i], semId) && (best < 0 || ws[i].seqNo < ws[best].seqNo) then HeadFrom(ws, semId, i + 1, i)
    else HeadFrom(ws, semId, i + 1, best)
  }

  function Head(ws: seq<Waiter>, semId: int): (r: int)
    ensures r == -1 || (0 <= r < |ws| && Waits(ws[r], semId))
    ensures r == -1 ==> forall j :: 0 <= j < |ws| ==> !Waits(ws[j], semId)
    ensures r >= 0 ==> forall j :: 0 <= j < |ws| && Waits(ws[j], semId) ==> ws[r].seqNo <= ws[j].seqNo
  {
    HeadFrom(ws, semId, 0, -1)
  }

  function Freed(w: Waiter): Waiter {
    Waiter(0, NO_PID, w.seqNo, false, w.arrival)
  }

  function DropSlot(k: Kernel, slot: int): Kernel
    requires 0 <= slot < |k.waiters|
  {
    k.(waiters := k.waiters[slot := Freed(k.waiters[slot])])
  }

  /** `sem_waiter_del_locked`: only the owner's slot is dropped. */
  function Del(k: Kernel, slot: int, pid: int): Kernel {
    if 0 <= slot < |k.waiters| && k.waiters[slot].semId != 0 && k.waiters[slot].pid == pid
    then DropSlot(k, slot) else k
  }

  function AddAt(k: Kernel, slot: int, semId: int, pid: int): Kernel
    requires 0 <= slot < |k.waiters|
  {
    k.(waiters := k.waiters[slot := Waiter(semId, pid, k.arrivals % SEQ_MODULUS, false, k.arrivals)],
       arrivals := k.arrivals + 1)
  }

  // ----- hand-off

  function WaitingSet(ws: seq<Waiter>, semId: int): set<int> {
    set i | 0 <= i < |ws| && Waits(ws[i], semId)
  }

  lemma DropShrinks(k: Kernel, slot: int, semId: int)
    requires 0 <= slot < |k.waiters| && Waits(k.waiters[slot], semId) && semId != 0
    ensures WaitingSet(DropSlot(k, slot).waiters, semId) < WaitingSet(k.waiters, semId)
  {
    assert slot in WaitingSet(k.waiters, semId);
    assert slot !in WaitingSet(DropSlot(k, slot).waiters, semId);
  }

  function Grant(k: Kernel, idx: nat, slot: int): Kernel
    requires idx < |k.sems| && 0 <= slot < |k.waiters|
  {
    var s := k.sems[idx];
    var s1 := s.(count := s.count - 1,
                 occupiedPid := if IsBinary(s) then k.waiters[slot].pid else s.occupiedPid);
    var k1 := k.(sems := k.sems[idx := Refresh(s1)],
                 waiters := k.waiters[slot := k.waiters[slot].(granted := true)]);
    WakePid(k1, k.waiters[slot].pid, SemToken(idx))
  }

  /** `sem_handoff_locked`: drop dead waiters until the oldest live one takes the permit. */
  function Handoff(k: Kernel, idx: nat): Kernel
    requires idx < |k.sems|
    decreases WaitingSet(k.waiters, idx + 1)
  {
    if k.sems[idx].count <= 0 then k else
    var slot := Head(k.waiters, idx + 1);
    if slot < 0 then k
    else if !Live(k.tasks, k.waiters[slot].pid) then
      DropShrinks(k, slot, idx + 1);
      Handoff(DropSlot(k, slot), idx)
    else Grant(k, idx, slot)
  }

  lemma {:induction false} HandoffFrame(k: Kernel, idx: nat)
    requires idx < |k.sems|
    ensures |Handoff(k, idx).sems| == |k.sems| && |Handoff(k, idx).waiters| == |k.waiters|
    ensures |Handoff(k, idx).tasks| == |k.tasks|
    ensures Handoff(k, idx).arrivals == k.arrivals
    decreases WaitingSet(k.waiters, idx + 1)
  {
    if k.sems[idx].count > 0 {
      var slot := Head(k.waiters, idx + 1);
      if slot >= 0 && !Live(k.tasks, k.waiters[slot].pid) {
        DropShrinks(k, slot, idx + 1);
        HandoffFrame(DropSlot(k, slot), idx);
      }
    }
  }

  // ----- teardown

  function PurgeAt(k: Kernel, idx: nat, i: int): Kernel
    requires 0 <= i < |k.waiters|
  {
    if k.waiters[i].semId != idx + 1 then k
    else WakePid(DropSlot(k, i), k.waiters[i].pid, SemToken(idx))
  }

  function PurgeFrom(k: Kernel, idx: nat, i: nat): Kernel
    requires i <= |k.waiters|
    decreases |k.waiters| - i
  {
    if i == |k.waiters| then k else PurgeFrom(PurgeAt(k, idx, i), idx, i + 1)
  }

  const FREE_SEM := Sem(NO_PID, NO_PID, false, 0, 1)

  lemma {:induction false} PurgeFrame(k: Kernel, idx: nat, i: nat)
    requires i <= |k.waiters|
    ensures PurgeFrom(k, idx, i).sems == k.sems
    ensures |PurgeFrom(k, idx, i).waiters| == |k.waiters|
    ensures |PurgeFrom(k, idx, i).tasks| == |k.tasks|
    ensures PurgeFrom(k, idx, i).arrivals == k.arrivals
    decreases |k.waiters| - i
  {
    if i < |k.waiters| {
      PurgeFrame(PurgeAt(k, idx, i), idx, i + 1);
    }
  }

  /** `sem_reset_locked`. */
  function Reset(k: Kernel, idx: nat): Kernel
    requires idx < |k.sems|
  {
    PurgeFrame(k, idx, 0);
    var p := PurgeFrom(k, idx, 0);
    p.(sems := p.sems[idx := FREE_SEM])
  }

  function ClearFrom(k: Kernel, pid: int, i: nat): Kernel
    requires i <= |k.sems|
    decreases |k.sems| - i
  {
    PurgeFrame(k, i, 0);
    if i == |k.sems| then k
    else ClearFrom(if k.sems[i].creator == pid then Reset(k, i) else k, pid, i + 1)
  }

  // ----- the permit operations

  function TryAcquire(k: Kernel, idx: nat, pid: int): Kernel
    requires idx < |k.sems|
  {
    var s := k.sems[idx];
    if s.count <= 0 then k else
    k.(sems := k.sems[idx := Refresh(s.(count := s.count - 1,
                                        occupiedPid := if IsBinary(s) then pid else s.occupiedPid))])
  }

  /** Index of the least free semaphore from `i`, or -1. */
  function FreeSemFrom(sems: seq<Sem>, i: nat): (r: int)
    requires i <= |sems|
    ensures r == -1 || (i <= r < |sems| && sems[r].creator == NO_PID)
    ensures r == -1 ==> forall j :: i <= j < |sems| ==> sems[j].creator != NO_PID
    decreases |sems| - i
  {
    if i == |sems| then -1 else if sems[i].creator == NO_PID then i else FreeSemFrom(sems, i + 1)
  }

  /** `sem_alloc_raw`; the new 1-based id is `FreeSemFrom + 1`, so 0 reports a full table. */
  function Alloc(k: Kernel, owner: int, count: int, maxCount: int): Kernel {
    var i := FreeSemFrom(k.sems, 0);
    if i < 0 then k
    else k.(sems := k.sems[i := Refresh(Sem(owner, NO_PID, false, if count < 0 then 0 else count, maxCount))])
  }

  /** The locked part of `semaphore_enter_raw` and the verdict it leads to. */
  function EnterLocked(k: Kernel, pid: int, semId: int): (Kernel, Verdict) {
    var idx := semId - 1;
    if !ValidIdx(k, idx) then (k, Error) else
    var slot := Find(k.waiters, semId, pid);
    if slot >= 0 && k.waiters[slot].granted then (Del(k, slot, pid), Acquired)
    else if k.sems[idx].count > 0 then (Del(TryAcquire(k, idx, pid), slot, pid), Acquired)
    else if slot >= 0 then (k, Park(slot))
    else
      var f := FreeFrom(k.waiters, 0);
      if f < 0 then (k, Occupied) else (AddAt(k, f, semId, pid), Park(f))
  }

  /** The re-check of a context that must not park. */
  function EnterServing(k: Kernel, pid: int, semId: int, slot: int): (Kernel, Verdict)
    requires 0 <= slot < |k.waiters|
  {
    var granted := Keyed(k.waiters[slot], semId, pid) && k.waiters[slot].granted;
    (Del(k, slot, pid), if granted then Acquired else Occupied)
  }

  function TryEnter(k: Kernel, pid: int, semId: int): (Kernel, Verdict) {
    var idx := semId - 1;
    if !ValidIdx(k, idx) then (k, Error) else
    var slot := Find(k.waiters, semId, pid);
    var k1 := Del(k, slot, pid);
    if slot >= 0 && k.waiters[slot].granted then (k1, Acquired)
    else if k.sems[idx].count > 0 then (TryAcquire(k1, idx, pid), Acquired)
    else (k1, Occupied)
  }

  predicate QuitAccepted(k: Kernel, semId: int) {
    ValidIdx(k, semId - 1) && k.sems[semId - 1].count < k.sems[semId - 1].maxCount
  }

  /** A permit put back by `pid`, before the hand-off. */
  function Returned(k: Kernel, idx: nat, pid: int): Kernel
    requires idx < |k.sems|
  {
    var s := k.sems[idx];
    k.(sems := k.sems[idx := Refresh(s.(count := s.count + 1,
       occupiedPid := if IsBinary(s) && s.occupiedPid == pid then NO_PID else s.occupiedPid))])
  }

  function Quit(k: Kernel, pid: int, semId: int): Kernel {
    if !QuitAccepted(k, semId) then k else Handoff(Returned(k, semId - 1, pid), semId - 1)
  }

  // ----- recovery of a dead task's places and permits

  /** What the death of `pid` does to semaphore `idx` on which it had an uncollected grant. */
  function Ungranted(k: Kernel, idx: nat, pid: int): Kernel
    requires idx < |k.sems|
  {
    var s := k.sems[idx];
    k.(sems := k.sems[idx := Refresh(s.(count := if s.count < s.maxCount then s.count + 1 else s.count,
       occupiedPid := if s.occupiedPid == pid then NO_PID else s.occupiedPid))])
  }

  function ClearSlotAt(k: Kernel, pid: int, i: int): Kernel
    requires 0 <= i < |k.waiters|
  {
    var w := k.waiters[i];
    if w.semId == 0 || w.pid != pid then k else
    var k1 := DropSlot(k, i);
    if w.granted && ValidIdx(k1, w.semId - 1) then Handoff(Ungranted(k1, w.semId - 1, pid), w.semId - 1)
    else k1
  }

  lemma ClearSlotFrame(k: Kernel, pid: int, i: int)
    requires 0 <= i < |k.waiters|
    ensures |ClearSlotAt(k, pid, i).waiters| == |k.waiters|
    ensures |ClearSlotAt(k, pid, i).sems| == |k.sems|
    ensures |ClearSlotAt(k, pid, i).tasks| == |k.tasks|
  {
    var w := k.waiters[i];
    if w.granted && ValidIdx(k, w.semId - 1) {
      HandoffFrame(Ungranted(DropSlot(k, i), w.semId - 1, pid), w.semId - 1);
    }
  }

  function ClearSlotsFrom(k: Kernel, pid: int, i: nat): Kernel
    requires i <= |k.waiters|
    decreases |k.waiters| - i
  {
    if i == |k.waiters| then k else
    ClearSlotFrame(k, pid, i);
    ClearSlotsFrom(ClearSlotAt(k, pid, i), pid, i + 1)
  }

  predicate HeldBy(s: Sem, pid: int) {
    s.creator != NO_PID && IsBinary(s) && s.occupied && s.occupiedPid == pid
  }

  function ClearHeldAt(k: Kernel, pid: int, i: nat): Kernel
    requires i < |k.sems|
  {
    var s := k.sems[i];
    if !HeldBy(s, pid) then k
    else Handoff(k.(sems := k.sems[i := s.(count := s.maxCount, occupied := false, occupiedPid := NO_PID)]), i)
  }

  lemma ClearHeldFrame(k: Kernel, pid: int, i: nat)
    requires i < |k.sems|
    ensures |ClearHeldAt(k, pid, i).waiters| == |k.waiters|
    ensures |ClearHeldAt(k, pid, i).sems| == |k.sems|
    ensures |ClearHeldAt(k, pid, i).tasks| == |k.tasks|
  {
    var s := k.sems[i];
    if HeldBy(s, pid) {
      HandoffFrame(k.(sems := k.sems[i := s.(count := s.maxCount, occupied := false, occupiedPid := NO_PID)]), i);
    }
  }

  function ClearHeldFrom(k: Kernel, pid: int, i: nat): Kernel
    requires i <= |k.sems|
    decreases |k.sems| - i
  {
    if i == |k.sems| then k else
    ClearHeldFrame(k, pid, i);
    ClearHeldFrom(ClearHeldAt(k, pid, i), pid, i + 1)
  }

  lemma {:induction false} ClearSlotsFrame(k: Kernel, pid: int, i: nat)
    requires i <= |k.waiters|
    ensures |ClearSlotsFrom(k, pid, i).waiters| == |k.waiters|
    ensures |ClearSlotsFrom(k, pid, i).sems| == |k.sems|
    ensures |ClearSlotsFrom(k, pid, i).tasks| == |k.tasks|
    decreases |k.waiters| - i
  {
    if i < |k.waiters| {
      ClearSlotFrame(k, pid, i);
      ClearSlotsFrame(ClearSlotAt(k, pid, i), pid, i + 1);
    }
  }

  /** `semaphore_clear_occupied`. */
  function ClearOccupied(k: Kernel, pid: int): Kernel {
    ClearSlotsFrame(k, pid, 0);
    ClearHeldFrom(ClearSlotsFrom(k, pid, 0), pid, 0)
  }

  // ----- the table in place

  class SemTable {
    var sems: seq<Sem>
    var waiters: seq<Waiter>
    var waiterSeq: nat
    var arrivals: nat
    var tasks: seq<Task>

    ghost predicate Valid()
      reads this
    {
      waiterSeq == arrivals % SEQ_MODULUS
    }

    ghost function Value(): Kernel
      reads this
    {
      Kernel(sems, waiters, arrivals, tasks)
    }

    /** `semaphore_init`; the task table is already there. */
    constructor (tasks: seq<Task>)
      ensures Valid() && Shape(Value()) && Value().tasks == tasks && Value().arrivals == 0
      ensures forall i :: 0 <= i < |sems| ==> sems[i] == FREE_SEM
      ensures forall i :: 0 <= i < |waiters| ==>
          waiters[i].semId == 0 && waiters[i].pid == NO_PID && !waiters[i].granted
    {
      sems := seq(SEMAPHORE_MAX, _ => FREE_SEM);
      waiters := seq(SEM_WAITER_MAX, _ => Waiter(0, NO_PID, 0, false, 0));
      waiterSeq := 0;
      arrivals := 0;
      this.tasks := tasks;
    }

    method WaiterFind(semId: int, pid: int) returns (slot: int)
      ensures slot == Find(waiters, semId, pid)
    {
      var i := 0;
      while i < |waiters|
        invariant 0 <= i <= |waiters|
        invariant Find(waiters, semId, pid) == FindFrom(waiters, semId, pid, i)
      {
        if waiters[i].semId == semId && waiters[i].pid == pid {
          return i;
        }
        i := i + 1;
      }
      return -1;
    }

    method WaiterAdd(semId: int, pid: int) returns (slot: int)
      requires Valid()
      modifies this`waiters, this`waiterSeq, this`arrivals
      ensures Valid()
      ensures slot == FreeFrom(old(waiters), 0)
      ensures Value() == if slot < 0 then old(Value()) else AddAt(old(Value()), slot, semId, pid)
    {
      var i := 0;
      while i < |waiters|
        invariant 0 <= i <= |waiters|
        invariant waiters == old(waiters) && waiterSeq == old(waiterSeq) && arrivals == old(arrivals)
        invariant FreeFrom(waiters, 0) == FreeFrom(waiters, i)
      {
        if waiters[i].semId == 0 {
          waiters := waiters[i := Waiter(semId, pid, waiterSeq, false, arrivals)];
          waiterSeq := (waiterSeq + 1) % SEQ_MODULUS;
          arrivals := arrivals + 1;
          return i;
        }
        i := i + 1;
      }
      return -1;
    }

    method WaiterDel(slot: int, pid: int)
      modifies this`waiters
      ensures Value() == Del(old(Value()), slot, pid)
    {
      if slot < 0 || slot >= |waiters| {
        return;
      }
      if waiters[slot].semId == 0 || waiters[slot].pid != pid {
        return;
      }
      waiters := waiters[slot := waiters[slot].(semId := 0, pid := NO_PID, granted := false)];
    }

    method WaiterHead(idx: nat) returns (best: int)
      ensures best == Head(waiters, idx + 1)
    {
      best := -1;
      var bestSeq := 0;
      var i := 0;
      while i < |waiters|
        invariant 0 <= i <= |waiters| && -1 <= best < i
        invariant best >= 0 ==> Waits(waiters[best], idx + 1) && bestSeq == waiters[best].seqNo
        invariant Head(waiters, idx + 1) == HeadFrom(waiters, idx + 1, i, best)
      {
        if waiters[i].semId == idx + 1 && !waiters[i].granted && (best < 0 || waiters[i].seqNo < bestSeq) {
          best := i;
          bestSeq := waiters[i].seqNo;
        }
        i := i + 1;
      }
    }

    method Wake(pid: int, token: Token)
      modifies this`tasks
      ensures Value() == WakePid(old(Value()), pid, token)
    {
      if 0 <= pid < |tasks| && Alive(tasks[pid]) {
        tasks := tasks[pid := WakeBy(tasks[pid], token)];
      }
    }

    method HandOff(idx: nat)
      requires Valid() && idx < |sems|
      modifies this`sems, this`waiters, this`tasks
      ensures Valid() && Value() == Handoff(old(Value()), idx)
    {
      while sems[idx].count > 0
        invariant |sems| == old(|sems|)
        invariant Handoff(old(Value()), idx) == Handoff(Value(), idx)
        decreases WaitingSet(waiters, idx + 1)
      {
        var slot := WaiterHead(idx);
        if slot < 0 {
          return;
        }
        var pid := waiters[slot].pid;
        if !(0 <= pid < |tasks| && Alive(tasks[pid])) {
          DropShrinks(Value(), slot, idx + 1);
          WaiterDel(slot, pid);
          continue;
        }
        var s := sems[idx];
        sems := sems[idx := s.(count := s.count - 1)];
        waiters := waiters[slot := waiters[slot].(granted := true)];
        if s.maxCount == 1 {
          sems := sems[idx := sems[idx].(occupiedPid := pid)];
        }
        sems := sems[idx := sems[idx].(occupied := sems[idx].count <= 0)];
        Wake(pid, SemToken(idx));
        return;
      }
    }

    method Purge(idx: nat)
      requires Valid()
      modifies this`waiters, this`tasks
      ensures Valid() && Value() == PurgeFrom(old(Value()), idx, 0)
    {
      var i := 0;
      while i < |waiters|
        invariant 0 <= i <= |waiters|
        invariant PurgeFrom(old(Value()), idx, 0) == PurgeFrom(Value(), idx, i)
      {
        if waiters[i].semId == idx + 1 {
          var pid := waiters[i].pid;
          WaiterDel(i, pid);
          Wake(pid, SemToken(idx));
        }
        i := i + 1;
      }
    }

    method ResetSem(idx: nat)
      requires Valid() && idx < |sems|
      modifies this`sems, this`waiters, this`tasks
      ensures Valid() && Value() == Reset(old(Value()), idx)
    {
      Purge(idx);
      sems := sems[idx := FREE_SEM];
    }

    /** `semaphore_clear`: every semaphore the dead process created goes away. */
    method Clear(pid: int)
      requires Valid()
      modifies this`sems, this`waiters, this`tasks
      ensures Valid() && Value() == ClearFrom(old(Value()), pid, 0)
    {
      var i := 0;
      while i < |sems|
        invariant 0 <= i <= |sems| == old(|sems|)
        invariant Valid()
        invariant ClearFrom(old(Value()), pid, 0) == ClearFrom(Value(), pid, i)
      {
        if sems[i].creator == pid {
          PurgeFrame(Value(), i, 0);
          ResetSem(i);
        }
        i := i + 1;
      }
    }

    method AllocRaw(owner: int, count: int, maxCount: int) returns (semId: int)
      requires Valid()
      modifies this`sems
      ensures Valid() && Value() == Alloc(old(Value()), owner, count, maxCount)
      ensures semId == FreeSemFrom(old(sems), 0) + 1
    {
      var n := if count < 0 then 0 else count;
      var i := 0;
      while i < |sems|
        invariant 0 <= i <= |sems|
        invariant sems == old(sems)
        invariant FreeSemFrom(sems, 0) == FreeSemFrom(sems, i)
      {
        if sems[i].creator == NO_PID {
          sems := sems[i := Refresh(Sem(owner, NO_PID, false, n, maxCount))];
          return i + 1;
        }
        i := i + 1;
      }
      return 0;
    }

    method TakePermit(idx: nat, pid: int) returns (ok: bool)
      requires idx < |sems|
      modifies this`sems
      ensures Value() == TryAcquire(old(Value()), idx, pid)
      ensures ok == (old(sems[idx].count) > 0)
    {
      if sems[idx].count <= 0 {
        return false;
      }
      sems := sems[idx := sems[idx].(count := sems[idx].count - 1)];
      if sems[idx].maxCount == 1 {
        sems := sems[idx := sems[idx].(occupiedPid := pid)];
      }
      sems := sems[idx := Refresh(sems[idx])];
      return true;
    }

    /** Lines 364-401 of `semaphore_enter_raw`; a `Park` verdict leads to the park. */
    method Enter(pid: int, semId: int) returns (v: Verdict)
      requires Valid()
      modifies this`sems, this`waiters, this`waiterSeq, this`arrivals
      ensures Valid() && (Value(), v) == EnterLocked(old(Value()), pid, semId)
    {
      var idx := semId - 1;
      if !(0 <= idx < |sems|) || sems[idx].creator == NO_PID {
        return Error;
      }
      var slot := WaiterFind(semId, pid);
      if slot >= 0 && waiters[slot].granted {
        WaiterDel(slot, pid);
        return Acquired;
      }
      var ok := TakePermit(idx, pid);
      if ok {
        WaiterDel(slot, pid);
        return Acquired;
      }
      if slot < 0 {
        slot := WaiterAdd(semId, pid);
        if slot < 0 {
          return Occupied;
        }
      }
      return Park(slot);
    }

    method ServingRecheck(pid: int, semId: int, slot: int) returns (v: Verdict)
      requires Valid() && 0 <= slot < |waiters|
      modifies this`waiters
      ensures Valid() && (Value(), v) == EnterServing(old(Value()), pid, semId, slot)
    {
      var granted := waiters[slot].semId == semId && waiters[slot].pid == pid && waiters[slot].granted;
      WaiterDel(slot, pid);
      v := if granted then Acquired else Occupied;
    }

    method TryLock(pid: int, semId: int) returns (v: Verdict)
      requires Valid()
      modifies this`sems, this`waiters
      ensures Valid() && (Value(), v) == TryEnter(old(Value()), pid, semId)
    {
      var idx := semId - 1;
      if !(0 <= idx < |sems|) || sems[idx].creator == NO_PID {
        return Error;
      }
      var slot := WaiterFind(semId, pid);
      if slot >= 0 {
        var granted := waiters[slot].granted;
        WaiterDel(slot, pid);
        if granted {
          return Acquired;
        }
      }
      var ok := TakePermit(idx, pid);
      return if ok then Acquired else Occupied;
    }

    method Release(pid: int, semId: int) returns (ok: bool)
      requires Valid()
      modifies this`sems, this`waiters, this`tasks
      ensures Valid() && Value() == Quit(old(Value()), pid, semId)
      ensures ok == QuitAccepted(old(Value()), semId)
    {
      var idx := semId - 1;
      if !(0 <= idx < |sems|) || sems[idx].creator == NO_PID || sems[idx].count >= sems[idx].maxCount {
        return false;
      }
      sems := sems[idx := sems[idx].(count := sems[idx].count + 1)];
      if sems[idx].maxCount == 1 && sems[idx].occupiedPid == pid {
        sems := sems[idx := sems[idx].(occupiedPid := NO_PID)];
      }
      sems := sems[idx := Refresh(sems[idx])];
      assert Value() == Returned(old(Value()), idx, pid);
      HandOff(idx);
      return true;
    }

    /** The dead task's places in the queues. */
    method RecoverSlots(pid: int)
      requires Valid()
      modifies this`sems, this`waiters, this`tasks
      ensures Valid() && Value() == ClearSlotsFrom(old(Value()), pid, 0)
    {
      var i := 0;
      while i < |waiters|
        invariant 0 <= i <= |waiters| && |waiters| == old(|waiters|)
        invariant Valid()
        invariant ClearSlotsFrom(old(Value()), pid, 0) == ClearSlotsFrom(Value(), pid, i)
      {
        ghost var before := Value();
        ClearSlotFrame(before, pid, i);
        var w := waiters[i];
        if w.semId != 0 && w.pid == pid {
          WaiterDel(i, pid);
          var idx := w.semId - 1;
          if w.granted && 0 <= idx < |sems| && sems[idx].creator != NO_PID {
            var s := sems[idx];
            if s.count < s.maxCount {
              s := s.(count := s.count + 1);
            }
            if s.occupiedPid == pid {
              s := s.(occupiedPid := NO_PID);
            }
            sems := sems[idx := Refresh(s)];
            HandOff(idx);
          }
        }
        assert Value() == ClearSlotAt(before, pid, i);
        i := i + 1;
      }
    }

    /** The mutexes it held. */
    method RecoverHeld(pid: int)
      requires Valid()
      modifies this`sems, this`waiters, this`tasks
      ensures Valid() && Value() == ClearHeldFrom(old(Value()), pid, 0)
    {
      var i := 0;
      while i < |sems|
        invariant 0 <= i <= |sems| && |sems| == old(|sems|)
        invariant Valid()
        invariant ClearHeldFrom(old(Value()), pid, 0) == ClearHeldFrom(Value(), pid, i)
      {
        ghost var before := Value();
        ClearHeldFrame(before, pid, i);
        var s := sems[i];
        if s.creator != NO_PID && s.maxCount == 1 && s.occupied && s.occupiedPid == pid {
          sems := sems[i := s.(count := s.maxCount, occupied := false, occupiedPid := NO_PID)];
          HandOff(i);
        }
        assert Value() == ClearHeldAt(before, pid, i);
        i := i + 1;
      }
    }

    /** `semaphore_clear_occupied`. */
    method Recover(pid: int)
      requires Valid()
      modifies this`sems, this`waiters, this`tasks
      ensures Valid() && Value() == ClearOccupied(old(Value()), pid)
    {
      ClearSlotsFrame(Value(), pid, 0);
      RecoverSlots(pid);
      RecoverHeld(pid);
    }
  }
}
