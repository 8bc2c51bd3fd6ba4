/** Two runs from boot: one in which a wrapped counter lets a newcomer pass, and one in which the death of
    a grantee meets a full pool. Both count to the limits of their 32-bit fields. */
module SemaphoreScenes {
  import WakeLatch
  import opened Semaphore
  import opened SemaphoreInvariant
  import opened SemaphoreHandoff
  import opened SemaphoreRuns

  const ON_CPU := WakeLatch.Task(
    WakeLatch.Running, WakeLatch.GENERIC, WakeLatch.GENERIC, false, 0, WakeLatch.Ready, WakeLatch.Ready)

  const FREE_WAITER := Waiter(0, NO_PID, 0, false, 0)

  /** Three running tasks, an empty table, no arrival yet. */
  const BOOT: World := World(
    Kernel(seq(SEMAPHORE_MAX, i => FREE_SEM), seq(SEM_WAITER_MAX, i => FREE_WAITER), 0, [ON_CPU, ON_CPU, ON_CPU]),
    [Idle, Idle, Idle],
    [false, false, false],
    seq(SEMAPHORE_MAX, i => multiset{}),
    seq(SEMAPHORE_MAX, i => 0))

  lemma BootInitial()
    ensures Initial(BOOT)
  {
  }

  function Counting(n: int): Sem {
    Sem(9, NO_PID, n <= 0, n, SEMAPHORE_COUNT_MAX)
  }

  /** A counting semaphore without permits and without waiters, after `n` arrivals. */
  predicate Quiet(w: World, n: nat) {
    && Shaped(w) && w.k.tasks == [ON_CPU, ON_CPU, ON_CPU] && w.pc == [Idle, Idle, Idle]
        && w.dying == [false, false, false]
    && w.k.sems[0] == Counting(0) && w.k.arrivals == n
    && forall i :: 0 <= i < |w.k.waiters| ==> w.k.waiters[i].semId == 0
  }

  lemma CreateQuiet()
    ensures Enabled(BOOT, Create(9, 0, false)) && Quiet(Next(BOOT, Create(9, 0, false)), 0)
  {
    assert FreeSemFrom(BOOT.k.sems, 0) == 0;
  }

  /** Task `pid` joins the empty queue at slot 0. */
  lemma FirstEnters(w: World, n: nat, pid: int)
    requires Quiet(w, n) && 0 <= pid < 3
    ensures Enabled(w, Enter(pid, 1, 0))
    ensures Next(w, Enter(pid, 1, 0)) == w.(k := AddAt(w.k, 0, 1, pid), pc := w.pc[pid := Window(1, 0, false, 0)])
  {
    assert Find(w.k.waiters, 1, pid) == -1;
    assert FreeFrom(w.k.waiters, 0) == 0;
  }

  // ----- many arrivals

  const VISIT: seq<Step> := [Enter(0, 1, 0), ServingRecheck(0)]

  lemma VisitQuiet(w: World, n: nat)
    requires Quiet(w, n)
    ensures CanRun(w, VISIT) && Quiet(After(w, VISIT), n + 1)
  {
    FirstEnters(w, n, 0);
    var a := Next(w, Enter(0, 1, 0));
    assert Enabled(a, ServingRecheck(0));
    var b := Next(a, ServingRecheck(0));
    assert a.k.waiters[0] == Waiter(1, 0, n % SEQ_MODULUS, false, n);
    assert b.k == Del(a.k, 0, 0) && b.pc == [Idle, Idle, Idle];
    assert Quiet(b, n + 1);
    hide Quiet, Enabled, Next;
    RunOne(w, Enter(0, 1, 0));
    RunOne(a, ServingRecheck(0));
    RunConcat(w, [Enter(0, 1, 0)], [ServingRecheck(0)]);
    assert VISIT == [Enter(0, 1, 0)] + [ServingRecheck(0)];
  }

  function Visits(n: nat): seq<Step> {
    if n == 0 then [] else Visits(n - 1) + VISIT
  }

  lemma {:induction false} VisitsQuiet(w: World, m: nat, n: nat)
    requires Quiet(w, m)
    ensures CanRun(w, Visits(n)) && Quiet(After(w, Visits(n)), m + n)
  {
    hide Quiet;
    if n > 0 {
      VisitsQuiet(w, m, n - 1);
      VisitQuiet(After(w, Visits(n - 1)), m + n - 1);
      RunConcat(w, Visits(n - 1), VISIT);
    }
  }

  // ----- a newcomer passes

  lemma NewcomerPasses(w: World)
    requires Quiet(w, 0xffff_ffff)
    ensures CanRun(w, [Enter(0, 1, 0), Enter(1, 1, 0)])
    ensures var v := After(w, [Enter(0, 1, 0), Enter(1, 1, 0)]);
            Straddles(v.k) && v.k.sems[0] == Counting(0)
  {
    FirstEnters(w, 0xffff_ffff, 0);
    var a := Next(w, Enter(0, 1, 0));
    assert a.k.waiters[0].semId == 1 && a.k.waiters[1].semId == 0;
    assert Find(a.k.waiters, 1, 1) == -1;
    assert FreeFrom(a.k.waiters, 0) == FreeFrom(a.k.waiters, 1) == 1;
    assert Enabled(a, Enter(1, 1, 0));
    var b := Next(a, Enter(1, 1, 0));
    assert b.k == AddAt(a.k, 1, 1, 1);
    hide Quiet, Enabled, Next;
    RunOne(w, Enter(0, 1, 0));
    RunOne(a, Enter(1, 1, 0));
    RunConcat(w, [Enter(0, 1, 0)], [Enter(1, 1, 0)]);
    assert [Enter(0, 1, 0), Enter(1, 1, 0)] == [Enter(0, 1, 0)] + [Enter(1, 1, 0)];
  }

  /** Task 0 queues as arrival 2^32 - 1 and task 1 after it; the release by task 2 serves task 1. */
  lemma WrapOvertakes() returns (es: seq<Step>)
    ensures Initial(BOOT) && CanRun(BOOT, es)
    ensures var k := After(BOOT, es).k;
            && |k.waiters| > 1 && Contends(k, 0, 0) && Contends(k, 0, 1) && QuitAccepted(k, 1)
            && k.waiters[0].arrival < k.waiters[1].arrival
            && |Quit(k, 2, 1).waiters| == |k.waiters| && Quit(k, 2, 1).waiters[1].granted
                && !Quit(k, 2, 1).waiters[0].granted
  {
    BootInitial();
    CreateQuiet();
    RunOne(BOOT, Create(9, 0, false));
    var w1 := Next(BOOT, Create(9, 0, false));
    VisitsQuiet(w1, 0, 0xffff_ffff);
    var w2 := After(w1, Visits(0xffff_ffff));
    NewcomerPasses(w2);
    var both := [Enter(0, 1, 0), Enter(1, 1, 0)];
    RunConcat(BOOT, [Create(9, 0, false)], Visits(0xffff_ffff));
    RunConcat(BOOT, [Create(9, 0, false)] + Visits(0xffff_ffff), both);
    es := [Create(9, 0, false)] + Visits(0xffff_ffff) + both;
    YoungServed(After(w2, both).k);
  }

  /** Tasks 0 and 1 are queued, on either side of the wrap. */
  predicate Straddles(k: Kernel) {
    && Shape(k) && k.tasks == [ON_CPU, ON_CPU, ON_CPU]
    && k.waiters[0] == Waiter(1, 0, 0xffff_ffff, false, 0xffff_ffff)
    && k.waiters[1] == Waiter(1, 1, 0, false, 0x1_0000_0000)
    && forall i :: 2 <= i < |k.waiters| ==> k.waiters[i].semId == 0
  }

  lemma YoungServed(k: Kernel)
    requires Straddles(k) && k.sems[0] == Counting(0)
    ensures Contends(k, 0, 0) && Contends(k, 0, 1) && QuitAccepted(k, 1)
    ensures |Quit(k, 2, 1).waiters| == |k.waiters|
    ensures Quit(k, 2, 1).waiters[1].granted && !Quit(k, 2, 1).waiters[0].granted
  {
    var k1 := Returned(k, 0, 2);
    assert Straddles(k1) && k1.sems[0].count > 0 && Quit(k, 2, 1) == Handoff(k1, 0);
    HandoffServesOldest(k1, 0, 1);
    hide Handoff;
    var g :| 0 <= g < |k1.waiters| && ServedAt(k1, Handoff(k1, 0), 0, g);
    assert Waits(k1.waiters[g], 1) && k1.waiters[g].seqNo <= k1.waiters[1].seqNo;
    assert g == 1;
    assert SlotFate(k1, Handoff(k1, 0), 0, 1, 0);
  }

  // ----- a full pool

  /** Task 0 has a grant it has not collected, and `n` permits lie in the pool. */
  predicate Filled(w: World, n: nat) {
    && Shaped(w) && |w.k.tasks| == 3 && w.k.tasks[1] == ON_CPU && WakeLatch.Alive(w.k.tasks[0])
    && w.pc[1] == Idle && w.k.sems[0] == Counting(n)
    && w.k.waiters[0] == Waiter(1, 0, 0, true, 0)
    && forall i :: 1 <= i < |w.k.waiters| ==> w.k.waiters[i].semId == 0
  }

  const POST: Step := Release(1, 1)

  lemma GrantFills(w: World)
    requires Quiet(w, 0)
    ensures CanRun(w, [Enter(0, 1, 0), POST]) && Filled(After(w, [Enter(0, 1, 0), POST]), 0)
  {
    FirstEnters(w, 0, 0);
    var a := Next(w, Enter(0, 1, 0));
    assert a.k.waiters[0] == Waiter(1, 0, 0, false, 0);
    assert Enabled(a, POST);
    var k1 := Returned(a.k, 0, 1);
    assert Head(k1.waiters, 1) == 0 by {
      assert Waits(k1.waiters[0], 1) && forall i :: 1 <= i < |k1.waiters| ==> !Waits(k1.waiters[i], 1);
    }
    assert Handoff(k1, 0) == Grant(k1, 0, 0);
    var b := Next(a, POST);
    assert b.k == Grant(k1, 0, 0) && b.pc == a.pc;
    hide Handoff, Head, Find, FreeFrom;
    assert Filled(b, 0);
    hide Quiet, Enabled, Next, Filled;
    RunOne(w, Enter(0, 1, 0));
    RunOne(a, POST);
    RunConcat(w, [Enter(0, 1, 0)], [POST]);
    assert [Enter(0, 1, 0), POST] == [Enter(0, 1, 0)] + [POST];
  }

  lemma PostFills(w: World, n: nat)
    requires Filled(w, n) && n < SEMAPHORE_COUNT_MAX
    ensures CanRun(w, [POST]) && Filled(After(w, [POST]), n + 1)
  {
    assert Enabled(w, POST);
    var k1 := Returned(w.k, 0, 1);
    assert Head(k1.waiters, 1) == -1;
    assert Handoff(k1, 0) == k1;
    var b := Next(w, POST);
    assert b.k == k1 && b.pc == w.pc;
    assert Filled(b, n + 1);
    hide Filled, Enabled, Next;
    RunOne(w, POST);
  }

  function Posts(n: nat): seq<Step> {
    if n == 0 then [] else Posts(n - 1) + [POST]
  }

  lemma {:induction false} PostsFill(w: World, n: nat)
    requires Filled(w, 0) && n <= SEMAPHORE_COUNT_MAX
    ensures CanRun(w, Posts(n)) && Filled(After(w, Posts(n)), n)
  {
    hide Filled;
    if n > 0 {
      PostsFill(w, n - 1);
      PostFills(After(w, Posts(n - 1)), n - 1);
      RunConcat(w, Posts(n - 1), [POST]);
    }
  }

  lemma KillFull(w: World)
    requires Filled(w, SEMAPHORE_COUNT_MAX)
    ensures CanRun(w, [Kill(0)])
    ensures var v := After(w, [Kill(0)]);
            && Shaped(v) && v.k.sems[0] == Counting(SEMAPHORE_COUNT_MAX) && v.k.waiters[0] == Waiter(1, 0, 0, true, 0)
            && Enabled(v, Recover(0))
  {
    RunOne(w, Kill(0));
  }

  /** The pool is filled to its ceiling before a granted task that never collected dies: taking its
      slot back loses a permit. */
  lemma FullPoolLoses() returns (es: seq<Step>)
    ensures Initial(BOOT) && CanRun(BOOT, es) && Enabled(After(BOOT, es), Recover(0))
    ensures var w := After(BOOT, es); var v := ClearSlotW(w, 0, 0);
            && Shaped(v) && w.k.waiters[0].granted && w.k.sems[0].count == w.k.sems[0].maxCount
            && Permits(v, 0) == Permits(w, 0) - 1
  {
    BootInitial();
    InitialInv(BOOT);
    CreateQuiet();
    RunOne(BOOT, Create(9, 0, false));
    var a := [Create(9, 0, false)];
    var b := [Enter(0, 1, 0), POST];
    GrantFills(After(BOOT, a));
    RunConcat(BOOT, a, b);
    PostsFill(After(BOOT, a + b), SEMAPHORE_COUNT_MAX);
    RunConcat(BOOT, a + b, Posts(SEMAPHORE_COUNT_MAX));
    var c := a + b + Posts(SEMAPHORE_COUNT_MAX);
    KillFull(After(BOOT, c));
    RunConcat(BOOT, c, [Kill(0)]);
    es := c + [Kill(0)];
    RunsKeepInv(BOOT, es);
    hide Inv, CanRun, After;
    RecoveryLosesExactly(After(BOOT, es), 0, 0, 0);
  }
}
