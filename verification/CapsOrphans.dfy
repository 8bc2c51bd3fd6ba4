/** Threads whose fathers no longer lead to their own process: four runs, and what they do to the walk. */
module CapsOrphans {
  import opened Options
  import opened Caps
  import opened CapsWalk
  import opened CapsRuns
  import opened CapsHome

  function Of(uuid: nat, space: nat, main: bool, father: int, uid: int, cnode: Cnode): Task {
    Task(uuid, uuid, space, main, father, uid, [], cnode)
  }

  function Made(tasks: map<int, Task>, last: nat, born: map<nat, int>): World {
    World(tasks, [], last, born, {}, {})
  }

  lemma RunsStep(es: seq<Event>, k: nat)
    requires k < |es|
    ensures Runs(es[..k + 1]) == Next(Runs(es[..k]), es[k])
  {
    assert es[..k + 1][..k] == es[..k];
  }

  lemma SomeTask(w: World, pid: int)
    requires pid in w.tasks
    ensures |w.tasks| > 0
  {
  }

  // ----- a father that is gone

  /** A user process forks a thread, which forks a thread and exits; the second thread forks. */
  const ORPHAN_RUN: seq<Event> := [
    EBoot(1), EFork(1, 2, true), ESetuid(2, 1000), EFork(2, 3, false), EFork(3, 4, false), EExit(3), EFork(4, 5, true)]

  const INIT := Of(1, 1, true, -1, 0, ROOT_CNODE)
  const USER := Of(2, 2, true, 1, 1000, EmptyCnode())
  const FIRST := Of(3, 2, false, 2, 1000, EmptyCnode())
  const SECOND := Of(4, 2, false, 3, 1000, EmptyCnode())

  function Orphan(n: nat): World {
    if n == 0 then START
    else if n == 1 then Made(map[1 := INIT], 1, map[1 := 1])
    else if n == 2 then Made(map[1 := INIT, 2 := Of(2, 2, true, 1, 0, ROOT_CNODE)], 2, map[1 := 1, 2 := 2])
    else if n == 3 then Made(map[1 := INIT, 2 := USER], 2, map[1 := 1, 2 := 2])
    else if n == 4 then Made(map[1 := INIT, 2 := USER, 3 := FIRST], 3, map[1 := 1, 2 := 2, 3 := 3])
    else if n == 5 then
      Made(map[1 := INIT, 2 := USER, 3 := FIRST, 4 := SECOND], 4, map[1 := 1, 2 := 2, 3 := 3, 4 := 4])
    else if n == 6 then
      Made(map[1 := INIT, 2 := USER, 3 := Ended(FIRST), 4 := SECOND], 4, map[1 := 1, 2 := 2, 3 := 3, 4 := 4])
    else
      Made(map[1 := INIT, 2 := USER, 3 := Ended(FIRST), 4 := SECOND, 5 := Of(5, 5, true, 4, 1000, ROOT_CNODE)], 5,
           map[1 := 1, 2 := 2, 3 := 3, 4 := 4, 5 := 5])
  }

  lemma Orphan1()
    ensures Next(Orphan(0), EBoot(1)) == Orphan(1)
  {
  }

  lemma Orphan2()
    ensures Next(Orphan(1), EFork(1, 2, true)) == Orphan(2)
  {
  }

  lemma Orphan3()
    ensures Next(Orphan(2), ESetuid(2, 1000)) == Orphan(3)
  {
    RootCnode();
    assert HasRoot(ROOT_CNODE);
  }

  lemma Orphan4()
    ensures Next(Orphan(3), EFork(2, 3, false)) == Orphan(4)
  {
  }

  lemma Orphan5()
    ensures Next(Orphan(4), EFork(3, 4, false)) == Orphan(5)
  {
    SomeTask(Orphan(4), 3);
    assert Owner(Orphan(4), 3) == Found(2);
  }

  lemma Orphan6()
    ensures Next(Orphan(5), EExit(3)) == Orphan(6)
  {
  }

  lemma Orphan7()
    ensures Next(Orphan(6), EFork(4, 5, true)) == Orphan(7)
  {
    SomeTask(Orphan(6), 4);
    assert Owner(Orphan(6), 4) == Nobody;
  }

  lemma OrphanStep(n: nat)
    requires n < |ORPHAN_RUN|
    ensures Next(Orphan(n), ORPHAN_RUN[n]) == Orphan(n + 1)
  {
    hide Next, Orphan;
    Orphan1();
    Orphan2();
    Orphan3();
    Orphan4();
    Orphan5();
    Orphan6();
    Orphan7();
  }

  lemma {:induction false} OrphanRun(n: nat)
    requires n <= |ORPHAN_RUN|
    ensures Runs(ORPHAN_RUN[..n]) == Orphan(n)
  {
    if n > 0 {
      OrphanRun(n - 1);
      OrphanStep(n - 1);
      RunsStep(ORPHAN_RUN, n - 1);
    } else {
      assert ORPHAN_RUN[..0] == [];
    }
  }

  /** Thread 4 runs in process 2, which holds no cap; no walk finds that process, and the thread's child
      holds root. */
  lemma OrphanForksRoot()
    ensures var w := Runs(ORPHAN_RUN[..6]);
            IsHome(w, 4, 2) && (forall i :: !Holds(w, 2, i)) && Owner(w, 4).Nobody? && !LeadsHome(w, 4)
    ensures Rooted(Runs(ORPHAN_RUN), 5)
  {
    OrphanRun(6);
    OrphanRun(7);
    assert ORPHAN_RUN[..7] == ORPHAN_RUN;
    RootCnode();
    SomeTask(Orphan(6), 4);
    LeadsHomeExactly(Orphan(6), 4);
    hide Runs;
  }

  // ----- a father's pid given to another

  /** As before, but the exited thread is buried and init forks a process with its pid. */
  const REUSE_RUN: seq<Event> := [
    EBoot(1), EFork(1, 2, true), ESetuid(2, 1000), EFork(2, 3, false), EFork(3, 4, false), EExit(3),
    EBury(3), EFork(1, 3, true), EFork(4, 5, true)]

  const OTHER := Of(5, 5, true, 1, 0, ROOT_CNODE)

  function Reuse(n: nat): World {
    if n <= 6 then Orphan(n)
    else if n == 7 then Made(map[1 := INIT, 2 := USER, 4 := SECOND], 4, map[1 := 1, 2 := 2, 3 := 3, 4 := 4])
    else if n == 8 then
      Made(map[1 := INIT, 2 := USER, 4 := SECOND, 3 := OTHER], 5, map[1 := 1, 2 := 2, 3 := 3, 4 := 4, 5 := 3])
    else
      Made(map[1 := INIT, 2 := USER, 4 := SECOND, 3 := OTHER, 5 := Of(6, 6, true, 4, 1000, ROOT_CNODE)], 6,
           map[1 := 1, 2 := 2, 3 := 3, 4 := 4, 5 := 3, 6 := 5])
  }

  lemma Reuse7()
    ensures Next(Reuse(6), EBury(3)) == Reuse(7)
  {
  }

  lemma Reuse8()
    ensures Next(Reuse(7), EFork(1, 3, true)) == Reuse(8)
  {
  }

  lemma Reuse9()
    ensures Next(Reuse(8), EFork(4, 5, true)) == Reuse(9)
  {
    SomeTask(Reuse(8), 4);
    assert Owner(Reuse(8), 4) == Found(3);
  }

  lemma ReuseStep(n: nat)
    requires n < |REUSE_RUN|
    ensures Next(Reuse(n), REUSE_RUN[n]) == Reuse(n + 1)
  {
    hide Next, Orphan;
    if n < 6 {
      OrphanStep(n);
    }
    Reuse7();
    Reuse8();
    Reuse9();
  }

  lemma {:induction false} ReuseRun(n: nat)
    requires n <= |REUSE_RUN|
    ensures Runs(REUSE_RUN[..n]) == Reuse(n)
  {
    if n > 0 {
      ReuseRun(n - 1);
      ReuseStep(n - 1);
      RunsStep(REUSE_RUN, n - 1);
    } else {
      assert REUSE_RUN[..0] == [];
    }
  }

  /** Thread 4 still runs in process 2, which holds no cap, but the walk returns process 3: its calls are
      authorized, it mints, and its child holds root. */
  lemma ReuseActsForAnother()
    ensures var w := Runs(REUSE_RUN[..8]);
            && IsHome(w, 4, 2) && (forall i :: !Holds(w, 2, i)) && OwnerOf(w, 4) == Some(3) && !LeadsHome(w, 4)
            && Authorized(w, 4) && Mint(w, 4, Irq, {CanRead}, 0, 0) != w
    ensures Rooted(Runs(REUSE_RUN), 5)
  {
    ReuseRun(8);
    ReuseRun(9);
    assert REUSE_RUN[..9] == REUSE_RUN;
    hide Runs;
    RootCnode();
    ReuseCalls();
  }

  lemma ReuseCalls()
    ensures var w := Reuse(8);
            && IsHome(w, 4, 2) && (forall i :: !Holds(w, 2, i)) && OwnerOf(w, 4) == Some(3) && !LeadsHome(w, 4)
            && Authorized(w, 4) && Mint(w, 4, Irq, {CanRead}, 0, 0) != w
  {
    RootCnode();
    var w := Reuse(8);
    SomeTask(w, 4);
    assert Owner(w, 4) == Found(3);
    LeadsHomeExactly(w, 4);
    assert HasRoot(w.tasks[3].cnode);
    hide Walk, Insert;
    assert Cap(Irq, {CanRead}, IrqLine(0)) in Mint(w, 4, Irq, {CanRead}, 0, 0).minted;
  }

  // ----- a father given up

  /** A thread of a user process detaches; init is pid 0. */
  const DETACH_RUN: seq<Event> := [
    EBoot(0), EFork(0, 2, true), ESetuid(2, 1000), EFork(2, 3, false), EDetach(3), EFork(3, 4, true)]

  function Detached(n: nat): World {
    var first := Of(3, 2, false, 2, 1000, EmptyCnode());
    var user := Of(2, 2, true, 0, 1000, EmptyCnode());
    if n == 0 then START
    else if n == 1 then Made(map[0 := INIT], 1, map[1 := 0])
    else if n == 2 then Made(map[0 := INIT, 2 := Of(2, 2, true, 0, 0, ROOT_CNODE)], 2, map[1 := 0, 2 := 2])
    else if n == 3 then Made(map[0 := INIT, 2 := user], 2, map[1 := 0, 2 := 2])
    else if n == 4 then Made(map[0 := INIT, 2 := user, 3 := first], 3, map[1 := 0, 2 := 2, 3 := 3])
    else if n == 5 then Made(map[0 := INIT, 2 := user, 3 := first.(father := 0)], 3, map[1 := 0, 2 := 2, 3 := 3])
    else
      Made(map[0 := INIT, 2 := user, 3 := first.(father := 0), 4 := Of(4, 4, true, 3, 1000, ROOT_CNODE)], 4,
           map[1 := 0, 2 := 2, 3 := 3, 4 := 4])
  }

  lemma Detached1()
    ensures Next(Detached(0), EBoot(0)) == Detached(1)
  {
  }

  lemma Detached2()
    ensures Next(Detached(1), EFork(0, 2, true)) == Detached(2)
  {
  }

  lemma Detached3()
    ensures Next(Detached(2), ESetuid(2, 1000)) == Detached(3)
  {
    RootCnode();
    assert HasRoot(ROOT_CNODE);
  }

  lemma Detached4()
    ensures Next(Detached(3), EFork(2, 3, false)) == Detached(4)
  {
  }

  lemma Detached5()
    ensures Next(Detached(4), EDetach(3)) == Detached(5)
  {
  }

  lemma Detached6()
    ensures Next(Detached(5), EFork(3, 4, true)) == Detached(6)
  {
    SomeTask(Detached(5), 3);
    assert Owner(Detached(5), 3) == Found(0);
  }

  lemma DetachedStep(n: nat)
    requires n < |DETACH_RUN|
    ensures Next(Detached(n), DETACH_RUN[n]) == Detached(n + 1)
  {
    hide Next, Detached;
    Detached1();
    Detached2();
    Detached3();
    Detached4();
    Detached5();
    Detached6();
  }

  lemma {:induction false} DetachedRun(n: nat)
    requires n <= |DETACH_RUN|
    ensures Runs(DETACH_RUN[..n]) == Detached(n)
  {
    if n > 0 {
      DetachedRun(n - 1);
      DetachedStep(n - 1);
      RunsStep(DETACH_RUN, n - 1);
    } else {
      assert DETACH_RUN[..0] == [];
    }
  }

  /** Thread 3 runs in process 2, which holds no cap, but the walk returns init, and its child holds root. */
  lemma DetachActsForInit()
    ensures var w := Runs(DETACH_RUN[..5]);
            && IsHome(w, 3, 2) && (forall i :: !Holds(w, 2, i)) && OwnerOf(w, 3) == Some(0) && !LeadsHome(w, 3)
            && Authorized(w, 3)
    ensures Rooted(Runs(DETACH_RUN), 4)
  {
    DetachedRun(5);
    DetachedRun(6);
    assert DETACH_RUN[..6] == DETACH_RUN;
    RootCnode();
    var w := Detached(5);
    SomeTask(w, 3);
    assert Owner(w, 3) == Found(0);
    LeadsHomeExactly(w, 3);
    assert HasRoot(w.tasks[0].cnode);
    hide Runs;
  }

  // ----- a walk without end

  /** The first thread's pid is given to a thread the second one forks. */
  const LOOP_RUN: seq<Event> := [
    EBoot(1), EFork(1, 2, false), EFork(2, 3, false), EExit(2), EBury(2), EFork(3, 2, false)]

  function Loop(n: nat): World {
    var one := Of(2, 1, false, 1, 0, ROOT_CNODE);
    var two := Of(3, 1, false, 2, 0, ROOT_CNODE);
    if n == 0 then START
    else if n == 1 then Made(map[1 := INIT], 1, map[1 := 1])
    else if n == 2 then Made(map[1 := INIT, 2 := one], 2, map[1 := 1, 2 := 2])
    else if n == 3 then Made(map[1 := INIT, 2 := one, 3 := two], 3, map[1 := 1, 2 := 2, 3 := 3])
    else if n == 4 then Made(map[1 := INIT, 2 := Ended(one), 3 := two], 3, map[1 := 1, 2 := 2, 3 := 3])
    else if n == 5 then Made(map[1 := INIT, 3 := two], 3, map[1 := 1, 2 := 2, 3 := 3])
    else
      Made(map[1 := INIT, 3 := two, 2 := Of(4, 1, false, 3, 0, ROOT_CNODE)], 4, map[1 := 1, 2 := 2, 3 := 3, 4 := 2])
  }

  lemma Loop1()
    ensures Next(Loop(0), EBoot(1)) == Loop(1)
  {
  }

  lemma Loop2()
    ensures Next(Loop(1), EFork(1, 2, false)) == Loop(2)
  {
  }

  lemma Loop3()
    ensures Next(Loop(2), EFork(2, 3, false)) == Loop(3)
  {
    SomeTask(Loop(2), 2);
    assert Owner(Loop(2), 2) == Found(1);
  }

  lemma Loop4()
    ensures Next(Loop(3), EExit(2)) == Loop(4)
  {
  }

  lemma Loop5()
    ensures Next(Loop(4), EBury(2)) == Loop(5)
  {
  }

  lemma Loop6()
    ensures Next(Loop(5), EFork(3, 2, false)) == Loop(6)
  {
    SomeTask(Loop(5), 3);
    assert Owner(Loop(5), 3) == Nobody;
  }

  lemma LoopStep(n: nat)
    requires n < |LOOP_RUN|
    ensures Next(Loop(n), LOOP_RUN[n]) == Loop(n + 1)
  {
    hide Next, Loop;
    Loop1();
    Loop2();
    Loop3();
    Loop4();
    Loop5();
    Loop6();
  }

  lemma {:induction false} LoopRun(n: nat)
    requires n <= |LOOP_RUN|
    ensures Runs(LOOP_RUN[..n]) == Loop(n)
  {
    if n > 0 {
      LoopRun(n - 1);
      LoopStep(n - 1);
      RunsStep(LOOP_RUN, n - 1);
    } else {
      assert LOOP_RUN[..0] == [];
    }
  }

  lemma {:induction false} EachOther(w: World, a: int, b: int, n: nat)
    requires Thread(w, a) && Thread(w, b) && w.tasks[a].father == b && w.tasks[b].father == a
    ensures Walk(w, a, n).Endless?
    decreases n
  {
    if n > 0 {
      EachOther(w, b, a, n - 1);
    }
  }

  /** Two threads end up each other's fathers: from either the walk never reaches a process. */
  lemma WalkNeedNotEnd(n: nat)
    ensures Walk(Runs(LOOP_RUN), 2, n).Endless? && Walk(Runs(LOOP_RUN), 3, n).Endless?
  {
    LoopRun(6);
    assert LOOP_RUN[..6] == LOOP_RUN;
    EachOther(Loop(6), 2, 3, n);
    EachOther(Loop(6), 3, 2, n);
  }
}
