/** Two runs of the shared-memory calls: a size that wraps, and a segment hidden by an empty one. */
module ShmScenes {
  import opened Options
  import P = ShmPool
  import opened ShmSegments
  import opened ShmInvariant
  import opened ShmRuns

  // ----- a size that wraps

  const SLAB := Config(16, 24, 100, 200, 300)

  function Ask(size: Size): Event {
    ECreate(0, size, true, 1, true, true)
  }

  function Held(id: nat, addr: nat, pages: nat, phy: nat): Seg {
    Seg(id, 0, addr, pages, true, 0, true, phy, 1)
  }

  function World(pool: seq<P.Entry>, segs: seq<Seg>, tail: nat, lastId: nat): Shm {
    Shm(pool, segs, tail, 200, lastId, map[])
  }

  /** The states of the run below, one after the other. */
  function Stage(n: nat): Shm {
    if n == 0 then World([P.Entry(16, 8, false)], [], 100, 0)
    else if n == 1 then World([P.Entry(16, 2, true), P.Entry(18, 6, false)], [Held(1, 100, 2, 16)], 102, 1)
    else if n == 2 then
      World([P.Entry(16, 2, true), P.Entry(18, 2, true), P.Entry(20, 4, false)],
            [Held(1, 100, 2, 16), Held(2, 102, 2, 18)], 104, 2)
    else if n == 3 then
      World([P.Entry(16, 2, false), P.Entry(18, 2, true), P.Entry(20, 4, false)],
            [Held(1, 100, 2, 16).(used := false), Held(2, 102, 2, 18)], 104, 2)
    else if n == 4 then
      World([P.Entry(0, 2, false), P.Entry(16, 8, false), P.Entry(0, 4, false)],
            [Seg(1, 0, 100, 4, false, 0, true, 16, 1)], 104, 2)
    else if n == 5 then
      World([P.Entry(16, 8, false), P.Entry(16, 0, true), P.Entry(0, 4, false)],
            [Held(3, 100, 0, 16), Seg(0, 0, 100, 4, false, 0, true, 0, -1)], 104, 3)
    else if n == 6 then
      World([P.Entry(16, 4, true), P.Entry(16, 0, true), P.Entry(20, 4, false)],
            [Held(3, 100, 0, 16), Held(4, 100, 4, 16)], 104, 4)
    else if n == 7 then
      World([P.Entry(16, 8, false), P.Entry(16, 0, true), P.Entry(0, 4, false)],
            [Held(3, 100, 0, 16).(used := false), Held(4, 100, 4, 16)], 104, 4)
    else 
      World([P.Entry(16, 3, true), P.Entry(16, 0, true), P.Entry(19, 5, false)],
            [Held(3, 100, 0, 16).(used := false), Held(4, 100, 4, 16), Held(5, 104, 3, 16)], 107, 5)
  }

  const WRAPPING: seq<Event> :=
    [Ask(8192), Ask(8192), ERemove(1), ERemove(2), Ask(0xffff_ffe1), Ask(16384),
     ERemove(3), Ask(12288)]

  lemma Stage1()
    ensures Next(SLAB, Stage(0), Ask(8192)) == Stage(1)
  {
  }

  lemma Stage2()
    ensures Next(SLAB, Stage(1), Ask(8192)) == Stage(2)
  {
  }

  lemma Stage3()
    ensures Next(SLAB, Stage(2), ERemove(1)) == Stage(3)
  {
    var p := Stage(2).pool;
    var q := [P.Entry(16, 2, false), P.Entry(18, 2, true), P.Entry(20, 4, false)];
    assert P.UsedAt(p, 16, 0) == 0 && p[0 := p[0].(used := false)] == q;
    assert P.MergeUpTo(q, 0, 0) == q;
    assert P.MergeUpTo(q, 0, 1) == q;
    assert P.MergeUpTo(q, 0, 2) == q;
    assert P.MergeUpTo(q, 0, 3) == q;
    assert ById(Stage(2).segs, 1, 0) == 0;
  }

  lemma Stage4()
    ensures Next(SLAB, Stage(3), ERemove(2)) == Stage(4)
  {
    var p := Stage(3).pool;
    var q := [P.Entry(16, 2, false), P.Entry(18, 2, false), P.Entry(20, 4, false)];
    assert P.UsedAt(p, 18, 0) == 1 && p[1 := p[1].(used := false)] == q;
    assert P.MergeUpTo(q, 1, 0) == q;
    assert P.MergeUpTo(q, 1, 1) == [P.Entry(0, 2, false), P.Entry(16, 4, false), P.Entry(20, 4, false)];
    assert P.MergeUpTo(q, 1, 2) == [P.Entry(0, 2, false), P.Entry(16, 4, false), P.Entry(20, 4, false)];
    assert P.MergeUpTo(q, 1, 3) == Stage(4).pool;
    assert ById(Stage(3).segs, 2, 0) == 1;
  }

  lemma Stage5Run()
    ensures P.Alloc(Stage(4).pool, 0) == (Stage(5).pool, 16)
  {
    var p := Stage(4).pool;
    assert P.Best(p, 0, 1) == -1 && P.Best(p, 0, 2) == 1 && P.Best(p, 0, 3) == 1;
    assert P.EmptySlot(p, 0) == 0;
    assert P.Put(p, 0, P.Entry(16, 8, false))[1 := P.Entry(16, 0, true)] == Stage(5).pool;
  }

  lemma Stage5()
    ensures Next(SLAB, Stage(4), Ask(0xffff_ffe1)) == Stage(5)
  {
    Stage5Run();
    hide P.Alloc;
  }

  lemma Stage6Run()
    ensures P.Alloc(Stage(5).pool, 4) == (Stage(6).pool, 16)
  {
    var p := Stage(5).pool;
    assert P.Best(p, 4, 1) == 0 && P.Best(p, 4, 2) == 0 && P.Best(p, 4, 3) == 0;
    assert P.EmptySlot(p, 2) == 2 && P.EmptySlot(p, 1) == 2 && P.EmptySlot(p, 0) == 2;
    assert P.Put(p, 2, P.Entry(20, 4, false))[0 := P.Entry(16, 4, true)] == Stage(6).pool;
  }

  lemma Stage6()
    ensures Next(SLAB, Stage(5), Ask(16384)) == Stage(6)
  {
    Stage6Run();
    hide P.Alloc;
  }

  lemma Stage7()
    ensures Next(SLAB, Stage(6), ERemove(3)) == Stage(7)
  {
    var p := Stage(6).pool;
    var q := [P.Entry(16, 4, false), P.Entry(16, 0, true), P.Entry(20, 4, false)];
    assert P.UsedAt(p, 16, 0) == 0 && p[0 := p[0].(used := false)] == q;
    assert P.MergeUpTo(q, 0, 0) == q;
    assert P.MergeUpTo(q, 0, 1) == q;
    assert P.MergeUpTo(q, 0, 2) == q;
    assert P.MergeUpTo(q, 0, 3) == Stage(7).pool;
    assert ById(Stage(6).segs, 3, 0) == 0;
  }

  lemma Stage8Run()
    ensures P.Alloc(Stage(7).pool, 3) == (Stage(8).pool, 16)
  {
    var p := Stage(7).pool;
    assert P.Best(p, 3, 1) == 0 && P.Best(p, 3, 2) == 0 && P.Best(p, 3, 3) == 0;
    assert P.EmptySlot(p, 2) == 2 && P.EmptySlot(p, 1) == 2 && P.EmptySlot(p, 0) == 2;
    assert P.Put(p, 2, P.Entry(19, 5, false))[0 := P.Entry(16, 3, true)] == Stage(8).pool;
  }

  lemma Stage8()
    ensures Next(SLAB, Stage(7), Ask(12288)) == Stage(8)
  {
    Stage8Run();
    hide P.Alloc;
  }

  lemma WrappingStep(n: nat)
    requires n < |WRAPPING|
    ensures Next(SLAB, Stage(n), WRAPPING[n]) == Stage(n + 1)
  {
    hide Next, Stage;
    Stage1();
    Stage2();
    Stage3();
    Stage4();
    Stage5();
    Stage6();
    Stage7();
    Stage8();
  }

  lemma {:induction false} WrappingRun(n: nat)
    requires n <= |WRAPPING|
    ensures Runs(SLAB, WRAPPING[..n]) == Stage(n)
  {
    if n > 0 {
      WrappingRun(n - 1);
      WrappingStep(n - 1);
      hide Next, Stage;
      assert WRAPPING[..n][..n - 1] == WRAPPING[..n - 1];
    }
  }

  /** A run on a slab of eight pages that asks for 0xffffffe1 bytes once: removing that segment frees
      the run of another, and two segments in use share three pages. */
  lemma WrappedSizeAliases()
    ensures Pages(0xffff_ffe1) == 0 && ConfigOk(SLAB)
    ensures var segs := Runs(SLAB, WRAPPING).segs;
            && Held(4, 100, 4, 16) in Used(segs) && Held(5, 104, 3, 16) in Used(segs)
  {
    hide Runs, Used;
    WrappingRun(|WRAPPING|);
    assert WRAPPING[..|WRAPPING|] == WRAPPING;
    UsedMember(Stage(8).segs, 1);
    UsedMember(Stage(8).segs, 2);
  }

  // ----- an empty segment

  /** A scattered segment of no pages hides the next one: space 1 attaches segment 2 and detaches its
      address, and segment 2 stays attached. */
  lemma EmptySegmentHides()
    ensures var m := Runs(SLAB, [ESpace(1, 1), Scattered(0), Scattered(4096), EAttach(1, 2, true)]);
            && m.spaces == map[1 := [2]] && |m.segs| == 2 && m.segs[1].id == 2 && EmptyBefore(m.segs, 1)
            && DetachAt(m, 1, m.segs[1].addr) == m
  {
    var es := [ESpace(1, 1), Scattered(0), Scattered(4096), EAttach(1, 2, true)];
    var pool := [P.Entry(16, 8, false)];
    var none, one := Seg(1, 0, 200, 0, true, 0, false, 0, 1), Seg(2, 0, 200, 1, true, 0, false, 0, 1);
    var m1 := Shm(pool, [], 100, 200, 0, map[1 := [0]]);
    var m2 := Shm(pool, [none], 100, 200, 1, map[1 := [0]]);
    var m3 := Shm(pool, [none, one], 100, 201, 2, map[1 := [0]]);
    var m4 := Shm(pool, [none, one.(refs := 1)], 100, 201, 2, map[1 := [2]]);
    assert es[..4] == es && es[..4][..3] == es[..3] && es[..3][..2] == es[..2] && es[..2][..1] == es[..1];
    assert es[..1][..0] == [];
    HidesCreates(pool, none, one);
    HidesAttach(pool, none, one);
    hide Next;
    assert Runs(SLAB, es[..1]) == m1;
    assert Runs(SLAB, es[..2]) == m2;
    assert Runs(SLAB, es[..3]) == m3;
    assert Runs(SLAB, es[..4]) == m4;
    assert ByAddr(m4.segs, 200, 0) == 0 && ById(m4.segs, 1, 0) == 0 && Find([2], 1, 0) == 1;
    assert m4.segs[0].pages == 0 && m4.segs[0].addr == m4.segs[1].addr;
  }

  function Scattered(size: Size): Event {
    ECreate(0, size, false, 1, true, true)
  }

  lemma HidesCreates(pool: seq<P.Entry>, none: Seg, one: Seg)
    requires pool == [P.Entry(16, 8, false)]
    requires none == Seg(1, 0, 200, 0, true, 0, false, 0, 1) && one == Seg(2, 0, 200, 1, true, 0, false, 0, 1)
    ensures Next(SLAB, Start(SLAB), ESpace(1, 1)) == Shm(pool, [], 100, 200, 0, map[1 := [0]])
    ensures Next(SLAB, Shm(pool, [], 100, 200, 0, map[1 := [0]]), Scattered(0))
         == Shm(pool, [none], 100, 200, 1, map[1 := [0]])
    ensures Next(SLAB, Shm(pool, [none], 100, 200, 1, map[1 := [0]]), Scattered(4096))
         == Shm(pool, [none, one], 100, 201, 2, map[1 := [0]])
  {
    assert seq(1, i => 0) == [0];
  }

  lemma HidesAttach(pool: seq<P.Entry>, none: Seg, one: Seg)
    requires none == Seg(1, 0, 200, 0, true, 0, false, 0, 1) && one == Seg(2, 0, 200, 1, true, 0, false, 0, 1)
    ensures Next(SLAB, Shm(pool, [none, one], 100, 201, 2, map[1 := [0]]), EAttach(1, 2, true))
         == Shm(pool, [none, one.(refs := 1)], 100, 201, 2, map[1 := [2]])
  {
    var q: seq<nat> := [0];
    assert ById([none, one], 2, 0) == 1;
    assert Find(q, 0, 0) == 0 && Find(q, 2, 0) == 1;
    assert q[0 := 2] == [2] && [none, one][1 := one.(refs := 1)] == [none, one.(refs := 1)];
  }
}
