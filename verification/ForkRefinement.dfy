/** Whole runs of the copy-on-write machine against one that copies every page at fork, and
    the same operations as the kernel performs them, in place. */
module ForkRefinement {
  import opened CopyOnWrite

  /** The machine a program believes in: every process owns its heap pages. */
  datatype Heap = Heap(pages: seq<Page>, rwBase: nat)
  type Eager = map<int, Heap>

  datatype Event =
    | Boot(pid: int)
    | Loaded(pid: int, rwBase: nat)
    | Forked(parent: int, child: int)
    | Store(pid: int, addr: nat, val: int)
    | Expanded(pid: int, n: nat, limit: int)
    | Shrunk(pid: int, n: nat)
    | Sealed(pid: int, page: nat)
    | Exited(pid: int)
    | KernelTakes
    | KernelGives(frame: nat)

  /** What the kernel answers: `Killed` when a store cannot be repaired. */
  datatype Reply = Done | Refused | Killed

  predicate Enabled(m: Memory, e: Event) {
    match e
    case Boot(pid) => pid !in m.spaces
    case Loaded(pid, _) => pid in m.spaces
    case Forked(p, c) => p in m.spaces && c !in m.spaces
    case Store(pid, _, _) => pid in m.spaces
    case Expanded(pid, _, _) => pid in m.spaces
    case Shrunk(pid, n) => pid in m.spaces && n <= |m.spaces[pid].pages|
    case Sealed(pid, i) => HasPage(m, pid, i)
    case Exited(pid) => pid in m.spaces
    case KernelTakes => m.free != []
    case KernelGives(f) => f in m.taken
  }

  /** `limit` bounds the heap in pages when the DMA window sits above it; negative is no bound. */
  predicate OverLimit(m: Memory, pid: int, n: nat, limit: int)
    requires pid in m.spaces
  {
    0 <= limit < |m.spaces[pid].pages| + n
  }

  function Answer(m: Memory, e: Event): Reply
    requires Enabled(m, e)
  {
    match e
    case Store(pid, a, _) => if StoreOutcome(m, pid, a).Fatal? then Killed else Done
    case Expanded(pid, n, limit) => if OverLimit(m, pid, n, limit) || |m.free| < n then Refused else Done
    case _ => Done
  }

  function DoStore(m: Memory, pid: int, a: nat, val: int): Memory
    requires pid in m.spaces
  {
    match StoreOutcome(m, pid, a)
    case Direct => PokeFrame(m, pid, a, val)
    case Repaired =>
      var m1 := Repair(m, pid, a / PAGE_SIZE);
      if HasPage(m1, pid, a / PAGE_SIZE) then PokeFrame(m1, pid, a, val) else m1
    case Fatal => Exit(m, pid)
  }

  function Next(m: Memory, e: Event): Memory
    requires Enabled(m, e)
  {
    match e
    case Boot(pid) => m.(spaces := m.spaces[pid := Space([], 0)])
    case Loaded(pid, base) => m.(spaces := m.spaces[pid := m.spaces[pid].(rwBase := base)])
    case Forked(p, c) => Fork(m, p, c)
    case Store(pid, a, val) => DoStore(m, pid, a, val)
    case Expanded(pid, n, limit) => if OverLimit(m, pid, n, limit) then m else Expand(m, pid, 0, n)
    case Shrunk(pid, n) => Shrink(m, pid, n)
    case Sealed(pid, i) =>
      if PteAt(m, pid, i).Mapped? then SetPte(m, pid, i, PteAt(m, pid, i).(writable := false)) else m
    case Exited(pid) => Exit(m, pid)
    case KernelTakes => Alloc(m)
    case KernelGives(f) => m.(taken := m.taken - {f}, free := [f] + m.free)
  }

  /** The eager machine only needs the kernel's answer; it shares nothing and counts nothing. */
  function EagerNext(a: Eager, e: Event, r: Reply): Eager {
    match e
    case Boot(pid) => a[pid := Heap([], 0)]
    case Loaded(pid, base) => if pid in a then a[pid := a[pid].(rwBase := base)] else a
    case Forked(p, c) => if p in a then a[c := a[p]] else a
    case Store(pid, x, val) =>
      if r.Killed? then a - {pid}
      else if pid in a && x / PAGE_SIZE < |a[pid].pages| && |a[pid].pages[x / PAGE_SIZE]| == PAGE_SIZE then
        a[pid := a[pid].(pages := a[pid].pages[x / PAGE_SIZE := a[pid].pages[x / PAGE_SIZE][x % PAGE_SIZE := val]])]
      else a
    case Expanded(pid, n, _) =>
      if r.Done? && pid in a then a[pid := a[pid].(pages := a[pid].pages + ZeroPages(n))] else a
    case Shrunk(pid, n) =>
      if pid in a && n <= |a[pid].pages| then a[pid := a[pid].(pages := a[pid].pages[..|a[pid].pages| - n])] else a
    case Exited(pid) => a - {pid}
    case _ => a
  }

  function Abs(m: Memory): Eager {
    map pid | pid in m.spaces :: Heap(View(m, pid), m.spaces[pid].rwBase)
  }

  // ----- one step

  lemma StoreStep(m: Memory, pid: int, a: nat, val: int)
    requires Good(m) && pid in m.spaces
    ensures Good(DoStore(m, pid, a, val))
    ensures Abs(DoStore(m, pid, a, val)) == EagerNext(Abs(m), Store(pid, a, val), Answer(m, Store(pid, a, val)))
  {
    hide Good;
    var i := a / PAGE_SIZE;
    match StoreOutcome(m, pid, a)
    case Direct =>
      PokeGood(m, pid, a, val);
    case Repaired =>
      RepairGood(m, pid, i);
      PokeGood(Repair(m, pid, i), pid, a, val);
    case Fatal =>
      ExitGood(m, pid);
  }

  /** Steps that change no page table and no page. */
  lemma SameTablesStep(m: Memory, e: Event)
    requires Good(m) && Enabled(m, e) && (e.KernelTakes? || e.KernelGives?)
    ensures Good(Next(m, e)) && Abs(Next(m, e)) == Abs(m)
  {
    var m' := Next(m, e);
    if e.KernelTakes? {
      AllocGood(m);
    } else {
      assert FrameOk(m, e.frame);
      forall f | 0 <= f < |m'.refs| ensures FrameOk(m', f) { assert FrameOk(m, f); }
      forall f, q, j | 0 <= f < |m'.users| ensures (q, j) in m'.users[f] <==> Uses(m', q, j, f) {
        assert Uses(m', q, j, f) <==> Uses(m, q, j, f);
      }
      forall q, j | HasPage(m', q, j) ensures PteOk(m', q, j) { assert PteOk(m, q, j); }
    }
    forall q | q in m.spaces ensures View(m', q) == View(m, q) {}
  }

  lemma SealStep(m: Memory, pid: int, i: int)
    requires Good(m) && HasPage(m, pid, i) && PteAt(m, pid, i).Mapped?
    ensures var m' := SetPte(m, pid, i, PteAt(m, pid, i).(writable := false)); Good(m') && Abs(m') == Abs(m)
  {
    DowngradeGood(m, pid, i);
    hide Good;
    var m' := SetPte(m, pid, i, PteAt(m, pid, i).(writable := false));
    forall q | q in m.spaces ensures View(m', q) == View(m, q) {
      forall j | 0 <= j < |m.spaces[q].pages| ensures View(m', q)[j] == View(m, q)[j] {}
    }
  }

  lemma LoadStep(m: Memory, pid: int, base: nat)
    requires Good(m) && pid in m.spaces
    ensures var m' := m.(spaces := m.spaces[pid := m.spaces[pid].(rwBase := base)]);
      Good(m') && OnlyView(m, m', pid, View(m, pid))
  {
    var m' := m.(spaces := m.spaces[pid := m.spaces[pid].(rwBase := base)]);
    forall f | 0 <= f < |m'.refs| ensures FrameOk(m', f) { assert FrameOk(m, f); }
    forall f, q, j | 0 <= f < |m'.users| ensures (q, j) in m'.users[f] <==> Uses(m', q, j, f) {
      assert Uses(m', q, j, f) <==> Uses(m, q, j, f);
    }
    forall q, j | HasPage(m', q, j) ensures PteOk(m', q, j) { assert PteOk(m, q, j); }
    forall q | q in m.spaces ensures View(m', q) == View(m, q) {}
  }

  /** One changed view is one changed heap. */
  lemma AbsOnlyView(m: Memory, m': Memory, pid: int, v: seq<Page>, rwBase: nat)
    requires OnlyView(m, m', pid, v) && m'.spaces[pid].rwBase == rwBase
    ensures Abs(m') == Abs(m)[pid := Heap(v, rwBase)]
  {
  }

  /** Every step keeps the counts exact and is matched by the eager machine. */
  lemma StepRefines(m: Memory, e: Event)
    requires Good(m) && Enabled(m, e)
    ensures Good(Next(m, e)) && Abs(Next(m, e)) == EagerNext(Abs(m), e, Answer(m, e))
  {
    hide Good;
    match e
    case Boot(pid) =>
      EmptySpaceGood(m, pid, 0);
      AbsOnlyView(m, Next(m, e), pid, [], 0);
    case Loaded(pid, base) =>
      LoadStep(m, pid, base);
      AbsOnlyView(m, Next(m, e), pid, View(m, pid), base);
    case Sealed(pid, i) =>
      if PteAt(m, pid, i).Mapped? {
        SealStep(m, pid, i);
      }
    case KernelTakes => SameTablesStep(m, e);
    case KernelGives(_) => SameTablesStep(m, e);
    case Forked(p, c) =>
      ForkGood(m, p, c);
      AbsOnlyView(m, Fork(m, p, c), c, View(m, p), m.spaces[p].rwBase);
    case Store(pid, a, val) => StoreStep(m, pid, a, val);
    case Expanded(pid, n, limit) =>
      if !OverLimit(m, pid, n, limit) {
        ExpandStep(m, pid, n);
      }
    case Shrunk(pid, n) =>
      ShrinkGood(m, pid, n);
      AbsOnlyView(m, Shrink(m, pid, n), pid, View(m, pid)[..|m.spaces[pid].pages| - n], m.spaces[pid].rwBase);
    case Exited(pid) => ExitGood(m, pid);
  }

  lemma ExpandStep(m: Memory, pid: int, n: nat)
    requires Good(m) && pid in m.spaces
    ensures Good(Expand(m, pid, 0, n))
    ensures Abs(Expand(m, pid, 0, n)) ==
      if |m.free| < n then Abs(m) else Abs(m)[pid := Heap(View(m, pid) + ZeroPages(n), m.spaces[pid].rwBase)]
  {
    hide Good;
    ExpandGood(m, pid, 0, n);
    var v := View(m, pid);
    assert v[..|m.spaces[pid].pages| - 0] == v;
    AbsOnlyView(m, Expand(m, pid, 0, n), pid, if |m.free| >= n then v + ZeroPages(n) else v, m.spaces[pid].rwBase);
  }

  // ----- whole runs

  ghost predicate CanRun(m: Memory, es: seq<Event>)
    decreases |es|
  {
    es == [] || (Enabled(m, es[0]) && CanRun(Next(m, es[0]), es[1..]))
  }

  ghost function After(m: Memory, es: seq<Event>): Memory
    requires CanRun(m, es)
    decreases |es|
  {
    if es == [] then m else After(Next(m, es[0]), es[1..])
  }

  /** The answers a run receives. */
  ghost function Answers(m: Memory, es: seq<Event>): (rs: seq<Reply>)
    requires CanRun(m, es)
    ensures |rs| == |es|
    decreases |es|
  {
    if es == [] then [] else [Answer(m, es[0])] + Answers(Next(m, es[0]), es[1..])
  }

  function EagerAfter(a: Eager, es: seq<Event>, rs: seq<Reply>): Eager
    requires |es| == |rs|
    decreases |es|
  {
    if es == [] then a else EagerAfter(EagerNext(a, es[0], rs[0]), es[1..], rs[1..])
  }

  /** Fork by copy-on-write refines fork by copying: after any run, every process sees the heap
      it would have had with private pages throughout, and the frame accounting is exact. */
  lemma {:induction false} CowRefinesEagerCopy(m: Memory, es: seq<Event>)
    requires Good(m) && CanRun(m, es)
    ensures Good(After(m, es))
    ensures Abs(After(m, es)) == EagerAfter(Abs(m), es, Answers(m, es))
    decreases |es|
  {
    if es != [] {
      StepRefines(m, es[0]);
      CowRefinesEagerCopy(Next(m, es[0]), es[1..]);
      assert Answers(m, es)[1..] == Answers(Next(m, es[0]), es[1..]);
    }
  }

  /** Boot state: every frame on the free list, once. */
  ghost predicate Fresh(m: Memory) {
    && |m.data| == |m.refs| == |m.users|
    && m.spaces == map[] && m.taken == {}
    && (forall f :: 0 <= f < |m.refs| ==> m.users[f] == {} && m.refs[f] == 0 && |m.data[f]| == PAGE_SIZE && f in m.free)
    && (forall f :: f in m.free ==> f < |m.refs|)
    && (forall x, y :: 0 <= x < y < |m.free| ==> m.free[x] != m.free[y])
  }

  lemma FreshGood(m: Memory)
    requires Fresh(m)
    ensures Good(m)
  {
    forall f | 0 <= f < |m.refs| ensures FrameOk(m, f) {}
  }

  /** The accounting spelled out for a reachable state: the count of a frame is the number of
      heap pages that map it, a writable page shares its frame with nobody, and a frame is
      free exactly when its count is 0 and no other kernel code holds it. */
  lemma FrameAccounting(m: Memory, es: seq<Event>, f: nat, pid: int, i: int)
    requires Fresh(m) && CanRun(m, es) && f < |After(m, es).refs|
    ensures |After(m, es).users| == |After(m, es).refs|
    ensures var m' := After(m, es);
      && m'.refs[f] == |m'.users[f]| && ((pid, i) in m'.users[f] <==> Uses(m', pid, i, f))
      && (Uses(m', pid, i, f) && PteAt(m', pid, i).writable ==> m'.users[f] == {(pid, i)})
      && (f in m'.free <==> m'.users[f] == {} && f !in m'.taken)
  {
    FreshGood(m);
    CowRefinesEagerCopy(m, es);
    var m' := After(m, es);
    assert FrameOk(m', f);
    if Uses(m', pid, i, f) && PteAt(m', pid, i).writable {
      assert PteOk(m', pid, i);
      forall u | u in m'.users[f] ensures u == (pid, i) {
        assert (u.0, u.1) == u;
        SoleUser(m', pid, i, u.0, u.1, f);
      }
    }
  }

  // ----- in place

  class PageMachine {
    var refs: seq<nat>
    var data: seq<Page>
    var free: seq<nat>
    var taken: set<nat>
    var spaces: map<int, Space>
    var users: seq<set<(int, int)>>

    ghost function Value(): Memory
      reads this
    {
      Memory(refs, data, free, taken, spaces, users)
    }

    constructor (frames: nat)
      ensures Fresh(Value()) && |refs| == frames
    {
      refs := seq(frames, _ => 0);
      data := seq(frames, _ => ZeroPage());
      free := seq(frames, i => i);
      taken := {};
      spaces := map[];
      users := seq(frames, _ => {});
      new;
      forall f | 0 <= f < |refs| ensures f in free {
        assert free[f] == f;
      }
    }

    /** A process starts with an empty heap. */
    method NewSpace(pid: int)
      requires Enabled(Value(), Boot(pid))
      modifies this`spaces
      ensures Value() == Next(old(Value()), Boot(pid))
    {
      spaces := spaces[pid := Space([], 0)];
    }

    /** Loading an image tells from where on stores are repaired. */
    method SetBase(pid: int, rwBase: nat)
      requires Enabled(Value(), Loaded(pid, rwBase))
      modifies this`spaces
      ensures Value() == Next(old(Value()), Loaded(pid, rwBase))
    {
      spaces := spaces[pid := spaces[pid].(rwBase := rwBase)];
    }

    /** `kalloc_page`. */
    method KallocPage() returns (found: bool, frame: nat)
      modifies this`free, this`taken
      ensures found == (old(free) != [])
      ensures found ==> frame == old(free)[0] && Value() == Alloc(old(Value()))
      ensures !found ==> Value() == old(Value())
    {
      if free == [] {
        return false, 0;
      }
      frame := free[0];
      free := free[1..];
      taken := taken + {frame};
      return true, frame;
    }

    method MapPageRef(pid: int, i: int, frame: nat, writable: bool)
      requires HasPage(Value(), pid, i) && frame < |refs| == |users|
      modifies this`refs, this`taken, this`spaces, this`users
      ensures Value() == MapRef(old(Value()), pid, i, frame, writable)
    {
      spaces := spaces[pid := spaces[pid].(pages := spaces[pid].pages[i := Mapped(frame, writable)])];
      refs := refs[frame := refs[frame] + 1];
      users := users[frame := users[frame] + {(pid, i)}];
      taken := taken - {frame};
    }

    method UnmapPageRef(pid: int, i: int)
      requires HasPage(Value(), pid, i)
      modifies this`refs, this`free, this`spaces, this`users
      ensures Value() == UnmapRef(old(Value()), pid, i)
    {
      var p := spaces[pid].pages[i];
      if p.Mapped? && p.frame < |refs| == |users| {
        users := users[p.frame := users[p.frame] - {(pid, i)}];
        if refs[p.frame] > 0 {
          refs := refs[p.frame := refs[p.frame] - 1];
        }
        if refs[p.frame] == 0 {
          free := [p.frame] + free;
        }
      }
      spaces := spaces[pid := spaces[pid].(pages := spaces[pid].pages[i := Hole])];
    }

    /** `copy_on_write`. */
    method CopyOnWriteFault(pid: int, i: int) returns (ok: bool)
      requires Good(Value()) && HasPage(Value(), pid, i)
      modifies this
      ensures ok == (old(free) != [])
      ensures Value() == if ok then Repair(old(Value()), pid, i) else old(Value())
    {
      ghost var before := Value();
      var found, frame := KallocPage();
      if !found {
        return false;
      }
      AllocGood(before);
      var p := spaces[pid].pages[i];
      assert PteOk(before, pid, i);
      if p.Mapped? {
        data := data[frame := data[p.frame]];
        UnmapPageRef(pid, i);
      } else {
        data := data[frame := ZeroPage()];
        assert Value() == UnmapRef(Value(), pid, i) by {
          assert spaces[pid].pages[i := Hole] == spaces[pid].pages;
          assert spaces[pid := spaces[pid]] == spaces;
        }
      }
      MapPageRef(pid, i, frame, true);
      return true;
    }

    /** `proc_shrink_mem`. */
    method ShrinkMem(pid: int, pageNum: nat)
      requires pid in spaces && pageNum <= |spaces[pid].pages|
      modifies this`refs, this`free, this`spaces, this`users
      ensures Value() == Shrink(old(Value()), pid, pageNum)
    {
      hide ShrinkOne;
      var i := 0;
      while i < pageNum
        invariant 0 <= i <= pageNum
        invariant pid in spaces && pageNum - i <= |spaces[pid].pages|
        invariant Shrink(old(Value()), pid, pageNum) == Shrink(Value(), pid, pageNum - i)
      {
        ShrinkLast(pid);
        i := i + 1;
        if |spaces[pid].pages| == 0 {
          break;
        }
      }
    }

    /** One round of it: the last page goes. */
    method ShrinkLast(pid: int)
      requires pid in spaces && spaces[pid].pages != []
      modifies this`refs, this`free, this`spaces, this`users
      ensures Value() == ShrinkOne(old(Value()), pid)
      ensures pid in spaces && |spaces[pid].pages| == |old(spaces)[pid].pages| - 1
    {
      var last := |spaces[pid].pages| - 1;
      UnmapPageRef(pid, last);
      spaces := spaces[pid := spaces[pid].(pages := spaces[pid].pages[..last])];
    }

    /** One round of `proc_expand_mem`. */
    method ExpandPage(pid: int) returns (found: bool)
      requires Good(Value()) && pid in spaces
      modifies this
      ensures found == (old(free) != [])
      ensures Value() == if found then ExpandOne(old(Value()), pid) else old(Value())
    {
      ghost var before := Value();
      var frame;
      found, frame := KallocPage();
      if found {
        AllocGood(before);
        var n := |spaces[pid].pages|;
        data := data[frame := ZeroPage()];
        spaces := spaces[pid := spaces[pid].(pages := spaces[pid].pages + [Hole])];
        MapPageRef(pid, n, frame, true);
      }
    }

    /** `proc_expand_mem` below the address limit. */
    method ExpandMem(pid: int, pageNum: nat) returns (ok: bool)
      requires Good(Value()) && pid in spaces
      modifies this
      ensures Value() == Expand(old(Value()), pid, 0, pageNum)
      ensures ok == (|old(free)| >= pageNum)
    {
      hide Good;
      var i := 0;
      while i < pageNum
        invariant 0 <= i <= pageNum
        invariant Good(Value()) && pid in spaces && i <= |spaces[pid].pages|
        invariant |old(free)| == |free| + i
        invariant Expand(old(Value()), pid, 0, pageNum) == Expand(Value(), pid, i, pageNum - i)
      {
        ghost var before := Value();
        var found := ExpandPage(pid);
        if !found {
          ShrinkMem(pid, i);
          return false;
        }
        ExpandOneGood(before, pid);
        i := i + 1;
      }
      return true;
    }

    /** The heap part of `proc_clone`. */
    method CloneHeap(child: int, parent: int)
      requires Good(Value()) && parent in spaces && child !in spaces
      modifies this`refs, this`taken, this`spaces, this`users
      ensures Value() == Fork(old(Value()), parent, child)
    {
      spaces := spaces[child := Space([], spaces[parent].rwBase)];
      var i := 0;
      while i < |spaces[parent].pages|
        invariant parent in spaces && child in spaces
        invariant 0 <= i <= |spaces[parent].pages| && |spaces[child].pages| == i
        invariant Fork(old(Value()), parent, child) == ForkFrom(Value(), parent, child, i)
        decreases |spaces[parent].pages| - i
      {
        ghost var before := Value();
        var p := spaces[parent].pages[i];
        spaces := spaces[child := spaces[child].(pages := spaces[child].pages + [Hole])];
        if p.Mapped? && p.frame < |refs| == |users| {
          MapPageRef(child, i, p.frame, false);
          spaces := spaces[parent := spaces[parent].(pages := spaces[parent].pages[i := p.(writable := false)])];
        }
        assert Value() == ForkPage(before, parent, child, i);
        i := i + 1;
      }
    }
  }
}
