/** Several DMA blocks at once: memory handed out of one is clear of all the others exactly as long as
    their ranges are. */
module DmaBlocks {
  import opened Options
  import opened Tiling
  import opened Dma
  import opened DmaRuns

  // ----- registered ranges

  /** Two blocks have a byte in common. */
  predicate Shares(a: Block, b: Block) {
    a.size > 0 && b.size > 0 && a.base < b.base + b.size && b.base < a.base + a.size
  }

  predicate RangesApart(bs: seq<Block>) {
    forall i, j :: 0 <= i < j < |bs| ==> !Shares(bs[i], bs[j])
  }

  predicate FitsBeside(bs: seq<Block>, base: nat, size: nat) {
    forall i :: 0 <= i < |bs| ==> !Shares(bs[i], Block(base, size, 0, []))
  }

  lemma {:induction false} RegisteredShape(bs: seq<Block>, pid: int, base: nat, size: nat, dead: set<int>, i: nat)
    requires i <= |bs|
    ensures var (r, o) := Registered(bs, pid, base, size, dead, i);
            if o.Added? then r == bs + [Block(base, size, pid, [Run(base, size, FREE)])] else SameRanges(bs, r)
    decreases |bs| - i
  {
    if i < |bs| {
      RegisteredShape(bs, pid, base, size, dead, i + 1);
    }
  }

  predicate SameRanges(a: seq<Block>, b: seq<Block>) {
    |a| == |b| && forall i :: 0 <= i < |a| ==> a[i].base == b[i].base && a[i].size == b[i].size
  }

  lemma SameApart(a: seq<Block>, b: seq<Block>)
    requires SameRanges(a, b)
    ensures RangesApart(a) <==> RangesApart(b)
  {
    forall i, j | 0 <= i < j < |a| ensures Shares(a[i], a[j]) <==> Shares(b[i], b[j]) {
    }
  }

  /** A registration keeps the ranges apart exactly when it is refused, reclaims a block, or adds a range
      that has no byte in common with any other. */
  lemma RegisteredApartExactly(bs: seq<Block>, pid: int, base: nat, size: nat, dead: set<int>)
    requires RangesApart(bs)
    ensures var (r, o) := Registered(bs, pid, base, size, dead, 0);
            RangesApart(r) <==> !o.Added? || FitsBeside(bs, base, size)
  {
    RegisteredShape(bs, pid, base, size, dead, 0);
    var (r, o) := Registered(bs, pid, base, size, dead, 0);
    hide Registered;
    if o.Added? {
      var n := |bs|;
      assert forall i :: 0 <= i < n ==> (Shares(r[i], r[n]) <==> Shares(bs[i], Block(base, size, 0, [])));
      forall i, j | 0 <= i < j < n ensures !Shares(r[i], r[j]) {
        assert !Shares(bs[i], bs[j]);
      }
    } else {
      SameApart(bs, r);
    }
  }

  /** The call registers nothing over a range that is already somebody's. */
  predicate Beside(bs: seq<Block>, e: Event) {
    e.ESet? && RangeSize(e.base, e.size).Some? ==>
      var n := RangeSize(e.base, e.size).value;
      !Registered(bs, e.pid, e.base, n, e.dead, 0).1.Added? || FitsBeside(bs, e.base, n)
  }

  lemma NextApartExactly(bs: seq<Block>, e: Event)
    requires RangesApart(bs)
    ensures RangesApart(Next(bs, e)) <==> Beside(bs, e)
  {
    hide Registered, RangeSize, Alloc, Free, Pin, Unpin, Release, RangesApart, FitsBeside;
    if e.ESet? {
      if RangeSize(e.base, e.size).Some? {
        RegisteredApartExactly(bs, e.pid, e.base, RangeSize(e.base, e.size).value, e.dead);
      }
    } else {
      assert SameRanges(bs, Next(bs, e));
      SameApart(bs, Next(bs, e));
    }
  }

  ghost predicate AllBeside(bs: seq<Block>, es: seq<Event>) {
    forall k :: 0 <= k < |es| ==> Beside(RunsFrom(bs, es[..k]), es[k])
  }

  lemma {:induction false} RunsApart(bs: seq<Block>, es: seq<Event>)
    requires RangesApart(bs) && AllBeside(bs, es)
    ensures RangesApart(RunsFrom(bs, es))
    decreases |es|
  {
    if es != [] {
      var n := |es| - 1;
      forall k | 0 <= k < n ensures Beside(RunsFrom(bs, es[..n][..k]), es[..n][k]) {
        assert es[..n][..k] == es[..k];
      }
      RunsApart(bs, es[..n]);
      assert Beside(RunsFrom(bs, es[..n]), es[n]);
      hide RangesApart, Beside, Next;
      NextApartExactly(RunsFrom(bs, es[..n]), es[n]);
    }
  }

  // ----- memory handed out

  /** No byte in common. */
  predicate Clear(a: Node, b: Node) {
    a.size == 0 || b.size == 0 || End(a) <= b.start || End(b) <= a.start
  }

  lemma NodeInside(b: Block, j: nat)
    requires Chained(b) && j < |b.nodes|
    ensures b.base <= b.nodes[j].start && End(b.nodes[j]) <= b.base + b.size
  {
    var n := |b.nodes| - 1;
    if j > 0 {
      ChainOrdered(b.nodes, b.base, b.base + b.size, 0, j);
    }
    if j < n {
      ChainOrdered(b.nodes, b.base, b.base + b.size, j, n);
    }
  }

  /** The node handed out, inside the block it comes from. */
  lemma HandedInside(b: Block, pid: int, size: Size)
    requires Chained(b) && Alloc(b.nodes, pid, size).1 < |b.nodes|
    ensures var (a, k) := Alloc(b.nodes, pid, size);
            k < |a| && b.base <= a[k].start && End(a[k]) <= b.base + b.size
  {
    var k := Alloc(b.nodes, pid, size).1;
    NodeInside(b, k);
    hide Chained, PageUp;
  }

  lemma HandedClear(bs: seq<Block>, id: nat, pid: int, size: Size, other: nat, d: Node)
    requires AllChained(bs) && RangesApart(bs) && id < |bs| && other < |bs| && d in bs[other].nodes && !Reusable(d.tag)
    requires Alloc(bs[id].nodes, pid, size).1 < |bs[id].nodes|
    ensures var (a, k) := Alloc(bs[id].nodes, pid, size); k < |a| && a[k].size == PageUp(size) && Clear(a[k], d)
  {
    var j :| 0 <= j < |bs[other].nodes| && bs[other].nodes[j] == d;
    assert Chained(bs[id]) && Chained(bs[other]);
    HandedInside(bs[id], pid, size);
    HandedSize(bs[id].nodes, pid, size);
    NodeInside(bs[other], j);
    if id == other {
      HandedApart(bs[id].nodes, bs[id].base, bs[id].base + bs[id].size, pid, size, j);
    } else {
      var x, y := if id < other then id else other, if id < other then other else id;
      assert !Shares(bs[x], bs[y]);
    }
    hide Alloc, Chained, PageUp;
  }

  lemma HandedSize(ns: seq<Node>, pid: int, size: Size)
    requires Alloc(ns, pid, size).1 < |ns|
    ensures var (a, k) := Alloc(ns, pid, size); k < |a| && a[k].size == PageUp(size)
  {
    hide PageUp;
  }

  /** After any run whose registrations keep to themselves, memory handed out of any block has no byte in
      common with a node in use or pinned in any block. */
  lemma AllocDisjoint(es: seq<Event>, id: nat, pid: int, size: Size, other: nat, d: Node)
    requires AllBeside([], es) && id < |Runs(es)| && other < |Runs(es)|
    requires d in Runs(es)[other].nodes && !Reusable(d.tag)
    requires Alloc(Runs(es)[id].nodes, pid, size).1 < |Runs(es)[id].nodes|
    ensures var (a, k) := Alloc(Runs(es)[id].nodes, pid, size); k < |a| && a[k].size == PageUp(size) && Clear(a[k], d)
  {
    DmaRunsChained(es);
    RunsApart([], es);
    hide Runs, RangesApart, AllChained;
    HandedClear(Runs(es), id, pid, size, other, d);
  }

  /** Memory pinned at some point of such a run is in nothing handed out later, by whatever block, until
      its last pin is gone: repeated registrations and the deaths of owners included. */
  lemma PinnedNeverHandedOut(es: seq<Event>, more: seq<Event>, id: nat, start: nat, len: nat, p: nat,
                             other: nat, pid: int, size: Size)
    requires AllBeside([], es + more) && id < |Runs(es)| && Held(Runs(es)[id].nodes, start, len, p)
    requires UnpinCount(more, id, start) < p
    requires other < |Runs(es + more)|
    requires Alloc(Runs(es + more)[other].nodes, pid, size).1 < |Runs(es + more)[other].nodes|
    ensures var (a, k) := Alloc(Runs(es + more)[other].nodes, pid, size);
            k < |a| && Clear(a[k], Run(start, len, FREE))
  {
    RunsJoin([], es, more);
    hide RunsFrom, AllBeside, Alloc, AllChained, Held, UnpinCount;
    DmaRunsChained(es);
    PinnedSurvives(Runs(es), more, id, start, len, p);
    var bs := Runs(es + more);
    var j := HeldAt(bs[id].nodes, start, len, p - UnpinCount(more, id, start));
    AllocDisjoint(es + more, other, pid, size, id, bs[id].nodes[j]);
  }

  lemma HeldAt(ns: seq<Node>, start: nat, len: nat, p: nat) returns (j: nat)
    requires Held(ns, start, len, p) && p > 0
    ensures j < |ns| && ns[j].start == start && ns[j].size == len && !Reusable(ns[j].tag)
  {
    j :| 0 <= j < |ns| && PinnedNode(ns[j], start, len, p);
  }

  lemma {:induction false} RunsJoin(bs: seq<Block>, es: seq<Event>, more: seq<Event>)
    ensures RunsFrom(bs, es + more) == RunsFrom(RunsFrom(bs, es), more)
    decreases |more|
  {
    if more == [] {
      assert es + more == es;
    } else {
      var n := |more| - 1;
      assert (es + more)[..|es + more| - 1] == es + more[..n];
      RunsJoin(bs, es, more[..n]);
    }
  }

  // ----- one range registered twice

  const TWICE: seq<Event> :=
    [ESet(1, 0x1000, 0x4000, {}), ESet(2, 0x1000, 0x4000, {}), EAlloc(0, 5, 0x1000), EPin(0, 5, 0x1000, 0x1000)]

  function Twice(n: nat): seq<Block> {
    var all := [Run(0x1000, 0x4000, FREE)];
    var rest := Run(0x2000, 0x3000, FREE);
    if n == 0 then []
    else if n == 1 then [Block(0x1000, 0x4000, 1, all)]
    else if n == 2 then [Block(0x1000, 0x4000, 1, all), Block(0x1000, 0x4000, 2, all)]
    else if n == 3 then
      [Block(0x1000, 0x4000, 1, [Run(0x1000, 0x1000, Hold(5, 0)), rest]), Block(0x1000, 0x4000, 2, all)]
    else
      [Block(0x1000, 0x4000, 1, [Run(0x1000, 0x1000, Hold(5, 1)), rest]), Block(0x1000, 0x4000, 2, all)]
  }

  lemma TwiceStep(n: nat)
    requires n < |TWICE|
    ensures Next(Twice(n), TWICE[n]) == Twice(n + 1)
  {
    if n == 1 {
      assert !AnyPinned(Twice(1)[0].nodes);
    } else if n == 2 {
      assert Alloc(Twice(2)[0].nodes, 5, 0x1000).0 == Twice(3)[0].nodes;
    } else if n == 3 {
      assert Pinnable(Twice(3)[0].nodes, 5, 0x1000, 0x1000, 0) == 0;
      assert Pin(Twice(3)[0].nodes, 5, 0x1000, 0x1000).0 == Twice(4)[0].nodes;
    }
  }

  lemma {:induction false} TwiceRun(n: nat)
    requires n <= |TWICE|
    ensures Runs(TWICE[..n]) == Twice(n)
  {
    if n > 0 {
      TwiceRun(n - 1);
      TwiceStep(n - 1);
      assert TWICE[..n][..n - 1] == TWICE[..n - 1];
    }
  }

  /** Two drivers register the same range, the first still alive; task 5 has a page pinned through the
      first block, and task 6 is handed that page by the second. */
  lemma PinnedHandedOut()
    ensures forall i :: 0 <= i < |TWICE| ==> Sensible(TWICE[i])
    ensures var bs := Runs(TWICE);
            && |bs| == 2 && Run(0x1000, 0x1000, Hold(5, 1)) in bs[0].nodes
            && Alloc(bs[1].nodes, 6, 0x1000).1 < |bs[1].nodes|
            && Alloc(bs[1].nodes, 6, 0x1000).0[0] == Run(0x1000, 0x1000, Hold(6, 0))
  {
    TwiceRun(4);
    assert TWICE[..4] == TWICE;
    hide Runs;
    var bs := Twice(4);
    assert bs[0].nodes[0] == Run(0x1000, 0x1000, Hold(5, 1));
    assert FirstRoom(bs[1].nodes, 0x1000, 0) == 0;
  }
}
