/** Fork by copy-on-write over reference-counted page frames, against a machine that copies
    every heap page at fork.

    Page tables are maps from a heap page number to a frame and a permission.  A frame is on
    the free list, mapped (`refs` counts its mappings), or in the hands of other kernel code
    (`taken`). */
module CopyOnWrite {
  const PAGE_SIZE := 4096

  type Page = seq<int>

  function ZeroPage(): (z: Page)
    ensures |z| == PAGE_SIZE && forall i :: 0 <= i < |z| ==> z[i] == 0
  {
    seq(PAGE_SIZE, _ => 0)
  }

  datatype Pte = Hole | Mapped(frame: nat, writable: bool)

  /** A heap occupies the pages [0, |pages|); stores are repaired only from `rwBase` on. */
  datatype Space = Space(pages: seq<Pte>, rwBase: nat)

  /** `users` is a history the kernel does not keep: the (process, page) pairs mapping a frame. */
  datatype Memory = Memory(
    refs: seq<nat>,
    data: seq<Page>,
    free: seq<nat>,
    taken: set<nat>,
    spaces: map<int, Space>,
    users: seq<set<(int, int)>>)

  predicate HasPage(m: Memory, pid: int, i: int) {
    pid in m.spaces && 0 <= i < |m.spaces[pid].pages|
  }

  function PteAt(m: Memory, pid: int, i: int): Pte
    requires HasPage(m, pid, i)
  {
    m.spaces[pid].pages[i]
  }

  predicate Uses(m: Memory, pid: int, i: int, f: nat) {
    HasPage(m, pid, i) && PteAt(m, pid, i).Mapped? && PteAt(m, pid, i).frame == f
  }

  ghost predicate FrameOk(m: Memory, f: nat)
    requires |m.data| == |m.refs| == |m.users| && f < |m.refs|
  {
    && |m.data[f]| == PAGE_SIZE
    && m.refs[f] == |m.users[f]|
    && (f in m.taken ==> m.refs[f] == 0)
    && (f in m.free <==> m.refs[f] == 0 && f !in m.taken)
  }

  ghost predicate UsersExact(m: Memory) {
    forall f, pid, i :: 0 <= f < |m.users| ==> ((pid, i) in m.users[f] <==> Uses(m, pid, i, f))
  }

  ghost predicate PteOk(m: Memory, pid: int, i: int)
    requires HasPage(m, pid, i)
  {
    PteAt(m, pid, i).Mapped? ==>
      && PteAt(m, pid, i).frame < |m.refs|
      && (PteAt(m, pid, i).writable ==> m.refs[PteAt(m, pid, i).frame] == 1)
  }

  /** Counts are exact, writable frames are private, and a frame is free exactly when it is
      neither mapped nor taken. */
  ghost predicate Good(m: Memory) {
    && |m.data| == |m.refs| == |m.users|
    && (forall f :: 0 <= f < |m.refs| ==> FrameOk(m, f))
    && UsersExact(m)
    && (forall pid, i :: HasPage(m, pid, i) ==> PteOk(m, pid, i))
    && (forall x, y :: 0 <= x < y < |m.free| ==> m.free[x] != m.free[y])
    && (forall f :: f in m.free ==> f < |m.refs|)
    && (forall f :: f in m.taken ==> f < |m.refs|)
  }

  /** What a process sees at one heap page: a page without a frame reads as zero. */
  function Seen(m: Memory, p: Pte): Page {
    if p.Mapped? && p.frame < |m.data| then m.data[p.frame] else ZeroPage()
  }

  function ViewOf(m: Memory, pages: seq<Pte>): (v: seq<Page>)
    ensures |v| == |pages|
    ensures forall i :: 0 <= i < |pages| ==> v[i] == Seen(m, pages[i])
  {
    seq(|pages|, i requires 0 <= i < |pages| => Seen(m, pages[i]))
  }

  function View(m: Memory, pid: int): (v: seq<Page>)
    requires pid in m.spaces
    ensures |v| == |m.spaces[pid].pages|
  {
    ViewOf(m, m.spaces[pid].pages)
  }

  // ----- frames and mappings

  function Alloc(m: Memory): Memory
    requires m.free != []
  {
    m.(free := m.free[1..], taken := m.taken + {m.free[0]})
  }

  function SetPte(m: Memory, pid: int, i: int, p: Pte): Memory
    requires HasPage(m, pid, i)
  {
    m.(spaces := m.spaces[pid := m.spaces[pid].(pages := m.spaces[pid].pages[i := p])])
  }

  /** `map_page_ref`. */
  function MapRef(m: Memory, pid: int, i: int, f: nat, writable: bool): Memory
    requires HasPage(m, pid, i) && f < |m.refs| == |m.users|
  {
    SetPte(m, pid, i, Mapped(f, writable)).(
      refs := m.refs[f := m.refs[f] + 1], taken := m.taken - {f}, users := m.users[f := m.users[f] + {(pid, i)}])
  }

  /** `unmap_page_ref`: the last mapping gone, the frame returns to the head of the free list. */
  function UnmapRef(m: Memory, pid: int, i: int): Memory
    requires HasPage(m, pid, i)
  {
    var p := PteAt(m, pid, i);
    if p.Hole? || !(p.frame < |m.refs| == |m.users|) then SetPte(m, pid, i, Hole) else
    var n: nat := if m.refs[p.frame] > 0 then m.refs[p.frame] - 1 else 0;
    SetPte(m, pid, i, Hole).(
      refs := m.refs[p.frame := n], free := if n == 0 then [p.frame] + m.free else m.free,
      users := m.users[p.frame := m.users[p.frame] - {(pid, i)}])
  }

  function SetPages(m: Memory, pid: int, pages: seq<Pte>): Memory
    requires pid in m.spaces
  {
    m.(spaces := m.spaces[pid := m.spaces[pid].(pages := pages)])
  }

  // ----- invariance of the elementary operations

  lemma AllocGood(m: Memory)
    requires Good(m) && m.free != []
    ensures Good(Alloc(m)) && m.free[0] in Alloc(m).taken && m.free[0] < |m.refs|
  {
    var m' := Alloc(m);
    var h := m.free[0];
    assert h in m.free;
    forall f | f in m'.free ensures f < |m'.refs| { assert f in m.free; }
    forall f | 0 <= f < |m'.refs| ensures FrameOk(m', f) {
      assert FrameOk(m, f);
      assert f in m.free[1..] <==> f in m.free && f != h;
    }
    forall q, j | HasPage(m', q, j) ensures PteOk(m', q, j) { assert PteOk(m, q, j); }
    forall f, q, j | 0 <= f < |m'.users| ensures (q, j) in m'.users[f] <==> Uses(m', q, j, f) {
      assert Uses(m', q, j, f) <==> Uses(m, q, j, f);
    }
  }

  lemma DowngradeGood(m: Memory, pid: int, i: int)
    requires Good(m) && HasPage(m, pid, i) && PteAt(m, pid, i).Mapped?
    ensures Good(SetPte(m, pid, i, PteAt(m, pid, i).(writable := false)))
  {
    var p := PteAt(m, pid, i).(writable := false);
    var m' := SetPte(m, pid, i, p);
    forall f | 0 <= f < |m'.refs| ensures FrameOk(m', f) { assert FrameOk(m, f); }
    forall q, j | HasPage(m', q, j) ensures PteOk(m', q, j) { assert PteOk(m, q, j); }
    forall f, q, j | 0 <= f < |m'.users| ensures (q, j) in m'.users[f] <==> Uses(m', q, j, f) {
      assert Uses(m', q, j, f) <==> Uses(m, q, j, f);
    }
  }

  /** A frame in hand may be mapped with any permission, a shared one only read-only and only
      while no mapping of it is writable. */
  lemma MapRefGood(m: Memory, pid: int, i: int, f: nat, writable: bool)
    requires Good(m) && HasPage(m, pid, i) && PteAt(m, pid, i).Hole? && f < |m.refs|
    requires f in m.taken ||
             (m.refs[f] > 0 && !writable && forall q, j :: Uses(m, q, j, f) ==> !PteAt(m, q, j).writable)
    ensures Good(MapRef(m, pid, i, f, writable))
  {
    var m' := MapRef(m, pid, i, f, writable);
    assert FrameOk(m, f) && !Uses(m, pid, i, f);
    forall g | 0 <= g < |m'.refs| ensures FrameOk(m', g) { assert FrameOk(m, g); }
    forall q, j | HasPage(m', q, j) ensures PteOk(m', q, j) {
      if q != pid || j != i {
        assert PteAt(m', q, j) == PteAt(m, q, j) && PteOk(m, q, j);
        assert Uses(m, q, j, f) ==> (q, j) in m.users[f];
      }
    }
    forall g, q, j | 0 <= g < |m'.users| ensures (q, j) in m'.users[g] <==> Uses(m', q, j, g) {
      if q != pid || j != i {
        assert Uses(m', q, j, g) <==> Uses(m, q, j, g);
      } else {
        assert !Uses(m, q, j, g);
      }
    }
  }

  lemma UnmapRefGood(m: Memory, pid: int, i: int)
    requires Good(m) && HasPage(m, pid, i)
    ensures Good(UnmapRef(m, pid, i)) && UnmapRef(m, pid, i).data == m.data && UnmapRef(m, pid, i).taken == m.taken
  {
    var m' := UnmapRef(m, pid, i);
    var p := PteAt(m, pid, i);
    assert PteOk(m, pid, i);
    assert p.Mapped? ==> Uses(m, pid, i, p.frame) && FrameOk(m, p.frame);
    forall g | 0 <= g < |m'.refs| ensures FrameOk(m', g) { assert FrameOk(m, g); }
    forall q, j | HasPage(m', q, j) ensures PteOk(m', q, j) {
      assert PteOk(m, q, j);
      if (q != pid || j != i) && p.Mapped? && Uses(m, q, j, p.frame) && PteAt(m, q, j).writable {
        SoleUser(m, pid, i, q, j, p.frame);
      }
    }
    forall g, q, j | 0 <= g < |m'.users| ensures (q, j) in m'.users[g] <==> Uses(m', q, j, g) {
      if q != pid || j != i {
        assert Uses(m', q, j, g) <==> Uses(m, q, j, g);
      } else {
        assert Uses(m, q, j, g) <==> p.Mapped? && p.frame == g;
      }
    }
  }

  /** Growing or cutting a table by entries without a frame changes no count. */
  lemma ResizeGood(m: Memory, pid: int, pages: seq<Pte>)
    requires Good(m) && pid in m.spaces
    requires var o := m.spaces[pid].pages;
      || (|pages| == |o| + 1 && pages[..|o|] == o && pages[|o|].Hole?)
      || (|o| == |pages| + 1 && o[..|pages|] == pages && o[|pages|].Hole?)
    ensures Good(SetPages(m, pid, pages))
  {
    var m' := SetPages(m, pid, pages);
    var o := m.spaces[pid].pages;
    assert forall j :: 0 <= j < |pages| && j < |o| ==> pages[j] == o[j];
    forall f | 0 <= f < |m'.refs| ensures FrameOk(m', f) { assert FrameOk(m, f); }
    forall f, q, j | 0 <= f < |m'.users| ensures (q, j) in m'.users[f] <==> Uses(m', q, j, f) {
      assert Uses(m', q, j, f) <==> Uses(m, q, j, f);
    }
    forall q, j | HasPage(m', q, j) ensures PteOk(m', q, j) {
      if HasPage(m, q, j) {
        assert PteOk(m, q, j);
      }
    }
  }

  /** Contents, saved pages and the order of the free list are no part of the accounting. */
  lemma WriteGood(m: Memory, f: nat, page: Page)
    requires Good(m) && f < |m.data| && |page| == PAGE_SIZE
    ensures Good(m.(data := m.data[f := page]))
  {
    var m' := m.(data := m.data[f := page]);
    forall g | 0 <= g < |m'.refs| ensures FrameOk(m', g) { assert FrameOk(m, g); }
    forall g, q, j | 0 <= g < |m'.users| ensures (q, j) in m'.users[g] <==> Uses(m', q, j, g) {
      assert Uses(m', q, j, g) <==> Uses(m, q, j, g);
    }
    forall q, j | HasPage(m', q, j) ensures PteOk(m', q, j) { assert PteOk(m, q, j); }
  }

  /** A frame with one reference has no second user. */
  lemma SoleUser(m: Memory, pid: int, i: int, q: int, j: int, f: nat)
    requires Good(m) && f < |m.refs| && m.refs[f] == 1 && Uses(m, pid, i, f) && Uses(m, q, j, f)
    ensures q == pid && j == i
  {
    assert FrameOk(m, f);
    var rest := m.users[f] - {(pid, i)};
    assert (pid, i) in m.users[f] && (q, j) in m.users[f];
    assert |rest| == 0;
    assert (q, j) !in rest;
  }

  /** Nobody maps a frame whose count is 0. */
  lemma Unused(m: Memory, f: nat, q: int, j: int)
    requires Good(m) && (f in m.taken || f in m.free)
    ensures !Uses(m, q, j, f)
  {
    assert FrameOk(m, f);
    assert m.users[f] == {};
  }

  // ----- the write fault

  /** `copy_on_write` with a free page at hand. */
  function Repair(m: Memory, pid: int, i: int): Memory
    requires HasPage(m, pid, i) && m.free != []
  {
    var g := m.free[0];
    var m1 := Alloc(m);
    if g >= |m.data| || !(g < |m.refs| == |m.users|) then m1 else
    var m2 := m1.(data := m1.data[g := Seen(m, PteAt(m, pid, i))]);
    MapRef(UnmapRef(m2, pid, i), pid, i, g, true)
  }

  ghost predicate SameViews(m: Memory, m': Memory) {
    m'.spaces.Keys == m.spaces.Keys &&
    (forall pid :: pid in m.spaces ==> View(m', pid) == View(m, pid) && m'.spaces[pid].rwBase == m.spaces[pid].rwBase)
  }

  lemma RepairInvariant(m: Memory, pid: int, i: int)
    requires Good(m) && HasPage(m, pid, i) && m.free != []
    ensures Good(Repair(m, pid, i)) && m.free[0] < |m.refs|
  {
    var g := m.free[0];
    AllocGood(m);
    var m1 := Alloc(m);
    var page := Seen(m, PteAt(m, pid, i));
    assert |page| == PAGE_SIZE by {
      assert PteOk(m, pid, i);
      assert PteAt(m, pid, i).Mapped? ==> FrameOk(m, PteAt(m, pid, i).frame);
    }
    WriteGood(m1, g, page);
    var m2 := m1.(data := m1.data[g := page]);
    UnmapRefGood(m2, pid, i);
    MapRefGood(UnmapRef(m2, pid, i), pid, i, g, true);
  }

  /** Repairing a fault is invisible, and leaves the page writable with its old contents. */
  lemma RepairGood(m: Memory, pid: int, i: int)
    requires Good(m) && HasPage(m, pid, i) && m.free != []
    ensures Good(Repair(m, pid, i)) && SameViews(m, Repair(m, pid, i))
    ensures HasPage(Repair(m, pid, i), pid, i) && PteAt(Repair(m, pid, i), pid, i).Mapped?
    ensures PteAt(Repair(m, pid, i), pid, i).writable
  {
    RepairInvariant(m, pid, i);
    var g := m.free[0];
    var m' := Repair(m, pid, i);
    assert m'.data == m.data[g := Seen(m, PteAt(m, pid, i))];
    assert m'.spaces[pid].pages == m.spaces[pid].pages[i := Mapped(g, true)];
    forall q, j | HasPage(m, q, j) && (q != pid || j != i) ensures Seen(m', PteAt(m, q, j)) == Seen(m, PteAt(m, q, j)) {
      Unused(m, g, q, j);
    }
    forall q | q in m.spaces ensures View(m', q) == View(m, q) {
      forall j | 0 <= j < |m.spaces[q].pages| ensures View(m', q)[j] == View(m, q)[j] {
        assert HasPage(m, q, j);
      }
    }
  }

  /** How a user store to address `a` ends. */
  datatype Outcome = Direct | Repaired | Fatal

  function StoreOutcome(m: Memory, pid: int, a: nat): Outcome
    requires pid in m.spaces
  {
    var i := a / PAGE_SIZE;
    if HasPage(m, pid, i) && PteAt(m, pid, i).Mapped? && PteAt(m, pid, i).writable then Direct
    else if !HasPage(m, pid, i) || a < m.spaces[pid].rwBase || m.free == [] then Fatal
    else Repaired
  }

  function PokeFrame(m: Memory, pid: int, a: nat, val: int): Memory
    requires HasPage(m, pid, a / PAGE_SIZE)
  {
    var p := PteAt(m, pid, a / PAGE_SIZE);
    if p.Hole? || p.frame >= |m.data| || |m.data[p.frame]| != PAGE_SIZE then m
    else m.(data := m.data[p.frame := m.data[p.frame][a % PAGE_SIZE := val]])
  }

  lemma PokeGood(m: Memory, pid: int, a: nat, val: int)
    requires Good(m) && HasPage(m, pid, a / PAGE_SIZE)
    requires PteAt(m, pid, a / PAGE_SIZE).Mapped? && PteAt(m, pid, a / PAGE_SIZE).writable
    ensures var m' := PokeFrame(m, pid, a, val);
      && Good(m') && m'.spaces == m.spaces
      && |View(m, pid)[a / PAGE_SIZE]| == PAGE_SIZE
      && View(m', pid) == View(m, pid)[a / PAGE_SIZE := View(m, pid)[a / PAGE_SIZE][a % PAGE_SIZE := val]]
      && (forall q :: q in m.spaces && q != pid ==> View(m', q) == View(m, q))
  {
    var i := a / PAGE_SIZE;
    var f := PteAt(m, pid, i).frame;
    assert PteOk(m, pid, i) && FrameOk(m, f);
    var page := m.data[f][a % PAGE_SIZE := val];
    WriteGood(m, f, page);
    var m' := PokeFrame(m, pid, a, val);
    forall q, j | HasPage(m, q, j) && (q != pid || j != i) ensures View(m', q)[j] == View(m, q)[j] {
      if Uses(m, q, j, f) {
        SoleUser(m, pid, i, q, j, f);
      }
    }
    forall q | q in m.spaces && q != pid ensures View(m', q) == View(m, q) {
      forall j | 0 <= j < |m.spaces[q].pages| ensures View(m', q)[j] == View(m, q)[j] {
        assert HasPage(m, q, j);
      }
    }
    forall j | 0 <= j < |m.spaces[pid].pages| && j != i ensures View(m', pid)[j] == View(m, pid)[j] {
      assert HasPage(m, pid, j);
    }
  }

  // ----- expand, shrink, fork, exit

  /** One round of `proc_shrink_mem`. */
  function ShrinkOne(m: Memory, pid: int): Memory
    requires pid in m.spaces && m.spaces[pid].pages != []
  {
    var last := |m.spaces[pid].pages| - 1;
    var m1 := UnmapRef(m, pid, last);
    SetPages(m1, pid, m1.spaces[pid].pages[..last])
  }

  function Shrink(m: Memory, pid: int, n: nat): Memory
    requires pid in m.spaces && n <= |m.spaces[pid].pages|
    decreases n
  {
    if n == 0 then m else Shrink(ShrinkOne(m, pid), pid, n - 1)
  }

  /** One round of `proc_expand_mem`: a zeroed page mapped read-write at the end of the heap. */
  function ExpandOne(m: Memory, pid: int): Memory
    requires pid in m.spaces && m.free != []
  {
    var g := m.free[0];
    var m1 := Alloc(m);
    if g >= |m.data| || !(g < |m.refs| == |m.users|) then m1 else
    var n := |m.spaces[pid].pages|;
    var m2 := SetPages(m1, pid, m.spaces[pid].pages + [Hole]).(data := m.data[g := ZeroPage()]);
    MapRef(m2, pid, n, g, true)
  }

  /** `proc_expand_mem` after `mapped` rounds with `n` to go; out of pages it undoes them. */
  function Expand(m: Memory, pid: int, mapped: nat, n: nat): Memory
    requires pid in m.spaces && mapped <= |m.spaces[pid].pages|
    decreases n
  {
    if n == 0 then m
    else if m.free == [] then Shrink(m, pid, mapped)
    else
      var m1 := ExpandOne(m, pid);
      if pid in m1.spaces && |m1.spaces[pid].pages| == |m.spaces[pid].pages| + 1
      then Expand(m1, pid, mapped + 1, n - 1) else m1
  }

  /** The share of page `i` in `proc_clone`: the child maps the frame, both read-only. */
  function ForkPage(m: Memory, parent: int, child: int, i: int): Memory
    requires HasPage(m, parent, i) && child in m.spaces && child != parent && |m.spaces[child].pages| == i
  {
    var m1 := SetPages(m, child, m.spaces[child].pages + [Hole]);
    var p := PteAt(m, parent, i);
    if p.Hole? || !(p.frame < |m.refs| == |m.users|) then m1
    else SetPte(MapRef(m1, child, i, p.frame, false), parent, i, p.(writable := false))
  }

  function ForkFrom(m: Memory, parent: int, child: int, i: nat): Memory
    requires parent in m.spaces && child in m.spaces && child != parent
    requires i <= |m.spaces[parent].pages| && |m.spaces[child].pages| == i
    decreases |m.spaces[parent].pages| - i
  {
    if i == |m.spaces[parent].pages| then m else ForkFrom(ForkPage(m, parent, child, i), parent, child, i + 1)
  }

  function Fork(m: Memory, parent: int, child: int): Memory
    requires parent in m.spaces && child !in m.spaces
  {
    ForkFrom(m.(spaces := m.spaces[child := Space([], m.spaces[parent].rwBase)]), parent, child, 0)
  }

  function Exit(m: Memory, pid: int): Memory
    requires pid in m.spaces
  {
    var m1 := Shrink(m, pid, |m.spaces[pid].pages|);
    m1.(spaces := m1.spaces - {pid})
  }

  // ----- each operation as the eager machine sees it

  /** `m'` differs from `m` only in the view of `pid`, which becomes `v`. */
  ghost predicate OnlyView(m: Memory, m': Memory, pid: int, v: seq<Page>) {
    && m'.spaces.Keys == m.spaces.Keys + {pid}
    && View(m', pid) == v
    && (forall q :: q in m.spaces && q != pid ==>
          View(m', q) == View(m, q) && m'.spaces[q].rwBase == m.spaces[q].rwBase)
  }

  lemma ShrinkOneGood(m: Memory, pid: int)
    requires Good(m) && pid in m.spaces && m.spaces[pid].pages != []
    ensures var m' := ShrinkOne(m, pid); var n := |m.spaces[pid].pages| - 1;
      && Good(m') && OnlyView(m, m', pid, View(m, pid)[..n]) && m'.spaces[pid].rwBase == m.spaces[pid].rwBase
  {
    var last := |m.spaces[pid].pages| - 1;
    UnmapRefGood(m, pid, last);
    var m1 := UnmapRef(m, pid, last);
    ResizeGood(m1, pid, m1.spaces[pid].pages[..last]);
    var m' := ShrinkOne(m, pid);
    forall q | q in m.spaces && q != pid ensures View(m', q) == View(m, q) {
      assert m'.spaces[q] == m.spaces[q];
    }
  }

  lemma {:induction false} ShrinkGood(m: Memory, pid: int, n: nat)
    requires Good(m) && pid in m.spaces && n <= |m.spaces[pid].pages|
    ensures var m' := Shrink(m, pid, n);
      && Good(m') && OnlyView(m, m', pid, View(m, pid)[..|m.spaces[pid].pages| - n])
      && m'.spaces[pid].rwBase == m.spaces[pid].rwBase
    decreases n
  {
    hide Good, ShrinkOne, View;
    if n == 0 {
      assert View(m, pid)[..|m.spaces[pid].pages|] == View(m, pid);
    } else {
      ShrinkOneGood(m, pid);
      var m1 := ShrinkOne(m, pid);
      ShrinkGood(m1, pid, n - 1);
      CutTwice(View(m, pid), |m.spaces[pid].pages| - 1, |m.spaces[pid].pages| - n);
    }
  }

  lemma CutTwice(v: seq<Page>, k: nat, n: nat)
    requires n <= k <= |v|
    ensures v[..k][..n] == v[..n]
  {
  }

  lemma ExpandOneGood(m: Memory, pid: int)
    requires Good(m) && pid in m.spaces && m.free != []
    ensures var m' := ExpandOne(m, pid);
      && Good(m') && OnlyView(m, m', pid, View(m, pid) + [ZeroPage()])
      && m'.spaces[pid].rwBase == m.spaces[pid].rwBase && m'.free == m.free[1..]
  {
    var g := m.free[0];
    AllocGood(m);
    var m1 := Alloc(m);
    var n := |m.spaces[pid].pages|;
    ResizeGood(m1, pid, m.spaces[pid].pages + [Hole]);
    var m2 := SetPages(m1, pid, m.spaces[pid].pages + [Hole]);
    WriteGood(m2, g, ZeroPage());
    var m3 := m2.(data := m.data[g := ZeroPage()]);
    MapRefGood(m3, pid, n, g, true);
    var m' := ExpandOne(m, pid);
    assert m' == MapRef(m3, pid, n, g, true);
    forall q, j | HasPage(m, q, j) ensures Seen(m', PteAt(m, q, j)) == Seen(m, PteAt(m, q, j)) {
      Unused(m1, g, q, j);
      assert HasPage(m1, q, j) && PteAt(m1, q, j) == PteAt(m, q, j);
      assert PteOk(m, q, j);
    }
    forall q | q in m.spaces && q != pid ensures View(m', q) == View(m, q) {
      assert m'.spaces[q] == m.spaces[q];
      forall j | 0 <= j < |m.spaces[q].pages| ensures View(m', q)[j] == View(m, q)[j] { assert HasPage(m, q, j); }
    }
    forall j | 0 <= j < n ensures View(m', pid)[j] == View(m, pid)[j] { assert HasPage(m, pid, j); }
    assert View(m', pid) == View(m, pid) + [ZeroPage()];
  }

  function ZeroPages(n: nat): (z: seq<Page>)
    ensures |z| == n
  {
    seq(n, _ => ZeroPage())
  }

  /** Expansion is all or nothing: with `n` free pages the heap grows by `n` zero pages, with
      fewer it is back where it was before the first round. */
  lemma {:induction false} ExpandGood(m: Memory, pid: int, mapped: nat, n: nat)
    requires Good(m) && pid in m.spaces && mapped <= |m.spaces[pid].pages|
    ensures var m' := Expand(m, pid, mapped, n);
      && Good(m')
      && OnlyView(m, m', pid,
          if |m.free| >= n then View(m, pid) + ZeroPages(n) else View(m, pid)[..|m.spaces[pid].pages| - mapped])
      && m'.spaces[pid].rwBase == m.spaces[pid].rwBase
    decreases n
  {
    hide Good, ExpandOne, Shrink, View, ZeroPages;
    if n == 0 {
      assert View(m, pid) + ZeroPages(0) == View(m, pid);
    } else if m.free == [] {
      ShrinkGood(m, pid, mapped);
    } else {
      ExpandOneGood(m, pid);
      var m1 := ExpandOne(m, pid);
      ExpandGood(m1, pid, mapped + 1, n - 1);
      ZeroPagesFirst(View(m, pid), n);
      CutAppended(View(m, pid), ZeroPage(), |m.spaces[pid].pages| - mapped);
    }
  }

  lemma ZeroPagesFirst(v: seq<Page>, n: nat)
    requires n > 0
    ensures v + [ZeroPage()] + ZeroPages(n - 1) == v + ZeroPages(n)
  {
    assert ZeroPages(n) == [ZeroPage()] + ZeroPages(n - 1);
  }

  lemma CutAppended(v: seq<Page>, x: Page, n: nat)
    requires n <= |v|
    ensures (v + [x])[..n] == v[..n]
  {
  }

  lemma ForkPageInvariant(m: Memory, parent: int, child: int, i: int)
    requires Good(m) && HasPage(m, parent, i) && child in m.spaces && child != parent && |m.spaces[child].pages| == i
    ensures Good(ForkPage(m, parent, child, i))
    ensures PteAt(m, parent, i).Mapped? ==> PteAt(m, parent, i).frame < |m.refs| == |m.users|
  {
    var m1 := SetPages(m, child, m.spaces[child].pages + [Hole]);
    ResizeGood(m, child, m.spaces[child].pages + [Hole]);
    var p := PteAt(m, parent, i);
    assert PteOk(m, parent, i);
    if p.Mapped? {
      assert PteAt(m1, parent, i) == p;
      DowngradeGood(m1, parent, i);
      var m2 := SetPte(m1, parent, i, p.(writable := false));
      SharedReadOnly(m2, parent, i);
      MapRefGood(m2, child, i, p.frame, false);
      SwapOrder(m1, parent, child, i);
    }
  }

  /** A frame that somebody maps read-only has no writable mapping at all. */
  lemma SharedReadOnly(m: Memory, pid: int, i: int)
    requires Good(m) && HasPage(m, pid, i) && PteAt(m, pid, i).Mapped? && !PteAt(m, pid, i).writable
    ensures var f := PteAt(m, pid, i).frame;
      f < |m.refs| && m.refs[f] > 0 && forall q, j :: Uses(m, q, j, f) ==> !PteAt(m, q, j).writable
  {
    var f := PteAt(m, pid, i).frame;
    assert PteOk(m, pid, i) && Uses(m, pid, i, f) && FrameOk(m, f);
    assert (pid, i) in m.users[f];
    forall q, j | Uses(m, q, j, f) ensures !PteAt(m, q, j).writable {
      assert PteOk(m, q, j);
      if PteAt(m, q, j).writable {
        SoleUser(m, pid, i, q, j, f);
      }
    }
  }

  /** The child's mapping and the parent's downgrade commute. */
  lemma SwapOrder(m: Memory, parent: int, child: int, i: int)
    requires HasPage(m, parent, i) && HasPage(m, child, i) && parent != child && PteAt(m, parent, i).Mapped?
    requires PteAt(m, parent, i).frame < |m.refs| == |m.users|
    ensures var p := PteAt(m, parent, i); var ro := p.(writable := false);
      MapRef(SetPte(m, parent, i, ro), child, i, p.frame, false)
          == SetPte(MapRef(m, child, i, p.frame, false), parent, i, ro)
  {
    var p := PteAt(m, parent, i);
    var ro := p.(writable := false);
    assert MapRef(SetPte(m, parent, i, ro), child, i, p.frame, false).spaces
        == SetPte(MapRef(m, child, i, p.frame, false), parent, i, ro).spaces;
  }

  lemma ForkPageGood(m: Memory, parent: int, child: int, i: int)
    requires Good(m) && HasPage(m, parent, i) && child in m.spaces && child != parent && |m.spaces[child].pages| == i
    ensures var m' := ForkPage(m, parent, child, i);
      && Good(m') && OnlyView(m, m', child, View(m, child) + [View(m, parent)[i]])
      && m'.spaces[child].rwBase == m.spaces[child].rwBase
      && |m'.spaces[parent].pages| == |m.spaces[parent].pages|
  {
    hide Good;
    ForkPageInvariant(m, parent, child, i);
    var m' := ForkPage(m, parent, child, i);
    forall q | q in m.spaces && q != child ensures View(m', q) == View(m, q) {
      forall j | 0 <= j < |m.spaces[q].pages| ensures View(m', q)[j] == View(m, q)[j] {}
    }
    assert View(m', child) == View(m, child) + [View(m, parent)[i]];
  }

  lemma {:induction false} ForkFromGood(m: Memory, parent: int, child: int, i: nat)
    requires Good(m) && parent in m.spaces && child in m.spaces && child != parent
    requires i <= |m.spaces[parent].pages| && |m.spaces[child].pages| == i
    ensures var m' := ForkFrom(m, parent, child, i);
      && Good(m') && OnlyView(m, m', child, View(m, child) + View(m, parent)[i..])
      && m'.spaces[child].rwBase == m.spaces[child].rwBase
    decreases |m.spaces[parent].pages| - i
  {
    hide Good, ForkPage, View;
    if i == |m.spaces[parent].pages| {
      assert View(m, child) + View(m, parent)[i..] == View(m, child);
    } else {
      ForkPageGood(m, parent, child, i);
      var m1 := ForkPage(m, parent, child, i);
      ForkFromGood(m1, parent, child, i + 1);
      MovePage(View(m, child), View(m, parent), i);
    }
  }

  lemma MovePage(c: seq<Page>, p: seq<Page>, i: nat)
    requires i < |p|
    ensures c + [p[i]] + p[i + 1..] == c + p[i..]
  {
    assert p[i..] == [p[i]] + p[i + 1..];
  }

  lemma EmptySpaceGood(m: Memory, pid: int, rwBase: nat)
    requires Good(m) && pid !in m.spaces
    ensures var m' := m.(spaces := m.spaces[pid := Space([], rwBase)]);
      Good(m') && OnlyView(m, m', pid, [])
  {
    var m' := m.(spaces := m.spaces[pid := Space([], rwBase)]);
    forall f | 0 <= f < |m'.refs| ensures FrameOk(m', f) { assert FrameOk(m, f); }
    forall f, q, j | 0 <= f < |m'.users| ensures (q, j) in m'.users[f] <==> Uses(m', q, j, f) {
      assert Uses(m', q, j, f) <==> Uses(m, q, j, f);
    }
    forall q, j | HasPage(m', q, j) ensures PteOk(m', q, j) { assert PteOk(m, q, j); }
    forall q | q in m.spaces ensures View(m', q) == View(m, q) {}
  }

  lemma ForkGood(m: Memory, parent: int, child: int)
    requires Good(m) && parent in m.spaces && child !in m.spaces
    ensures var m' := Fork(m, parent, child);
      && Good(m') && OnlyView(m, m', child, View(m, parent)) && m'.spaces[child].rwBase == m.spaces[parent].rwBase
  {
    hide Good;
    var m0 := m.(spaces := m.spaces[child := Space([], m.spaces[parent].rwBase)]);
    EmptySpaceGood(m, child, m.spaces[parent].rwBase);
    ForkFromGood(m0, parent, child, 0);
    assert View(m0, child) + View(m0, parent)[0..] == View(m, parent);
  }

  lemma ExitGood(m: Memory, pid: int)
    requires Good(m) && pid in m.spaces
    ensures var m' := Exit(m, pid);
      && Good(m') && m'.spaces.Keys == m.spaces.Keys - {pid}
      && (forall q :: q in m'.spaces ==> View(m', q) == View(m, q) && m'.spaces[q].rwBase == m.spaces[q].rwBase)
  {
    ShrinkGood(m, pid, |m.spaces[pid].pages|);
    var m1 := Shrink(m, pid, |m.spaces[pid].pages|);
    assert |m1.spaces[pid].pages| == 0;
    var m' := Exit(m, pid);
    forall f | 0 <= f < |m'.refs| ensures FrameOk(m', f) { assert FrameOk(m1, f); }
    forall f, q, j | 0 <= f < |m'.users| ensures (q, j) in m'.users[f] <==> Uses(m', q, j, f) {
      assert Uses(m', q, j, f) <==> Uses(m1, q, j, f);
    }
    forall q, j | HasPage(m', q, j) ensures PteOk(m', q, j) { assert PteOk(m1, q, j); }
  }
}
