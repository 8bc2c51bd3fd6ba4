/** The contiguous shared-memory slab: an unordered table of page runs, best fit with split and merge.
    Addresses are page numbers; 0 marks an empty table entry. */
module ShmPool {
  const POOL_MAX: nat := 128

  datatype Entry = Entry(addr: nat, pages: nat, used: bool)

  const NONE := Entry(0, 0, false)

  predicate Live(e: Entry) {
    e.addr != 0
  }

  predicate Spare(e: Entry) {
    Live(e) && !e.used
  }

  function End(e: Entry): nat {
    e.addr + e.pages
  }

  predicate Holds(e: Entry, x: nat) {
    Live(e) && e.addr <= x < End(e)
  }

  predicate Covered(t: seq<Entry>, x: nat) {
    exists i :: 0 <= i < |t| && Holds(t[i], x)
  }

  predicate Apart(a: Entry, b: Entry) {
    End(a) <= b.addr || End(b) <= a.addr
  }

  predicate Touch(a: Entry, b: Entry) {
    End(a) == b.addr || End(b) == a.addr
  }

  /** Runs lie in the slab, are disjoint, and cover every page of it. */
  predicate Tiled(t: seq<Entry>, lo: nat, hi: nat) {
    && 0 < lo && |t| <= POOL_MAX
    && (forall i :: 0 <= i < |t| && Live(t[i]) ==> t[i].pages > 0 && lo <= t[i].addr && End(t[i]) <= hi)
    && (forall i, j :: 0 <= i < |t| && 0 <= j < |t| && i != j && Live(t[i]) && Live(t[j]) ==> Apart(t[i], t[j]))
    && (forall x :: lo <= x < hi ==> Covered(t, x))
  }

  /** No two spare runs touch, entry `k` aside. */
  predicate SparesApart(t: seq<Entry>, k: int) {
    forall i, j :: 0 <= i < |t| && 0 <= j < |t| && i != j && i != k && j != k && Spare(t[i]) && Spare(t[j]) ==>
        !Touch(t[i], t[j])
  }

  predicate Good(t: seq<Entry>, lo: nat, hi: nat) {
    Tiled(t, lo, hi) && SparesApart(t, -1)
  }

  // ----- allocation

  predicate Fits(e: Entry, pages: nat) {
    Spare(e) && e.pages >= pages
  }

  /** Best fit among entries [0, n), the first of equals; -1 when none fits. */
  function Best(t: seq<Entry>, pages: nat, n: nat): (k: int)
    requires n <= |t|
    ensures -1 <= k < n
    ensures k >= 0 ==> Fits(t[k], pages) && forall i :: 0 <= i < n && Fits(t[i], pages) ==> t[k].pages <= t[i].pages
    ensures k < 0 ==> forall i :: 0 <= i < n ==> !Fits(t[i], pages)
  {
    if n == 0 then -1
    else
      var k := Best(t, pages, n - 1);
      if Fits(t[n - 1], pages) && (k < 0 || t[n - 1].pages < t[k].pages) then n - 1 else k
  }

  /** The first empty entry, `|t|` when the table must grow. */
  function EmptySlot(t: seq<Entry>, i: nat): (k: nat)
    requires i <= |t|
    ensures i <= k <= |t|
    ensures k < |t| ==> !Live(t[k])
    ensures forall j :: i <= j < k ==> Live(t[j])
    decreases |t| - i
  {
    if i == |t| || !Live(t[i]) then i else EmptySlot(t, i + 1)
  }

  function Put(t: seq<Entry>, k: nat, e: Entry): seq<Entry>
    requires k <= |t|
  {
    if k == |t| then t + [e] else t[k := e]
  }

  /** The table after `shm_pool_alloc`, and the run's address (0 when nothing fits). */
  function Alloc(t: seq<Entry>, pages: nat): (seq<Entry>, nat) {
    var k := Best(t, pages, |t|);
    if k < 0 then (t, 0)
    else
      var e := t[k];
      var s := EmptySlot(t, 0);
      if e.pages > pages && s < POOL_MAX then
        (Put(t, s, Entry(e.addr + pages, e.pages - pages, false))[k := Entry(e.addr, pages, true)], e.addr)
      else (t[k := e.(used := true)], e.addr)
  }

  // ----- release

  function UsedAt(t: seq<Entry>, addr: nat, i: nat): (k: nat)
    requires i <= |t|
    ensures i <= k <= |t|
    ensures k < |t| ==> t[k].addr == addr && t[k].used
    ensures forall j :: i <= j < k ==> !(t[j].addr == addr && t[j].used)
    decreases |t| - i
  {
    if i == |t| || (t[i].addr == addr && t[i].used) then i else UsedAt(t, addr, i + 1)
  }

  /** One look at entry `j`, merging it into `k` when it is spare and touches. */
  function Merge(t: seq<Entry>, k: nat, j: nat): (r: seq<Entry>)
    requires k < |t| && j < |t|
    ensures |r| == |t|
  {
    if j == k || !Spare(t[j]) then t
    else if End(t[k]) == t[j].addr then
      t[k := t[k].(pages := t[k].pages + t[j].pages)][j := t[j].(addr := 0)]
    else if End(t[j]) == t[k].addr then
      t[k := t[k].(addr := t[j].addr, pages := t[k].pages + t[j].pages)][j := t[j].(addr := 0)]
    else t
  }

  function MergeUpTo(t: seq<Entry>, k: nat, n: nat): (r: seq<Entry>)
    requires k < |t| && n <= |t|
    ensures |r| == |t|
  {
    if n == 0 then t else Merge(MergeUpTo(t, k, n - 1), k, n - 1)
  }

  /** The table after `shm_pool_free`. */
  function Free(t: seq<Entry>, addr: nat): seq<Entry> {
    var k := UsedAt(t, addr, 0);
    if k == |t| then t else MergeUpTo(t[k := t[k].(used := false)], k, |t|)
  }

  // ----- proofs

  /** Entry `k` became used where it was, cut to size unless the table had no entry for the rest. */
  predicate Granted(t: seq<Entry>, r: seq<Entry>, k: nat, pages: nat)
    requires k < |t| <= |r|
  {
    r[k].addr == t[k].addr && r[k].used && r[k].pages >= pages && (r[k].pages == pages || EmptySlot(t, 0) == POOL_MAX)
  }

  /** Marking one run keeps the tiling. */
  lemma MarkTiled(t: seq<Entry>, lo: nat, hi: nat, k: nat, used: bool)
    requires Tiled(t, lo, hi) && k < |t|
    ensures Tiled(t[k := t[k].(used := used)], lo, hi)
  {
    var r := t[k := t[k].(used := used)];
    forall x | lo <= x < hi ensures Covered(r, x) {
      assert Covered(t, x);
      var i :| 0 <= i < |t| && Holds(t[i], x);
      assert Holds(r[i], x);
    }
  }

  lemma SplitTiled(t: seq<Entry>, lo: nat, hi: nat, k: nat, s: nat, pages: nat)
    requires Tiled(t, lo, hi) && k < |t| && s <= |t| && s < POOL_MAX && (s < |t| ==> !Live(t[s]))
    requires Live(t[k]) && 0 < pages < t[k].pages
    ensures Tiled(Put(t, s, Entry(t[k].addr + pages, t[k].pages - pages, false))[k := Entry(t[k].addr, pages, true)],
        lo, hi)
  {
    var rest := Entry(t[k].addr + pages, t[k].pages - pages, false);
    var r := Put(t, s, rest)[k := Entry(t[k].addr, pages, true)];
    assert forall i :: 0 <= i < |t| && i != k && i != s ==> r[i] == t[i];
    forall i, j | 0 <= i < |r| && 0 <= j < |r| && i != j && Live(r[i]) && Live(r[j]) ensures Apart(r[i], r[j]) {
      if i != k && i != s && j != k && j != s {
        assert Apart(t[i], t[j]);
      } else if i != k && i != s {
        assert Apart(t[i], t[k]);
      } else if j != k && j != s {
        assert Apart(t[k], t[j]);
      }
    }
    forall x | lo <= x < hi ensures Covered(r, x) {
      assert Covered(t, x);
      var i :| 0 <= i < |t| && Holds(t[i], x);
      if i == k {
        assert Holds(r[k], x) || Holds(r[s], x);
      } else {
        assert Holds(r[i], x);
      }
    }
  }

  /** Allocation of at least one page keeps the slab tiled with spare runs apart, and hands out a
      smallest sufficient run, cut to size unless the table is full. */
  lemma AllocGood(t: seq<Entry>, lo: nat, hi: nat, pages: nat)
    requires Good(t, lo, hi) && pages > 0
    ensures var (r, addr) := Alloc(t, pages); Good(r, lo, hi)
    ensures var (r, addr) := Alloc(t, pages);
            addr == 0 ==> r == t && forall i :: 0 <= i < |t| ==> !Fits(t[i], pages)
    ensures var (r, addr) := Alloc(t, pages); var k := Best(t, pages, |t|);
            addr != 0 ==> && 0 <= k < |t| <= |r| && t[k].addr == addr && Granted(t, r, k, pages)
                          && (forall i :: 0 <= i < |t| && Fits(t[i], pages) ==> t[k].pages <= t[i].pages)
  {
    var k := Best(t, pages, |t|);
    if k >= 0 {
      var s := EmptySlot(t, 0);
      var (r, addr) := Alloc(t, pages);
      if t[k].pages > pages && s < POOL_MAX {
        SplitTiled(t, lo, hi, k, s, pages);
        SplitSpares(t, k, s, pages, r);
      } else {
        MarkTiled(t, lo, hi, k, true);
        assert SparesApart(r, -1);
      }
    }
  }

  lemma SplitSpares(t: seq<Entry>, k: nat, s: nat, pages: nat, r: seq<Entry>)
    requires SparesApart(t, -1) && k < |t| && s <= |t| && s != k && (s < |t| ==> !Live(t[s])) && Spare(t[k])
        && pages < t[k].pages
    requires r == Put(t, s, Entry(t[k].addr + pages, t[k].pages - pages, false))[k := Entry(t[k].addr, pages, true)]
    requires forall i, j :: 0 <= i < |t| && 0 <= j < |t| && i != j && Live(t[i]) && Live(t[j]) ==> Apart(t[i], t[j])
    ensures SparesApart(r, -1)
  {
    assert forall i :: 0 <= i < |t| && i != k && i != s ==> r[i] == t[i];
    forall i, j | 0 <= i < |r| && 0 <= j < |r| && i != j && Spare(r[i]) && Spare(r[j]) ensures !Touch(r[i], r[j]) {
      if i == s {
        assert !Touch(t[k], t[j]) && Apart(t[k], t[j]);
      } else if j == s {
        assert !Touch(t[i], t[k]) && Apart(t[i], t[k]);
      } else {
        assert !Touch(t[i], t[j]);
      }
    }
  }

  /** Mid-merge: spare runs are apart but for `k` against the entries not yet looked at. */
  predicate Merging(t: seq<Entry>, lo: nat, hi: nat, k: nat, n: nat)
    requires k < |t| && n <= |t|
  {
    && Tiled(t, lo, hi) && SparesApart(t, k) && Spare(t[k])
    && forall j :: 0 <= j < n && j != k && Spare(t[j]) ==> !Touch(t[k], t[j])
  }

  /** Merging two touching runs keeps the tiling. */
  lemma MergeTiled(t: seq<Entry>, lo: nat, hi: nat, k: nat, j: nat)
    requires Tiled(t, lo, hi) && k < |t| && j < |t| && Live(t[k])
    ensures Tiled(Merge(t, k, j), lo, hi)
  {
    var r := Merge(t, k, j);
    if r != t {
      assert Live(t[j]) && Apart(t[k], t[j]);
      assert forall i :: 0 <= i < |t| && i != k && i != j ==> r[i] == t[i];
      forall a, b | 0 <= a < |r| && 0 <= b < |r| && a != b && Live(r[a]) && Live(r[b]) ensures Apart(r[a], r[b]) {
        if a == k {
          assert Apart(t[k], t[b]) && Apart(t[j], t[b]);
        } else if b == k {
          assert Apart(t[a], t[k]) && Apart(t[a], t[j]);
        } else {
          assert Apart(t[a], t[b]);
        }
      }
      forall x | lo <= x < hi ensures Covered(r, x) {
        assert Covered(t, x);
        var i :| 0 <= i < |t| && Holds(t[i], x);
        if i == k || i == j {
          assert Holds(r[k], x);
        } else {
          assert Holds(r[i], x);
        }
      }
    }
  }

  lemma MergeStep(t: seq<Entry>, lo: nat, hi: nat, k: nat, j: nat)
    requires k < |t| && j < |t| && Merging(t, lo, hi, k, j)
    ensures Merging(Merge(t, k, j), lo, hi, k, j + 1)
  {
    MergeTiled(t, lo, hi, k, j);
    var r := Merge(t, k, j);
    if r != t {
      assert Apart(t[k], t[j]) && t[j].pages > 0 && t[k].pages > 0;
      assert forall i :: 0 <= i < |t| && i != k && i != j ==> r[i] == t[i];
      forall a, b | 0 <= a < |r| && 0 <= b < |r| && a != b && a != k && b != k && Spare(r[a]) && Spare(r[b])
        ensures !Touch(r[a], r[b])
      {
        assert !Touch(t[a], t[b]);
      }
      forall i | 0 <= i < j + 1 && i != k && Spare(r[i]) ensures !Touch(r[k], r[i]) {
        assert i != j && !Touch(t[k], t[i]) && !Touch(t[j], t[i]);
        assert Apart(t[i], t[k]) && Apart(t[i], t[j]);
      }
    }
  }

  lemma {:induction false} MergeUpToGood(t: seq<Entry>, lo: nat, hi: nat, k: nat, n: nat)
    requires k < |t| && n <= |t| && Merging(t, lo, hi, k, 0)
    ensures Merging(MergeUpTo(t, k, n), lo, hi, k, n)
  {
    hide Merging, Merge;
    if n > 0 {
      MergeUpToGood(t, lo, hi, k, n - 1);
      MergeStep(MergeUpTo(t, k, n - 1), lo, hi, k, n - 1);
    }
  }

  /** Release keeps the slab tiled with spare runs apart. */
  lemma FreeGood(t: seq<Entry>, lo: nat, hi: nat, addr: nat)
    requires Good(t, lo, hi) && addr != 0
    ensures Good(Free(t, addr), lo, hi)
  {
    var k := UsedAt(t, addr, 0);
    if k < |t| {
      MarkTiled(t, lo, hi, k, false);
      var m := t[k := t[k].(used := false)];
      assert SparesApart(m, k) by {
        forall i, j | 0 <= i < |m| && 0 <= j < |m| && i != j && i != k && j != k && Spare(m[i]) && Spare(m[j])
          ensures !Touch(m[i], m[j])
        {
          assert !Touch(t[i], t[j]);
        }
      }
      MergeUpToGood(m, lo, hi, k, |m|);
      var r := Free(t, addr);
      forall i, j | 0 <= i < |r| && 0 <= j < |r| && i != j && Spare(r[i]) && Spare(r[j]) ensures !Touch(r[i], r[j]) {
        if i == k {
          assert !Touch(r[k], r[j]);
        } else if j == k {
          assert !Touch(r[k], r[i]);
        }
      }
    }
  }

  /** Entries in use, other than the one released, are not touched. */
  lemma {:induction false} MergeKeepsUsed(t: seq<Entry>, k: nat, n: nat, i: nat)
    requires k < |t| && n <= |t| && i < |t|
    ensures MergeUpTo(t, k, n)[k].used == t[k].used
    ensures i != k && t[i].used ==> MergeUpTo(t, k, n)[i] == t[i]
    ensures i != k && !t[i].used ==> !MergeUpTo(t, k, n)[i].used
  {
    if n > 0 {
      MergeKeepsUsed(t, k, n - 1, i);
    }
  }

  /** A used run is found by its address alone, because runs are disjoint. */
  lemma UsedAtUnique(t: seq<Entry>, lo: nat, hi: nat, k: nat)
    requires Tiled(t, lo, hi) && k < |t| && Live(t[k]) && t[k].used
    ensures UsedAt(t, t[k].addr, 0) == k
  {
    assert forall j :: 0 <= j < |t| && j != k && Live(t[j]) ==> Apart(t[j], t[k]);
  }

  // ----- requests for no pages

  /** Good survives an allocation exactly when it asks for at least one page, or nothing is spare, or
      the table has no entry left to split into. */
  lemma AllocGoodExactly(t: seq<Entry>, lo: nat, hi: nat, pages: nat)
    requires Good(t, lo, hi)
    ensures Good(Alloc(t, pages).0, lo, hi) <==>
            pages > 0 || EmptySlot(t, 0) == POOL_MAX || forall i :: 0 <= i < |t| ==> !Spare(t[i])
  {
    hide Good, Alloc;
    if pages > 0 {
      AllocGood(t, lo, hi, pages);
    } else {
      AllocNone(t, lo, hi);
    }
  }

  lemma AllocNone(t: seq<Entry>, lo: nat, hi: nat)
    requires Good(t, lo, hi)
    ensures Good(Alloc(t, 0).0, lo, hi) <==> EmptySlot(t, 0) == POOL_MAX || forall i :: 0 <= i < |t| ==> !Spare(t[i])
  {
    var k := Best(t, 0, |t|);
    if k >= 0 {
      var (r, addr) := Alloc(t, 0);
      assert Spare(t[k]) && t[k].pages > 0;
      if EmptySlot(t, 0) < POOL_MAX {
        assert Live(r[k]) && r[k].pages == 0;
        assert !Tiled(r, lo, hi);
      } else {
        MarkTiled(t, lo, hi, k, true);
        hide Tiled;
        assert SparesApart(r, -1);
      }
    } else {
      assert forall i :: 0 <= i < |t| && Spare(t[i]) ==> Fits(t[i], 0);
    }
  }

  /** The table as a request for no pages leaves it when it splits. */
  lemma NoneSplits(t: seq<Entry>, k: nat, s: nat)
    requires k == Best(t, 0, |t|) && s == EmptySlot(t, 0) && s < POOL_MAX && k < |t| && t[k].pages > 0
    ensures s != k
    ensures var (r, a) := Alloc(t, 0);
            && a == t[k].addr && r == Put(t, s, Entry(a, t[k].pages, false))[k := Entry(a, 0, true)]
            && |r| == (if s == |t| then |t| + 1 else |t|)
            && r[k] == Entry(a, 0, true) && r[s] == Entry(a, t[k].pages, false)
            && forall i :: 0 <= i < |t| && i != k && i != s ==> r[i] == t[i]
  {
  }

  /** Merging its zero-page run back: nothing happens before the split-off rest comes up, and nothing
      after it has been taken in. */
  lemma {:induction false} MergeBack(t: seq<Entry>, lo: nat, hi: nat, k: nat, s: nat, m: seq<Entry>, n: nat)
    requires Good(t, lo, hi) && k < |t| && Spare(t[k]) && s <= |t| && s != k && (s < |t| ==> !Live(t[s]))
    requires |m| == (if s == |t| then |t| + 1 else |t|) && n <= |m|
    requires m[k] == Entry(t[k].addr, 0, false) && m[s] == t[k]
    requires forall i :: 0 <= i < |t| && i != k && i != s ==> m[i] == t[i]
    ensures MergeUpTo(m, k, n) == if n <= s then m else m[k := t[k]][s := m[s].(addr := 0)]
  {
    if n > 0 {
      MergeBack(t, lo, hi, k, s, m, n - 1);
      var j := n - 1;
      if j != k && j != s && Spare(t[j]) {
        assert Apart(t[j], t[k]) && !Touch(t[j], t[k]) && t[j].pages > 0 && t[k].pages > 0;
      }
    }
  }

  /** A dead entry more or less changes nothing. */
  lemma DeadEntryGood(t: seq<Entry>, lo: nat, hi: nat, s: nat, f: seq<Entry>)
    requires Good(t, lo, hi) && s <= |t| && (s < |t| ==> !Live(t[s])) && |f| <= POOL_MAX
    requires |f| == (if s == |t| then |t| + 1 else |t|) && !Live(f[s])
    requires forall i :: 0 <= i < |t| && i != s ==> f[i] == t[i]
    ensures Good(f, lo, hi)
  {
    forall x | lo <= x < hi ensures Covered(f, x) {
      assert Covered(t, x);
      var i :| 0 <= i < |t| && Holds(t[i], x);
      assert Holds(f[i], x);
    }
    forall i, j | 0 <= i < |f| && 0 <= j < |f| && i != j && Spare(f[i]) && Spare(f[j]) ensures !Touch(f[i], f[j]) {
      assert !Touch(t[i], t[j]);
    }
  }

  /** A request for no pages that is given back at once leaves the slab as it was. */
  lemma NoneUndone(t: seq<Entry>, lo: nat, hi: nat)
    requires Good(t, lo, hi) && Best(t, 0, |t|) >= 0 && EmptySlot(t, 0) < POOL_MAX
    ensures var f := Free(Alloc(t, 0).0, Alloc(t, 0).1);
            && Good(f, lo, hi) && |f| >= |t|
            && (forall i :: 0 <= i < |t| && Live(t[i]) ==> f[i] == t[i])
            && (forall i :: 0 <= i < |f| && Live(f[i]) ==> i < |t| && f[i] == t[i])
  {
    var k, s := Best(t, 0, |t|), EmptySlot(t, 0);
    assert Spare(t[k]) && t[k].pages > 0;
    NoneSplits(t, k, s);
    var (r, a) := Alloc(t, 0);
    assert forall i :: 0 <= i < |t| && i != k && Live(t[i]) ==> t[i].addr != a by {
      assert forall i :: 0 <= i < |t| && i != k && Live(t[i]) ==> Apart(t[i], t[k]);
    }
    hide Alloc, Best, EmptySlot, Tiled, SparesApart;
    assert UsedAt(r, a, 0) == k;
    var m := r[k := r[k].(used := false)];
    MergeBack(t, lo, hi, k, s, m, |m|);
    var f := m[k := t[k]][s := m[s].(addr := 0)];
    assert f == Free(r, a);
    DeadEntryGood(t, lo, hi, s, f);
  }

  const SLAB: seq<Entry> := [Entry(0, 2, false), Entry(1, 4, false)]
  const SLAB_ZERO: seq<Entry> := [Entry(1, 4, false), Entry(1, 0, true)]
  const SLAB_BOTH: seq<Entry> := [Entry(1, 4, true), Entry(1, 0, true)]

  lemma SlabGood()
    ensures Good(SLAB, 1, 5)
  {
    forall x | 1 <= x < 5 ensures Covered(SLAB, x) {
      assert Holds(SLAB[1], x);
    }
  }

  lemma ZeroStep()
    ensures Alloc(SLAB, 0) == (SLAB_ZERO, 1)
  {
    assert Best(SLAB, 0, 0) == -1 && Best(SLAB, 0, 1) == -1 && Best(SLAB, 0, 2) == 1;
    assert EmptySlot(SLAB, 0) == 0;
    assert Put(SLAB, 0, Entry(1, 4, false))[1 := Entry(1, 0, true)] == SLAB_ZERO;
  }

  lemma FourStep()
    ensures Alloc(SLAB_ZERO, 4) == (SLAB_BOTH, 1)
  {
    assert Best(SLAB_ZERO, 4, 0) == -1 && Best(SLAB_ZERO, 4, 1) == 0 && Best(SLAB_ZERO, 4, 2) == 0;
    assert SLAB_ZERO[0 := Entry(1, 4, true)] == SLAB_BOTH;
  }

  lemma FreeStep()
    ensures Free(SLAB_BOTH, 1) == SLAB_ZERO
  {
    assert UsedAt(SLAB_BOTH, 1, 0) == 0;
    assert SLAB_BOTH[0 := Entry(1, 4, false)] == SLAB_ZERO;
    assert MergeUpTo(SLAB_ZERO, 0, 0) == SLAB_ZERO && MergeUpTo(SLAB_ZERO, 0, 1) == SLAB_ZERO;
    assert MergeUpTo(SLAB_ZERO, 0, 2) == SLAB_ZERO;
  }

  /** Why it matters: a run of no pages shares its address with the run behind it. Releasing it then
      releases that other run, still in use, and the next request is given the same pages. */
  lemma ZeroPagesAlias()
    ensures Good(SLAB, 1, 5)
    ensures Alloc(SLAB, 0).1 == 1 && Alloc(Alloc(SLAB, 0).0, 4).1 == 1
    ensures Alloc(Free(Alloc(Alloc(SLAB, 0).0, 4).0, 1), 4).1 == 1
  {
    hide Good, Alloc, Free;
    SlabGood();
    ZeroStep();
    FourStep();
    FreeStep();
  }
}
