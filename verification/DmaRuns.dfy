/** Every call keeps the nodes tiling their block, and a pinned node survives everything but its
    last unpin. */
module DmaRuns {
  import opened Options
  import opened Tiling
  import opened Dma

  // ----- adjacency

  predicate PairsBut(ns: seq<Node>, x: set<int>) {
    forall j :: 0 <= j < |ns| - 1 && j !in x ==> PairOk(ns, Reusable, j)
  }

  lemma RetagPairs(ns: seq<Node>, k: nat, t: Hold)
    requires Apart(ns, Reusable) && k < |ns|
    ensures PairsBut(Retag(ns, k, t), {k - 1, k})
  {
    var r := Retag(ns, k, t);
    forall j | 0 <= j < |r| - 1 && j !in {k - 1, k} ensures PairOk(r, Reusable, j) {
      assert PairOk(ns, Reusable, j);
    }
  }

  lemma MergePrevPairs(ns: seq<Node>, i: nat)
    requires i < |ns| && PairsBut(ns, {i - 1, i})
    ensures var (a, k) := MergePrev(ns, i); k < |a| && PairsBut(a, {k})
  {
    var (a, k) := MergePrev(ns, i);
    forall j | 0 <= j < |a| - 1 && j != k ensures PairOk(a, Reusable, j) {
      if k == i {
        if j != i - 1 {
          assert PairOk(ns, Reusable, j);
        }
      } else if j < k {
        assert PairOk(ns, Reusable, j);
      } else {
        assert PairOk(ns, Reusable, j + 1);
      }
    }
  }

  lemma {:induction false} MergeNextsPairs(ns: seq<Node>, i: nat)
    requires i < |ns| && Reusable(ns[i].tag) && PairsBut(ns, {i})
    ensures Apart(MergeNexts(ns, i), Reusable)
  {
    if i + 1 < |ns| && Reusable(ns[i + 1].tag) {
      var a := Join(ns, i, FREE);
      forall j | 0 <= j < |a| - 1 ensures PairOk(a, Reusable, j) {
        assert PairOk(ns, Reusable, if j < i then j else j + 1);
      }
      assert i + 1 < |a| ==> PairOk(a, Reusable, i);
      assert MergeNexts(a, i) == a;
    } else {
      forall j | 0 <= j < |ns| - 1 ensures PairOk(ns, Reusable, j) {
        assert j != i ==> PairOk(ns, Reusable, j);
      }
    }
  }

  lemma MergeNextsTiles(ns: seq<Node>, lo: nat, hi: nat, i: nat)
    requires Tiles(ns, lo, hi) && i < |ns|
    ensures Tiles(MergeNexts(ns, i), lo, hi)
    decreases |ns|
  {
    if i + 1 < |ns| && Reusable(ns[i + 1].tag) {
      JoinOwners(ns, lo, hi, i, FREE);
      MergeNextsTiles(Join(ns, i, FREE), lo, hi, i);
    }
  }

  lemma CoalesceGood(ns: seq<Node>, lo: nat, hi: nat, i: nat)
    requires Tiles(ns, lo, hi) && i < |ns| && PairsBut(ns, {i - 1, i})
    ensures Good(Coalesce(ns, i), lo, hi)
  {
    if Reusable(ns[i].tag) {
      if i > 0 {
        JoinOwners(ns, lo, hi, i - 1, FREE);
      }
      MergePrevPairs(ns, i);
      var (a, k) := MergePrev(ns, i);
      MergeNextsTiles(a, lo, hi, k);
      MergeNextsPairs(a, k);
    } else {
      forall j | 0 <= j < |ns| - 1 ensures PairOk(ns, Reusable, j) {
        assert j !in {i - 1, i} ==> PairOk(ns, Reusable, j);
      }
    }
  }

  // ----- the calls on one block

  lemma AllocGood(ns: seq<Node>, lo: nat, hi: nat, pid: int, size: Size)
    requires Good(ns, lo, hi) && pid != 0 && PageUp(size) > 0
    ensures var (a, k) := Alloc(ns, pid, size); Good(a, lo, hi)
    ensures var (a, k) := Alloc(ns, pid, size);
            k < |ns| ==> k < |a| && a[k] == Run(ns[k].start, PageUp(size), Hold(pid, 0)) && Reusable(ns[k].tag)
  {
    var n := PageUp(size);
    var k := FirstRoom(ns, n, 0);
    if k < |ns| {
      if k + 1 < |ns| {
        assert PairOk(ns, Reusable, k);
      }
      if n < ns[k].size {
        CutOwners(ns, lo, hi, k, n, Hold(pid, 0), FREE);
        assert Carve(ns, k, n, pid) == Cut(ns, k, n, Hold(pid, 0), FREE);
        var mid := [Run(ns[k].start, n, Hold(pid, 0)), Run(ns[k].start + n, ns[k].size - n, FREE)];
        ApartSplice(ns, Reusable, k, 1, mid);
      } else {
        RetagOwners(ns, lo, hi, k, Hold(pid, 0));
        var mid := [ns[k].(tag := Hold(pid, 0))];
        ApartSplice(ns, Reusable, k, 1, mid);
        assert Retag(ns, k, Hold(pid, 0)) == ns[..k] + mid + ns[k + 1..];
      }
    }
  }

  /** An allocation that finds room leaves the nodes tiling with its own node out of reuse exactly for
      a caller other than pid 0 and a size from 1 to 0xfffff000; finding none it changes nothing. */
  lemma AllocGoodExactly(ns: seq<Node>, lo: nat, hi: nat, pid: int, size: Size)
    requires Good(ns, lo, hi)
    ensures var (a, k) := Alloc(ns, pid, size);
            if k == |ns| then a == ns
            else k < |a| && ((Good(a, lo, hi) && !Reusable(a[k].tag)) <==> (pid != 0 && 0 < size <= 0xffff_f000))
  {
    PageUpExact(size);
    hide PageUp, Good;
    var (a, k) := Alloc(ns, pid, size);
    if pid != 0 && PageUp(size) > 0 {
      AllocGood(ns, lo, hi, pid, size);
    } else if k < |ns| {
      NodeSolid(ns, lo, hi, k);
      assert a[k].tag == Hold(pid, 0) && (PageUp(size) == 0 ==> a[k].size == 0);
      if Good(a, lo, hi) {
        NodeSolid(a, lo, hi, k);
      }
    }
  }

  lemma NodeSolid(ns: seq<Node>, lo: nat, hi: nat, k: nat)
    requires Good(ns, lo, hi) && k < |ns|
    ensures ns[k].size > 0
  {
    RunBounds(ns, lo, hi, k);
  }

  lemma FreeGood(ns: seq<Node>, lo: nat, hi: nat, pid: int, addr: nat)
    requires Good(ns, lo, hi)
    ensures Good(Free(ns, pid, addr), lo, hi)
  {
    var k := Owned(ns, pid, addr, 0);
    if k < |ns| {
      var t := ns[k].tag.(pid := 0);
      RetagOwners(ns, lo, hi, k, t);
      RetagPairs(ns, k, t);
      CoalesceGood(Retag(ns, k, t), lo, hi, k);
    }
  }

  lemma UnpinGood(ns: seq<Node>, lo: nat, hi: nat, addr: nat)
    requires Good(ns, lo, hi)
    ensures Good(Unpin(ns, addr).0, lo, hi)
  {
    var k := PinnedAt(ns, addr, 0);
    if k < |ns| {
      var t := ns[k].tag.(pins := ns[k].tag.pins - 1);
      RetagOwners(ns, lo, hi, k, t);
      RetagPairs(ns, k, t);
      CoalesceGood(Retag(ns, k, t), lo, hi, k);
    }
  }

  lemma PinGood(ns: seq<Node>, lo: nat, hi: nat, pid: int, addr: nat, size: nat)
    requires Good(ns, lo, hi)
    ensures Good(Pin(ns, pid, addr, size).0, lo, hi)
  {
    if pid != 0 && size != 0 {
      var k := Pinnable(ns, pid, addr, size, 0);
      if k < |ns| {
        var t := ns[k].tag.(pins := ns[k].tag.pins + 1);
        RetagOwners(ns, lo, hi, k, t);
        var r := Retag(ns, k, t);
        forall j | 0 <= j < |r| - 1 ensures PairOk(r, Reusable, j) {
          assert PairOk(ns, Reusable, j);
        }
      }
    }
  }

  lemma {:induction false} ReleaseGood(done: seq<Node>, rest: seq<Node>, lo: nat, mid: nat, hi: nat, pid: int)
    requires Good(done, lo, mid) && Tiles(rest, mid, hi)
    ensures Good(Release(done, rest, pid), lo, hi)
    decreases |rest|
  {
    if rest != [] {
      var d := Disowned(rest[0], pid);
      TilesStep(rest, mid, hi);
      var n := |done| - 1;
      if Reusable(d.tag) && done != [] && Reusable(done[n].tag) {
        var m := done[n].(size := done[n].size + d.size);
        DropLastTiles(done, lo, mid);
        AppendTiles(done[..n], lo, done[n].start, m);
        ReplaceLastApart(done, m);
        ReleaseGood(done[..n] + [m], rest[1..], lo, End(m), hi, pid);
      } else {
        AppendTiles(done, lo, mid, d);
        AppendApart(done, d);
        ReleaseGood(done + [d], rest[1..], lo, End(d), hi, pid);
      }
    }
  }

  lemma ReplaceLastApart(ns: seq<Node>, m: Node)
    requires Apart(ns, Reusable) && ns != [] && m.tag == ns[|ns| - 1].tag
    ensures Apart(ns[..|ns| - 1] + [m], Reusable)
  {
    var r := ns[..|ns| - 1] + [m];
    forall j | 0 <= j < |r| - 1 ensures PairOk(r, Reusable, j) {
      assert PairOk(ns, Reusable, j);
    }
  }

  lemma AppendApart(ns: seq<Node>, d: Node)
    requires Apart(ns, Reusable) && (ns == [] || !Reusable(d.tag) || !Reusable(ns[|ns| - 1].tag))
    ensures Apart(ns + [d], Reusable)
  {
    var r := ns + [d];
    forall j | 0 <= j < |r| - 1 ensures PairOk(r, Reusable, j) {
      if j + 1 < |ns| {
        assert PairOk(ns, Reusable, j);
      }
    }
  }

  // ----- the chain, whatever was asked for

  lemma {:induction false} ChainOrdered(ns: seq<Node>, lo: nat, hi: nat, i: nat, j: nat)
    requires Chain(ns, lo, hi) && i < j < |ns|
    ensures End(ns[i]) <= ns[j].start
    decreases j
  {
    assert Linked(ns, j - 1);
    if i < j - 1 {
      ChainOrdered(ns, lo, hi, i, j - 1);
    }
  }

  lemma CarveChain(ns: seq<Node>, lo: nat, hi: nat, k: nat, n: nat, pid: int)
    requires Chain(ns, lo, hi) && k < |ns| && n < ns[k].size
    ensures Chain(Carve(ns, k, n, pid), lo, hi)
  {
    var r := Carve(ns, k, n, pid);
    assert r[|r| - 1] == if k == |ns| - 1 then r[k + 1] else ns[|ns| - 1];
    forall i | 0 <= i < |r| - 1 ensures Linked(r, i) {
      if i < k {
        assert Linked(ns, i);
      } else if i > k {
        assert i < |ns| && (i > k + 1 ==> r[i] == ns[i - 1]) && r[i + 1] == ns[i];
        assert Linked(ns, i - 1);
      }
    }
    forall i | 0 <= i < |r| && r[i].tag.pins > 0 ensures r[i].size > 0 {
      assert r[i] == ns[if i < k then i else i - 1];
    }
  }

  lemma RetagChain(ns: seq<Node>, lo: nat, hi: nat, k: nat, t: Hold)
    requires Chain(ns, lo, hi) && k < |ns| && (t.pins > 0 ==> ns[k].size > 0)
    ensures Chain(Retag(ns, k, t), lo, hi)
  {
    var r := Retag(ns, k, t);
    forall i | 0 <= i < |r| - 1 ensures Linked(r, i) {
      assert Linked(ns, i);
    }
  }

  lemma JoinChain(ns: seq<Node>, lo: nat, hi: nat, k: nat)
    requires Chain(ns, lo, hi) && k + 1 < |ns|
    ensures Chain(Join(ns, k, FREE), lo, hi)
  {
    var r := Join(ns, k, FREE);
    assert Linked(ns, k);
    forall i | 0 <= i < |r| - 1 ensures Linked(r, i) {
      assert Linked(ns, if i < k then i else i + 1);
    }
    forall i | 0 <= i < |r| && r[i].tag.pins > 0 ensures r[i].size > 0 {
      assert r[i] == ns[if i < k then i else i + 1];
    }
  }

  lemma {:induction false} MergeNextsChain(ns: seq<Node>, lo: nat, hi: nat, i: nat)
    requires Chain(ns, lo, hi) && i < |ns|
    ensures Chain(MergeNexts(ns, i), lo, hi)
    decreases |ns|
  {
    hide Chain;
    if i + 1 < |ns| && Reusable(ns[i + 1].tag) {
      JoinChain(ns, lo, hi, i);
      MergeNextsChain(Join(ns, i, FREE), lo, hi, i);
    }
  }

  lemma CoalesceChain(ns: seq<Node>, lo: nat, hi: nat, i: nat)
    requires Chain(ns, lo, hi) && i < |ns|
    ensures Chain(Coalesce(ns, i), lo, hi)
  {
    hide Chain;
    if Reusable(ns[i].tag) {
      if i > 0 {
        JoinChain(ns, lo, hi, i - 1);
      }
      var (a, k) := MergePrev(ns, i);
      if k < |a| {
        MergeNextsChain(a, lo, hi, k);
      }
    }
  }

  lemma ReleaseNext(done: seq<Node>, rest: seq<Node>, lo: nat, hi: nat, pid: int)
    requires Chain(done + rest, lo, hi) && rest != []
    ensures var d := Disowned(rest[0], pid);
            var n := |done| - 1;
            var kept := if Reusable(d.tag) && done != [] && Reusable(done[n].tag)
                        then done[..n] + [done[n].(size := done[n].size + d.size)] else done + [d];
            Chain(kept + rest[1..], lo, hi)
  {
    var ns := done + rest;
    var d, n := Disowned(rest[0], pid), |done| - 1;
    RetagChain(ns, lo, hi, |done|, d.tag);
    var a := Retag(ns, |done|, d.tag);
    assert a == done + [d] + rest[1..];
    if Reusable(d.tag) && done != [] && Reusable(done[n].tag) {
      JoinChain(a, lo, hi, n);
      assert Join(a, n, FREE) == done[..n] + [done[n].(size := done[n].size + d.size)] + rest[1..];
    }
  }

  lemma {:induction false} ReleaseChain(done: seq<Node>, rest: seq<Node>, lo: nat, hi: nat, pid: int)
    requires Chain(done + rest, lo, hi)
    ensures Chain(Release(done, rest, pid), lo, hi)
    decreases |rest|
  {
    hide Chain;
    if rest != [] {
      ReleaseNext(done, rest, lo, hi, pid);
      var d, n := Disowned(rest[0], pid), |done| - 1;
      if Reusable(d.tag) && done != [] && Reusable(done[n].tag) {
        ReleaseChain(done[..n] + [done[n].(size := done[n].size + d.size)], rest[1..], lo, hi, pid);
      } else {
        ReleaseChain(done + [d], rest[1..], lo, hi, pid);
      }
    } else {
      assert done + rest == done;
    }
  }

  lemma AllocChain(ns: seq<Node>, lo: nat, hi: nat, pid: int, size: Size)
    requires Chain(ns, lo, hi)
    ensures Chain(Alloc(ns, pid, size).0, lo, hi)
  {
    hide Chain, PageUp;
    var n := PageUp(size);
    var k := FirstRoom(ns, n, 0);
    if k < |ns| {
      if n < ns[k].size {
        CarveChain(ns, lo, hi, k, n, pid);
      } else {
        RetagChain(ns, lo, hi, k, Hold(pid, 0));
      }
    }
  }

  lemma FreeChain(ns: seq<Node>, lo: nat, hi: nat, pid: int, addr: nat)
    requires Chain(ns, lo, hi)
    ensures Chain(Free(ns, pid, addr), lo, hi)
  {
    var k := Owned(ns, pid, addr, 0);
    if k < |ns| {
      RetagChain(ns, lo, hi, k, ns[k].tag.(pid := 0));
      CoalesceChain(Retag(ns, k, ns[k].tag.(pid := 0)), lo, hi, k);
    }
  }

  lemma PinChain(ns: seq<Node>, lo: nat, hi: nat, pid: int, addr: nat, size: nat)
    requires Chain(ns, lo, hi)
    ensures Chain(Pin(ns, pid, addr, size).0, lo, hi)
  {
    if pid != 0 && size != 0 {
      var k := Pinnable(ns, pid, addr, size, 0);
      if k < |ns| {
        RetagChain(ns, lo, hi, k, ns[k].tag.(pins := ns[k].tag.pins + 1));
      }
    }
  }

  lemma UnpinChain(ns: seq<Node>, lo: nat, hi: nat, addr: nat)
    requires Chain(ns, lo, hi)
    ensures Chain(Unpin(ns, addr).0, lo, hi)
  {
    var k := PinnedAt(ns, addr, 0);
    if k < |ns| {
      var t := ns[k].tag.(pins := ns[k].tag.pins - 1);
      RetagChain(ns, lo, hi, k, t);
      CoalesceChain(Retag(ns, k, t), lo, hi, k);
    }
  }

  // ----- pinned nodes stay

  /** A node at [start, start + size) with at least `p` pins. */
  predicate PinnedNode(d: Node, start: nat, size: nat, p: nat) {
    d.start == start && d.size == size && d.tag.pins >= p
  }

  predicate Held(ns: seq<Node>, start: nat, size: nat, p: nat) {
    exists i :: 0 <= i < |ns| && PinnedNode(ns[i], start, size, p)
  }

  lemma JoinHeld(ns: seq<Node>, i: nat, start: nat, size: nat, p: nat)
    requires i + 1 < |ns| && Reusable(ns[i].tag) && Reusable(ns[i + 1].tag) && p > 0 && Held(ns, start, size, p)
    ensures Held(Join(ns, i, FREE), start, size, p)
  {
    var j :| 0 <= j < |ns| && PinnedNode(ns[j], start, size, p);
    assert j != i && j != i + 1;
    var r := Join(ns, i, FREE);
    assert r[if j < i then j else j - 1] == ns[j];
  }

  lemma {:induction false} MergeNextsHeld(ns: seq<Node>, i: nat, start: nat, size: nat, p: nat)
    requires i < |ns| && Reusable(ns[i].tag) && p > 0 && Held(ns, start, size, p)
    ensures Held(MergeNexts(ns, i), start, size, p)
    decreases |ns|
  {
    if i + 1 < |ns| && Reusable(ns[i + 1].tag) {
      JoinHeld(ns, i, start, size, p);
      MergeNextsHeld(Join(ns, i, FREE), i, start, size, p);
    }
  }

  lemma CoalesceHeld(ns: seq<Node>, i: nat, start: nat, size: nat, p: nat)
    requires i < |ns| && p > 0 && Held(ns, start, size, p)
    ensures Held(Coalesce(ns, i), start, size, p)
  {
    if Reusable(ns[i].tag) {
      if i > 0 && Reusable(ns[i - 1].tag) {
        JoinHeld(ns, i - 1, start, size, p);
      }
      var (a, k) := MergePrev(ns, i);
      if k < |a| {
        MergeNextsHeld(a, k, start, size, p);
      }
    }
  }

  lemma RetagHeld(ns: seq<Node>, k: nat, t: Hold, start: nat, size: nat, p: nat)
    requires k < |ns| && Held(ns, start, size, p) && (PinnedNode(ns[k], start, size, p) ==> t.pins >= p)
    ensures Held(Retag(ns, k, t), start, size, p)
  {
    var j :| 0 <= j < |ns| && PinnedNode(ns[j], start, size, p);
    assert PinnedNode(Retag(ns, k, t)[j], start, size, p);
  }

  lemma AllocHeld(ns: seq<Node>, pid: int, size: Size, start: nat, len: nat, p: nat)
    requires p > 0 && Held(ns, start, len, p)
    ensures Held(Alloc(ns, pid, size).0, start, len, p)
  {
    var (a, k) := Alloc(ns, pid, size);
    var j :| 0 <= j < |ns| && PinnedNode(ns[j], start, len, p);
    if k < |ns| {
      assert j != k;
      if PageUp(size) < ns[k].size {
        assert a[if j < k then j else j + 1] == ns[j];
      } else {
        assert a[j] == ns[j];
      }
    }
  }

  /** A free, whether by its owner or anyone, leaves a pinned node where it is. */
  lemma FreeHeld(ns: seq<Node>, pid: int, addr: nat, start: nat, size: nat, p: nat)
    requires p > 0 && Held(ns, start, size, p)
    ensures Held(Free(ns, pid, addr), start, size, p)
  {
    var k := Owned(ns, pid, addr, 0);
    if k < |ns| {
      RetagHeld(ns, k, ns[k].tag.(pid := 0), start, size, p);
      CoalesceHeld(Retag(ns, k, ns[k].tag.(pid := 0)), k, start, size, p);
    }
  }

  lemma PinHeld(ns: seq<Node>, pid: int, addr: nat, n: nat, start: nat, size: nat, p: nat)
    requires p > 0 && Held(ns, start, size, p)
    ensures Held(Pin(ns, pid, addr, n).0, start, size, p)
  {
    if pid != 0 && n != 0 {
      var k := Pinnable(ns, pid, addr, n, 0);
      if k < |ns| && ns[k].tag.pins < PINS_MAX {
        RetagHeld(ns, k, ns[k].tag.(pins := ns[k].tag.pins + 1), start, size, p);
      }
    }
  }

  /** An unpin takes one pin from the node it names and none from any other. */
  lemma UnpinHeld(ns: seq<Node>, lo: nat, hi: nat, addr: nat, start: nat, size: nat, p: nat)
    requires Chain(ns, lo, hi) && p > 0 && Held(ns, start, size, p)
    ensures addr != start ==> Held(Unpin(ns, addr).0, start, size, p)
    ensures addr == start && p > 1 ==> Held(Unpin(ns, addr).0, start, size, p - 1)
  {
    var k := PinnedAt(ns, addr, 0);
    if k < |ns| {
      var t := ns[k].tag.(pins := ns[k].tag.pins - 1);
      if addr != start {
        RetagHeld(ns, k, t, start, size, p);
        CoalesceHeld(Retag(ns, k, t), k, start, size, p);
      } else if p > 1 {
        var j :| 0 <= j < |ns| && PinnedNode(ns[j], start, size, p);
        SameStart(ns, lo, hi, j, k);
        assert PinnedNode(ns[j], start, size, p - 1);
        RetagHeld(ns, k, t, start, size, p - 1);
        CoalesceHeld(Retag(ns, k, t), k, start, size, p - 1);
      }
    } else if p > 1 {
      var j :| 0 <= j < |ns| && PinnedNode(ns[j], start, size, p);
      assert PinnedNode(ns[j], start, size, p - 1);
    }
  }

  /** Only empty nodes share a base with another, and those are not pinned. */
  lemma SameStart(ns: seq<Node>, lo: nat, hi: nat, j: nat, k: nat)
    requires Chain(ns, lo, hi) && j < |ns| && k < |ns| && ns[j].start == ns[k].start
    requires ns[j].tag.pins > 0 && ns[k].tag.pins > 0
    ensures j == k
  {
    if j < k {
      ChainOrdered(ns, lo, hi, j, k);
    } else if k < j {
      ChainOrdered(ns, lo, hi, k, j);
    }
  }

  lemma {:induction false} ReleaseHeld(done: seq<Node>, rest: seq<Node>, pid: int, start: nat, size: nat, p: nat)
    requires p > 0 && (Held(done, start, size, p) || Held(rest, start, size, p))
    ensures Held(Release(done, rest, pid), start, size, p)
    decreases |rest|
  {
    if rest != [] {
      var d := Disowned(rest[0], pid);
      var n := |done| - 1;
      var next := if Reusable(d.tag) && done != [] && Reusable(done[n].tag)
                  then done[..n] + [done[n].(size := done[n].size + d.size)] else done + [d];
      if Held(done, start, size, p) {
        var j :| 0 <= j < |done| && PinnedNode(done[j], start, size, p);
        assert PinnedNode(next[j], start, size, p);
      } else {
        var j :| 0 <= j < |rest| && PinnedNode(rest[j], start, size, p);
        if j == 0 {
          assert PinnedNode(next[|done|], start, size, p);
        } else {
          assert PinnedNode(rest[1..][j - 1], start, size, p);
        }
      }
      ReleaseHeld(next, rest[1..], pid, start, size, p);
    }
  }

  // ----- whole runs

  datatype Event =
    | EAlloc(id: nat, pid: int, size: Size)
    | EFree(id: nat, pid: int, addr: nat)
    | EPin(id: nat, pid: int, addr: nat, size: Size)
    | EUnpin(id: nat, addr: nat)
    | ERelease(pid: int)
    | ESet(pid: int, base: nat, size: Size, dead: set<int>)

  /** Allocations come from tasks with a non-zero pid and ask for a size that rounds to some pages. */
  predicate Sensible(e: Event) {
    e.EAlloc? ==> e.pid != 0 && 0 < e.size <= 0xffff_f000
  }

  function WithNodes(bs: seq<Block>, id: nat, ns: seq<Node>): seq<Block>
    requires id < |bs|
  {
    bs[id := bs[id].(nodes := ns)]
  }

  function Next(bs: seq<Block>, e: Event): seq<Block> {
    match e
    case EAlloc(id, pid, size) => if id < |bs| then WithNodes(bs, id, Alloc(bs[id].nodes, pid, size).0) else bs
    case EFree(id, pid, addr) => if id < |bs| then WithNodes(bs, id, Free(bs[id].nodes, pid, addr)) else bs
    case EPin(id, pid, addr, size) => if id < |bs| then WithNodes(bs, id, Pin(bs[id].nodes, pid, addr, size).0) else bs
    case EUnpin(id, addr) => if id < |bs| then WithNodes(bs, id, Unpin(bs[id].nodes, addr).0) else bs
    case ERelease(pid) => seq(|bs|, i requires 0 <= i < |bs| => bs[i].(nodes := Release([], bs[i].nodes, pid)))
    case ESet(pid, base, size, dead) =>
      match RangeSize(base, size)
      case None => bs
      case Some(n) => Registered(bs, pid, base, n, dead, 0).0
  }

  predicate Chained(b: Block) {
    Chain(b.nodes, b.base, b.base + b.size)
  }

  predicate AllChained(bs: seq<Block>) {
    forall i :: 0 <= i < |bs| ==> Chained(bs[i])
  }

  /** A block registered without a byte has nothing to tile. */
  predicate Sound(b: Block) {
    b.size > 0 ==> Good(b.nodes, b.base, b.base + b.size)
  }

  predicate AllGood(bs: seq<Block>) {
    forall i :: 0 <= i < |bs| ==> Sound(bs[i])
  }

  lemma OneNode(pid: int, base: nat, size: nat)
    ensures var b := Block(base, size, pid, [Run(base, size, FREE)]); Chained(b) && Sound(b)
  {
    var ns := [Run(base, size, FREE)];
    assert ns[1..] == [];
    assert Apart(ns, Reusable);
    assert size > 0 ==> Tiles(ns, base, base + size);
  }

  lemma {:induction false} RegisteredGood(bs: seq<Block>, pid: int, base: nat, size: nat, dead: set<int>, i: nat)
    requires i <= |bs|
    ensures AllChained(bs) ==> AllChained(Registered(bs, pid, base, size, dead, i).0)
    ensures AllGood(bs) ==> AllGood(Registered(bs, pid, base, size, dead, i).0)
    decreases |bs| - i
  {
    OneNode(pid, base, size);
    hide Sound, Chained;
    if i < |bs| && Registered(bs, pid, base, size, dead, i) == Registered(bs, pid, base, size, dead, i + 1) {
      RegisteredGood(bs, pid, base, size, dead, i + 1);
    }
  }

  /** Pins refuse a re-registration, so the block's nodes are as they were. */
  lemma {:induction false} RegisteredHeld(bs: seq<Block>, pid: int, base: nat, size: nat, dead: set<int>, i: nat,
                                          id: nat, start: nat, len: nat, p: nat)
    requires i <= |bs| && id < |bs| && p > 0 && Held(bs[id].nodes, start, len, p)
    ensures var r := Registered(bs, pid, base, size, dead, i).0; id < |r| && r[id].nodes == bs[id].nodes
    decreases |bs| - i
  {
    var k :| 0 <= k < |bs[id].nodes| && PinnedNode(bs[id].nodes[k], start, len, p);
    if i < |bs| {
      RegisteredHeld(bs, pid, base, size, dead, i + 1, id, start, len, p);
    }
  }

  lemma NextGood(bs: seq<Block>, e: Event)
    requires AllGood(bs) && Sensible(e)
    ensures AllGood(Next(bs, e))
  {
    hide Good, Alloc, Free, Pin, Unpin, Release, Registered, PageUp, RangeSize;
    match e
    case EAlloc(id, pid, size) =>
      if id < |bs| && bs[id].size > 0 {
        PageUpExact(size);
        AllocGood(bs[id].nodes, bs[id].base, bs[id].base + bs[id].size, pid, size);
      }
    case EFree(id, pid, addr) =>
      if id < |bs| && bs[id].size > 0 { FreeGood(bs[id].nodes, bs[id].base, bs[id].base + bs[id].size, pid, addr); }
    case EPin(id, pid, addr, size) =>
      if id < |bs| && bs[id].size > 0 {
        PinGood(bs[id].nodes, bs[id].base, bs[id].base + bs[id].size, pid, addr, size);
      }
    case EUnpin(id, addr) =>
      if id < |bs| && bs[id].size > 0 { UnpinGood(bs[id].nodes, bs[id].base, bs[id].base + bs[id].size, addr); }
    case ERelease(pid) =>
      forall i | 0 <= i < |bs| && bs[i].size > 0
        ensures Good(Release([], bs[i].nodes, pid), bs[i].base, bs[i].base + bs[i].size)
      {
        EmptyGood(bs[i].base);
        GoodTiles(bs[i].nodes, bs[i].base, bs[i].base + bs[i].size);
        ReleaseGood([], bs[i].nodes, bs[i].base, bs[i].base, bs[i].base + bs[i].size, pid);
      }
    case ESet(pid, base, size, dead) =>
      if RangeSize(base, size).Some? {
        RegisteredGood(bs, pid, base, RangeSize(base, size).value, dead, 0);
      }
  }

  lemma NextChained(bs: seq<Block>, e: Event)
    requires AllChained(bs)
    ensures AllChained(Next(bs, e))
  {
    hide Chain, Alloc, Free, Pin, Unpin, Release, Registered, RangeSize;
    match e
    case EAlloc(id, pid, size) =>
      if id < |bs| { AllocChain(bs[id].nodes, bs[id].base, bs[id].base + bs[id].size, pid, size); }
    case EFree(id, pid, addr) =>
      if id < |bs| { FreeChain(bs[id].nodes, bs[id].base, bs[id].base + bs[id].size, pid, addr); }
    case EPin(id, pid, addr, size) =>
      if id < |bs| { PinChain(bs[id].nodes, bs[id].base, bs[id].base + bs[id].size, pid, addr, size); }
    case EUnpin(id, addr) =>
      if id < |bs| { UnpinChain(bs[id].nodes, bs[id].base, bs[id].base + bs[id].size, addr); }
    case ERelease(pid) =>
      forall i | 0 <= i < |bs| ensures Chain(Release([], bs[i].nodes, pid), bs[i].base, bs[i].base + bs[i].size) {
        assert Chained(bs[i]) && [] + bs[i].nodes == bs[i].nodes;
        ReleaseChain([], bs[i].nodes, bs[i].base, bs[i].base + bs[i].size, pid);
      }
    case ESet(pid, base, size, dead) =>
      if RangeSize(base, size).Some? {
        RegisteredGood(bs, pid, base, RangeSize(base, size).value, dead, 0);
      }
  }

  lemma EmptyGood(lo: nat)
    ensures Good([], lo, lo)
  {
  }

  lemma GoodTiles(ns: seq<Node>, lo: nat, hi: nat)
    requires Good(ns, lo, hi)
    ensures Tiles(ns, lo, hi)
  {
  }

  function RunsFrom(bs: seq<Block>, es: seq<Event>): seq<Block> {
    if es == [] then bs else Next(RunsFrom(bs, es[..|es| - 1]), es[|es| - 1])
  }

  /** From an empty block table. */
  function Runs(es: seq<Event>): seq<Block> {
    RunsFrom([], es)
  }

  /** In every reachable state, whatever was asked for, the nodes of every block follow one another
      from end to end of it. */
  lemma {:induction false} DmaRunsChained(es: seq<Event>)
    ensures AllChained(Runs(es))
    decreases |es|
  {
    if es != [] {
      hide Next, AllChained;
      DmaRunsChained(es[..|es| - 1]);
      NextChained(Runs(es[..|es| - 1]), es[|es| - 1]);
    }
  }

  /** When every allocation rounds to some pages for some task, none is ever empty and no two reusable
      ones touch. */
  lemma {:induction false} DmaRunsGood(es: seq<Event>)
    requires forall i :: 0 <= i < |es| ==> Sensible(es[i])
    ensures AllGood(Runs(es))
    decreases |es|
  {
    if es != [] {
      hide Next, AllGood;
      DmaRunsGood(es[..|es| - 1]);
      NextGood(Runs(es[..|es| - 1]), es[|es| - 1]);
    }
  }

  predicate Unpins(e: Event, id: nat, start: nat) {
    e == EUnpin(id, start)
  }

  lemma NextHeld(bs: seq<Block>, e: Event, id: nat, start: nat, size: nat, p: nat)
    requires AllChained(bs) && id < |bs| && p > 0 && Held(bs[id].nodes, start, size, p)
    requires Unpins(e, id, start) ==> p > 1
    ensures id < |Next(bs, e)| && Held(Next(bs, e)[id].nodes, start, size, if Unpins(e, id, start) then p - 1 else p)
  {
    assert Chained(bs[id]);
    hide Chain, Alloc, Free, Pin, Unpin, Release, Registered, RangeSize, Held;
    match e
    case EAlloc(i, pid, n) => if i == id { AllocHeld(bs[id].nodes, pid, n, start, size, p); }
    case EFree(i, pid, addr) => if i == id { FreeHeld(bs[id].nodes, pid, addr, start, size, p); }
    case EPin(i, pid, addr, n) => if i == id { PinHeld(bs[id].nodes, pid, addr, n, start, size, p); }
    case EUnpin(i, addr) =>
      if i == id { UnpinHeld(bs[id].nodes, bs[id].base, bs[id].base + bs[id].size, addr, start, size, p); }
    case ERelease(pid) => ReleaseHeld([], bs[id].nodes, pid, start, size, p);
    case ESet(pid, base, n, dead) =>
      if RangeSize(base, n).Some? {
        RegisteredHeld(bs, pid, base, RangeSize(base, n).value, dead, 0, id, start, size, p);
      }
  }

  function UnpinCount(es: seq<Event>, id: nat, start: nat): nat {
    if es == [] then 0
    else UnpinCount(es[..|es| - 1], id, start) + if Unpins(es[|es| - 1], id, start) then 1 else 0
  }

  /** A node with `p` pins keeps its base and size through any run with fewer than `p` unpins of it:
      frees, the owner's death, repeated registrations and requests for nothing included. */
  lemma {:induction false} PinnedSurvives(bs: seq<Block>, es: seq<Event>, id: nat, start: nat, size: nat, p: nat)
    requires AllChained(bs) && id < |bs| && Held(bs[id].nodes, start, size, p) && UnpinCount(es, id, start) < p
    ensures var r := RunsFrom(bs, es);
            AllChained(r) && id < |r| && Held(r[id].nodes, start, size, p - UnpinCount(es, id, start))
    decreases |es|
  {
    hide AllChained, Next, Held;
    if es != [] {
      var n := |es| - 1;
      PinnedSurvives(bs, es[..n], id, start, size, p);
      var r := RunsFrom(bs, es[..n]);
      NextChained(r, es[n]);
      NextHeld(r, es[n], id, start, size, p - UnpinCount(es[..n], id, start));
    }
  }

  /** Memory handed out overlaps no pinned node and no other node in use of the same block. */
  lemma HandedApart(ns: seq<Node>, lo: nat, hi: nat, pid: int, size: Size, j: nat)
    requires Chain(ns, lo, hi) && j < |ns| && !Reusable(ns[j].tag) && Alloc(ns, pid, size).1 < |ns|
    ensures var (a, k) := Alloc(ns, pid, size);
            k < |a| && a[k].size == PageUp(size) && (End(a[k]) <= ns[j].start || End(ns[j]) <= a[k].start)
  {
    var k := Alloc(ns, pid, size).1;
    hide Chain, PageUp;
    if j < k {
      ChainOrdered(ns, lo, hi, j, k);
    } else {
      assert k != j;
      ChainOrdered(ns, lo, hi, k, j);
    }
  }

  // ----- a request for nothing

  /** Why it matters: task 5 asks for nothing and then for a page, and is given the same address twice.
      The page's size reads as 0, and freeing that address does not free the page. */
  lemma NothingShadows()
    ensures var bs := Runs([ESet(1, 0x1000, 0x4000, {}), EAlloc(0, 5, 0), EAlloc(0, 5, 0x1000)]);
            && |bs| == 1 && Owned(bs[0].nodes, 5, 0x1000, 0) < |bs[0].nodes| && SizeOf(bs[0].nodes, 5, 0x1000) == 0
            && Run(0x1000, 0x1000, Hold(5, 0)) in bs[0].nodes
            && Run(0x1000, 0x1000, Hold(5, 0)) in Free(bs[0].nodes, 5, 0x1000)
  {
    var es := [ESet(1, 0x1000, 0x4000, {}), EAlloc(0, 5, 0), EAlloc(0, 5, 0x1000)];
    var n0 := [Run(0x1000, 0x4000, FREE)];
    var n1 := [Run(0x1000, 0, Hold(5, 0)), Run(0x1000, 0x4000, FREE)];
    var n2 := [Run(0x1000, 0, Hold(5, 0)), Run(0x1000, 0x1000, Hold(5, 0)), Run(0x2000, 0x3000, FREE)];
    assert Runs(es[..0]) == [];
    assert es[..1][..0] == es[..0] && es[..2][..1] == es[..1] && es[..2] == es[..|es| - 1];
    assert Runs(es[..1]) == [Block(0x1000, 0x4000, 1, n0)];
    assert Alloc(n0, 5, 0).0 == n1;
    assert Runs(es[..2]) == [Block(0x1000, 0x4000, 1, n1)];
    assert FirstRoom(n1, 0x1000, 0) == 1 && Alloc(n1, 5, 0x1000).0 == n2;
    assert Runs(es) == [Block(0x1000, 0x4000, 1, n2)];
    assert Owned(n2, 5, 0x1000, 0) == 0;
    var f := Free(n2, 5, 0x1000);
    assert f[1] == n2[1] == Run(0x1000, 0x1000, Hold(5, 0));
  }
}
