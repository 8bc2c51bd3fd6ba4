/** The shared-memory calls as the kernel runs them, loop by loop. */
module ShmTable {
  import opened Options
  import P = ShmPool
  import opened ShmSegments

  class Slab {
    var table: seq<P.Entry>

    constructor (lo: nat, pages: nat)
      ensures table == [P.Entry(lo, pages, false)]
    {
      table := [P.Entry(lo, pages, false)];
    }

    /** `shm_pool_alloc` with `shm_pool_slot`. */
    method Alloc(pages: nat) returns (addr: nat)
      modifies this
      ensures (table, addr) == P.Alloc(old(table), pages)
    {
      var best := -1;
      var i := 0;
      while i < |table|
        invariant 0 <= i <= |table| && best == P.Best(table, pages, i)
      {
        if table[i].addr != 0 && !table[i].used && table[i].pages >= pages
           && (best < 0 || table[i].pages < table[best].pages)
        {
          best := i;
        }
        i := i + 1;
      }
      if best < 0 {
        return 0;
      }
      var e := table[best];
      if e.pages > pages {
        var s := 0;
        while s < |table| && table[s].addr != 0
          invariant 0 <= s <= |table| && P.EmptySlot(table, s) == P.EmptySlot(table, 0)
        {
          s := s + 1;
        }
        if s < P.POOL_MAX {
          table := P.Put(table, s, P.Entry(e.addr + pages, e.pages - pages, false));
          table := table[best := P.Entry(e.addr, pages, true)];
          return e.addr;
        }
      }
      table := table[best := e.(used := true)];
      return e.addr;
    }

    /** `shm_pool_free`. */
    method Free(addr: nat)
      modifies this
      ensures table == P.Free(old(table), addr)
    {
      var i := 0;
      while i < |table| && !(table[i].addr == addr && table[i].used)
        invariant 0 <= i <= |table| && P.UsedAt(table, addr, i) == P.UsedAt(table, addr, 0)
      {
        i := i + 1;
      }
      if i == |table| {
        return;
      }
      table := table[i := table[i].(used := false)];
      ghost var m := table;
      var j := 0;
      while j < |table|
        invariant 0 <= j <= |table| == |m| && table == P.MergeUpTo(m, i, j)
      {
        if j != i && table[j].addr != 0 && !table[j].used {
          var it, nb := table[i], table[j];
          if it.addr + it.pages == nb.addr {
            table := table[i := it.(pages := it.pages + nb.pages)][j := nb.(addr := 0)];
          } else if nb.addr + nb.pages == it.addr {
            table := table[i := it.(addr := nb.addr, pages := it.pages + nb.pages)][j := nb.(addr := 0)];
          }
        }
        j := j + 1;
      }
    }
  }

  class Segments {
    const c: Config
    const slab: Slab
    var segs: seq<Seg>
    var contigTail: nat
    var scatterTail: nat
    var lastId: nat
    var spaces: map<int, seq<nat>>

    constructor (config: Config, pages: nat)
      ensures c == config && fresh(slab)
          && View() == Shm([P.Entry(config.lo, pages, false)], [], config.contigBase, config.scatterBase, 0, map[])
    {
      c := config;
      slab := new Slab(config.lo, pages);
      segs, contigTail, scatterTail, lastId, spaces := [], config.contigBase, config.scatterBase, 0, map[];
    }

    ghost function View(): Shm
      reads this, slab
    {
      Shm(slab.table, segs, contigTail, scatterTail, lastId, spaces)
    }

    /** An address space starts with nothing attached. */
    method AddSpace(p: int, places: nat)
      requires p !in spaces
      modifies this`spaces
      ensures View() == old(View()).(spaces := old(spaces)[p := seq(places, i => 0)])
    {
      spaces := spaces[p := seq(places, i => 0)];
    }

    /** `shm_alloc`. */
    method Make(key: int, size: Size, contig: bool, owner: int, record: bool, mapped: bool) returns (r: Made)
      modifies this, slab
      ensures (View(), r) == Create(c, old(View()), key, size, contig, owner, record, mapped)
    {
      hide P.Alloc, P.Free, Pages, Bytes;
      var pages := Pages(size);
      var phy := 0;
      if contig {
        phy := slab.Alloc(pages);
        if phy == 0 {
          AllocNothing(old(slab.table), pages);
          return Failed;
        }
      }
      var k := 0;
      while k < |segs| && !(!segs[k].used && segs[k].pages >= pages && segs[k].contig == contig)
        invariant 0 <= k <= |segs|
        invariant FirstReusable(segs, pages, contig, k) == FirstReusable(segs, pages, contig, 0)
      {
        k := k + 1;
      }
      if k < |segs| {
        segs := CutBlock(segs, k, pages, record);
        lastId := lastId + 1;
        segs := segs[k := Claimed(segs[k], lastId, key, contig, phy, owner)];
        return Made(lastId);
      }
      var tail := if contig then contigTail else scatterTail;
      if tail * PAGE_SIZE + Bytes(size) >= Top(c, contig) * PAGE_SIZE || !record {
        if contig {
          slab.Free(phy);
        }
        return Failed;
      }
      var s := Seg(0, 0, tail, 0, false, 0, contig, 0, -1);
      if !contig && !mapped {
        segs := segs + [s];
        return Failed;
      }
      lastId := lastId + 1;
      segs := segs + [Claimed(s.(pages := pages), lastId, key, contig, phy, owner)];
      if contig {
        contigTail := contigTail + pages;
      } else {
        scatterTail := scatterTail + pages;
      }
      return Made(lastId);
    }

    /** `free_item`. */
    method Release(k: nat)
      requires k < |segs|
      modifies this`segs, slab
      ensures View() == FreeItem(old(View()), k)
    {
      hide P.Free;
      if segs[k].contig {
        slab.Free(segs[k].phy);
      }
      segs := segs[k := segs[k].(used := false)];
      segs := MergeRight(segs, k);
      segs := MergeLeft(segs, k);
    }

    method Lookup(id: nat) returns (k: nat)
      ensures k == ById(segs, id, 0)
    {
      k := 0;
      while k < |segs| && !(segs[k].used && segs[k].id == id)
        invariant k <= |segs| && ById(segs, id, k) == ById(segs, id, 0)
      {
        k := k + 1;
      }
    }

    method Place(q: seq<nat>, id: nat) returns (k: nat)
      ensures k == Find(q, id, 0)
    {
      k := 0;
      while k < |q| && q[k] != id
        invariant k <= |q| && Find(q, id, k) == Find(q, id, 0)
      {
        k := k + 1;
      }
    }

    /** `shm_proc_map`. */
    method MapInto(p: int, id: nat, mapped: bool)
      modifies this`segs, this`spaces
      ensures View() == Attach(old(View()), p, id, mapped)
    {
      var k := Lookup(id);
      if p !in spaces || k == |segs| || id == 0 {
        return;
      }
      var q := spaces[p];
      var already := Place(q, id);
      var z := Place(q, 0);
      if already < |q| || z == |q| || !mapped {
        return;
      }
      spaces := spaces[p := q[z := id]];
      segs := segs[k := segs[k].(refs := segs[k].refs + 1)];
    }

    /** `shm_proc_unmap_it`. */
    method UnmapFrom(p: int, id: nat, free: bool)
      modifies this`segs, this`spaces, slab
      ensures View() == Detach(old(View()), p, id, free)
    {
      hide FreeItem;
      var k := Lookup(id);
      if p !in spaces || k == |segs| || id == 0 {
        return;
      }
      var q := spaces[p];
      var z := Place(q, id);
      if z == |q| {
        return;
      }
      spaces := spaces[p := q[z := 0]];
      segs := segs[k := segs[k].(refs := segs[k].refs - 1)];
      if free && segs[k].refs <= 0 {
        Release(k);
      }
    }

    /** `shm_proc_unmap`. */
    method UnmapAt(p: int, addr: nat)
      modifies this`segs, this`spaces, slab
      ensures View() == DetachAt(old(View()), p, addr)
    {
      var k := 0;
      while k < |segs| && !(segs[k].used && segs[k].addr == addr)
        invariant 0 <= k <= |segs| && ByAddr(segs, addr, k) == ByAddr(segs, addr, 0)
      {
        k := k + 1;
      }
      if k < |segs| {
        UnmapFrom(p, segs[k].id, true);
      }
    }

    /** `shm_release_orphans`. */
    method ReleaseOrphansOf(owner: int)
      modifies this`segs, slab
      ensures View() == ReleaseOrphans(old(View()), owner, 0)
    {
      hide FreeItem;
      var i := 0;
      while i < |segs|
        invariant 0 <= i <= |segs| && ReleaseOrphans(View(), owner, i) == ReleaseOrphans(old(View()), owner, 0)
        invariant contigTail == old(contigTail) && scatterTail == old(scatterTail) && lastId == old(lastId)
            && spaces == old(spaces)
        decreases |segs| - i
      {
        if segs[i].used && segs[i].owner == owner && segs[i].refs <= 0 {
          var n := if i > 0 && !segs[i - 1].used && segs[i - 1].contig == segs[i].contig then i else i + 1;
          assert n == Resume(View(), i);
          Release(i);
          i := n;
        } else {
          i := i + 1;
        }
      }
    }
  }

  lemma AllocNothing(t: seq<P.Entry>, pages: nat)
    ensures P.Alloc(t, pages).1 == 0 ==> P.Alloc(t, pages).0 == t
  {
  }
}
