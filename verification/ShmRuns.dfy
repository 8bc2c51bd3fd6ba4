/** Creating segments, and whole runs of the shared-memory calls. */
module ShmRuns {
  import opened Options
  import P = ShmPool
  import opened ShmSegments
  import opened ShmInvariant

  // ----- the slab side of a creation

  lemma AllocRun(pool: seq<P.Entry>, lo: nat, hi: nat, pages: nat)
    requires P.Good(pool, lo, hi) && (pages > 0 || P.EmptySlot(pool, 0) == P.POOL_MAX) && P.Alloc(pool, pages).1 != 0
    ensures var (r, a) := P.Alloc(pool, pages); var k := P.Best(pool, pages, |pool|);
            && P.Good(r, lo, hi) && 0 <= k < |pool| <= |r|
            && P.Live(r[k]) && r[k].used && r[k].addr == a && r[k].pages >= pages && !pool[k].used
            && (forall i :: 0 <= i < |pool| && i != k && pool[i].used && P.Live(pool[i]) ==> r[i] == pool[i])
            && (forall i :: 0 <= i < |r| && i != k && r[i].used && P.Live(r[i]) ==> i < |pool| && r[i] == pool[i])
  {
    hide P.Good, P.Alloc, P.Best;
    P.AllocGoodExactly(pool, lo, hi, pages);
    AllocShape(pool, pages);
  }

  /** One entry is marked used where it was, at least as long as asked; no other in use changes. */
  lemma AllocShape(pool: seq<P.Entry>, pages: nat)
    requires P.Alloc(pool, pages).1 != 0
    ensures var (r, a) := P.Alloc(pool, pages); var k := P.Best(pool, pages, |pool|);
            && 0 <= k < |pool| <= |r|
            && P.Live(r[k]) && r[k].used && r[k].addr == a && r[k].pages >= pages && !pool[k].used
            && (forall i :: 0 <= i < |pool| && i != k && pool[i].used && P.Live(pool[i]) ==> r[i] == pool[i])
            && (forall i :: 0 <= i < |r| && i != k && r[i].used && P.Live(r[i]) ==> i < |pool| && r[i] == pool[i])
  {
  }

  /** The new run is nobody else's. */
  lemma AllocBacked(pool: seq<P.Entry>, lo: nat, hi: nat, u: set<Seg>, pages: nat, x: Seg)
    requires P.Good(pool, lo, hi) && Backed(pool, u) && pages > 0 && P.Alloc(pool, pages).1 != 0
    requires x.contig && x.phy == P.Alloc(pool, pages).1 && x.pages == pages && x !in u
    ensures P.Good(P.Alloc(pool, pages).0, lo, hi) && Backed(P.Alloc(pool, pages).0, u + {x})
  {
    AllocRun(pool, lo, hi, pages);
    var (r, a) := P.Alloc(pool, pages);
    var k := P.Best(pool, pages, |pool|);
    hide P.Good, P.Alloc, P.Best;
    var v := u + {x};
    assert IsRun(r, k, x);
    forall s | s in u && s.contig ensures HasRun(r, s) && s.phy != x.phy {
      assert HasRun(pool, s);
      var j :| 0 <= j < |pool| && IsRun(pool, j, s);
      assert j != k && IsRun(r, j, s);
      SameRun(r, lo, hi, j, k);
    }
    forall j | 0 <= j < |r| && P.Live(r[j]) && r[j].used ensures RunTaken(v, r[j]) {
      if j == k {
        assert x in v;
      } else {
        assert RunTaken(u, pool[j]);
        var s :| s in u && s.contig && s.phy == pool[j].addr;
        assert s in v;
      }
    }
  }

  /** Taking a run and giving it back leaves the runs in use as they were. */
  lemma AllocFreeBacked(pool: seq<P.Entry>, lo: nat, hi: nat, u: set<Seg>, pages: nat)
    requires P.Good(pool, lo, hi) && Backed(pool, u) && P.Alloc(pool, pages).1 != 0
    requires pages > 0 || P.EmptySlot(pool, 0) == P.POOL_MAX
    ensures var r := P.Free(P.Alloc(pool, pages).0, P.Alloc(pool, pages).1); P.Good(r, lo, hi) && Backed(r, u)
  {
    AllocRun(pool, lo, hi, pages);
    var (a, phy) := P.Alloc(pool, pages);
    var k := P.Best(pool, pages, |pool|);
    FreeRun(a, lo, hi, k);
    var r := P.Free(a, phy);
    hide P.Good, P.Alloc, P.Best, P.Free;
    forall s | s in u && s.contig ensures HasRun(r, s) {
      assert HasRun(pool, s);
      var j :| 0 <= j < |pool| && IsRun(pool, j, s);
      assert j != k && a[j] == pool[j] && r[j] == a[j];
      assert IsRun(r, j, s);
    }
    forall j | 0 <= j < |r| && P.Live(r[j]) && r[j].used ensures RunTaken(u, r[j]) {
      assert j != k && r[j] == a[j] && a[j] == pool[j];
      assert RunTaken(u, pool[j]);
    }
  }

  /** Likewise for a request for no pages that splits. */
  lemma NoneFreeBacked(pool: seq<P.Entry>, lo: nat, hi: nat, u: set<Seg>)
    requires P.Good(pool, lo, hi) && Backed(pool, u) && P.Alloc(pool, 0).1 != 0 && P.EmptySlot(pool, 0) < P.POOL_MAX
    ensures var r := P.Free(P.Alloc(pool, 0).0, P.Alloc(pool, 0).1); P.Good(r, lo, hi) && Backed(r, u)
  {
    assert P.Best(pool, 0, |pool|) >= 0;
    P.NoneUndone(pool, lo, hi);
    var r := P.Free(P.Alloc(pool, 0).0, P.Alloc(pool, 0).1);
    hide P.Good, P.Alloc, P.Free;
    forall s | s in u && s.contig ensures HasRun(r, s) {
      assert HasRun(pool, s);
      var j :| 0 <= j < |pool| && IsRun(pool, j, s);
      assert IsRun(r, j, s);
    }
    forall j | 0 <= j < |r| && P.Live(r[j]) && r[j].used ensures RunTaken(u, r[j]) {
      assert r[j] == pool[j] && RunTaken(u, pool[j]);
    }
  }

  lemma ScatterBacked(pool: seq<P.Entry>, u: set<Seg>, x: Seg)
    requires Backed(pool, u) && !x.contig
    ensures Backed(pool, u + {x})
  {
    hide HasRun;
    var v := u + {x};
    forall s | s in v && s.contig ensures HasRun(pool, s) {
      assert s in u;
    }
    forall s, t | s in v && t in v && s.contig && t.contig && s != t ensures s.phy != t.phy {
      assert s in u && t in u;
    }
    forall k | 0 <= k < |pool| && P.Live(pool[k]) && pool[k].used ensures RunTaken(v, pool[k]) {
      assert RunTaken(u, pool[k]);
      var s :| s in u && s.contig && s.phy == pool[k].addr;
      assert s in v;
    }
  }

  // ----- identity and counts

  lemma NewIds(u: set<Seg>, lastId: nat, spaces: map<int, seq<nat>>, x: Seg)
    requires IdsOk(u, lastId) && Counted(u, spaces) && x.id == lastId + 1 && x.refs == 0
    ensures x !in u && IdsOk(u + {x}, lastId + 1) && Counted(u + {x}, spaces)
  {
    forall p, i | p in spaces && 0 <= i < |spaces[p]| && spaces[p][i] != 0
      ensures IdInUse(u + {x}, spaces[p][i]) && spaces[p][i] != x.id
    {
      assert IdInUse(u, spaces[p][i]);
    }
    assert Attached(spaces, x.id) == {};
  }

  // ----- the list side

  lemma CutIdle(a: seq<Seg>, k: nat, pages: nat, record: bool)
    requires k < |a| && !a[k].used && pages <= a[k].pages && IdleOk(a) && OneSegPerId(a) && PagesOk(a)
    ensures var r := CutBlock(a, k, pages, record);
            Used(r) == Used(a) && IdleOk(r) && OneSegPerId(r) && PagesOk(r) && !r[k].used && r[k].refs == 0
    ensures var r := CutBlock(a, k, pages, record); r[k].contig == a[k].contig && (a[k].contig ==> r[k].pages == pages)
  {
    var s := a[k];
    var r := CutBlock(a, k, pages, record);
    if s.pages > pages && record {
      var mid := [s.(pages := pages), Seg(0, 0, s.addr + pages, s.pages - pages, false, 0, s.contig, 0, -1)];
      UsedSplice(a, k, k + 1, mid);
      IdleSplice(a, k, k + 1, mid);
      CutAt(a, k, pages);
      hide Used, IdleOk, OneSegPerId, CutBlock;
      forall i | 0 <= i < |r| && r[i].used && r[i].contig ensures r[i].pages > 0 {
        assert i < k || i > k + 1;
      }
    } else if s.contig {
      var mid := [s.(pages := pages)];
      UsedSplice(a, k, k + 1, mid);
      IdleSplice(a, k, k + 1, mid);
      assert a[k := s.(pages := pages)] == a[..k] + mid + a[k + 1..];
    }
  }

  lemma CutListOk(c: Config, a: seq<Seg>, ct: nat, st: nat, k: nat, pages: nat, record: bool)
    requires ListOk(c, a, ct, st) && k < |a| && !a[k].used && pages <= a[k].pages
    ensures var r := CutBlock(a, k, pages, record);
            ListOk(c, r, ct, st) && Used(r) == Used(a) && !r[k].used && r[k].refs == 0
    ensures var r := CutBlock(a, k, pages, record); r[k].contig == a[k].contig && (a[k].contig ==> r[k].pages == pages)
  {
    hide Ordered, CutBlock, Used, IdleOk, OneSegPerId, PagesOk;
    CutIdle(a, k, pages, record);
    CutOrdered(a, k, pages, record, true, c.contigBase, ct);
    CutOrdered(a, k, pages, record, false, c.scatterBase, st);
  }

  lemma ClaimListOk(c: Config, a: seq<Seg>, ct: nat, st: nat, lastId: nat, k: nat, x: Seg)
    requires ListOk(c, a, ct, st) && k < |a| && !a[k].used && IdsOk(Used(a), lastId)
    requires x.used && x.id == lastId + 1 && x.addr == a[k].addr && x.pages == a[k].pages && x.contig == a[k].contig
    requires x.contig ==> x.pages > 0
    ensures ListOk(c, a[k := x], ct, st) && Used(a[k := x]) == Used(a) + {x}
  {
    var r := a[k := x];
    UsedUpdate(a, k, x);
    SameOrdered(a, r, true, c.contigBase, ct);
    SameOrdered(a, r, false, c.scatterBase, st);
    hide Ordered;
    forall i | 0 <= i < |a| && a[i].used ensures a[i].id <= lastId {
      UsedMember(a, i);
    }
    hide Used;
    forall i, j | 0 <= i < j < |r| && r[i].used && r[j].used ensures r[i].id != r[j].id {
      assert i != k && j != k ==> a[i].id != a[j].id;
    }
  }

  lemma AppendListOk(c: Config, a: seq<Seg>, ct: nat, st: nat, ct': nat, st': nat, lastId: nat, x: Seg)
    requires ListOk(c, a, ct, st) && IdsOk(Used(a), lastId) && c.contigBase <= ct <= ct' && c.scatterBase <= st <= st'
    requires x.addr == (if x.contig then ct else st) && SegEnd(x) <= (if x.contig then ct' else st')
    requires if x.used then x.id == lastId + 1 && (x.contig ==> x.pages > 0) else x.refs == 0
    ensures ListOk(c, a + [x], ct', st') && Used(a + [x]) == Used(a) + (if x.used then {x} else {})
  {
    var r := a + [x];
    AppendOrdered(a, x, true, c.contigBase, ct, ct');
    AppendOrdered(a, x, false, c.scatterBase, st, st');
    hide Ordered;
    forall i | 0 <= i < |a| && a[i].used ensures a[i].id <= lastId {
      UsedMember(a, i);
    }
    UsedAppend(a, x);
    hide Used;
    forall i, j | 0 <= i < j < |r| && r[i].used && r[j].used ensures r[i].id != r[j].id {
      assert j < |a| ==> a[i].id != a[j].id;
    }
  }

  lemma UsedAppend(a: seq<Seg>, x: Seg)
    ensures Used(a + [x]) == Used(a) + (if x.used then {x} else {})
  {
    var r := a + [x];
    forall s ensures s in Used(r) <==> s in Used(a) + (if x.used then {x} else {}) {
      if s in Used(a) {
        var i :| 0 <= i < |a| && a[i].used && a[i] == s;
        assert r[i] == s;
      }
      if x.used && s == x {
        assert r[|a|] == s;
      }
    }
  }

  // ----- creation

  lemma RoomInWindow(tail: nat, size: Size, top: nat)
    requires tail * PAGE_SIZE + Bytes(size) < top * PAGE_SIZE
    ensures tail + Pages(size) <= top
  {
  }

  lemma CreateReuses(c: Config, m: Shm, key: int, size: Size, contig: bool, owner: int, record: bool, mapped: bool)
    requires Good(c, m) && (contig ==> Pages(size) > 0 && P.Alloc(m.pool, Pages(size)).1 != 0)
    requires FirstReusable(m.segs, Pages(size), contig, 0) < |m.segs|
    ensures Good(c, Create(c, m, key, size, contig, owner, record, mapped).0)
  {
    var pages := Pages(size);
    var (pool, phy) := if contig then P.Alloc(m.pool, pages) else (m.pool, 0);
    var k := FirstReusable(m.segs, pages, contig, 0);
    CutListOk(c, m.segs, m.contigTail, m.scatterTail, k, pages, record);
    var segs := CutBlock(m.segs, k, pages, record);
    var x := Claimed(segs[k], m.lastId + 1, key, contig, phy, owner);
    hide ListOk, Backed, IdsOk, Counted, P.Good, Used, P.Alloc, CutBlock, Pages;
    ClaimListOk(c, segs, m.contigTail, m.scatterTail, m.lastId, k, x);
    NewIds(Used(m.segs), m.lastId, m.spaces, x);
    if contig {
      AllocBacked(m.pool, c.lo, c.hi, Used(m.segs), pages, x);
    } else {
      ScatterBacked(m.pool, Used(m.segs), x);
    }
  }

  predicate NoRoom(c: Config, m: Shm, size: Size, contig: bool, record: bool) {
    Tail(m, contig) * PAGE_SIZE + Bytes(size) >= Top(c, contig) * PAGE_SIZE || !record
  }

  /** A refused call keeps the invariant whatever size it asked for. */
  lemma CreateRefused(c: Config, m: Shm, key: int, size: Size, contig: bool, owner: int, record: bool, mapped: bool)
    requires Good(c, m) && (contig ==> P.Alloc(m.pool, Pages(size)).1 != 0)
    requires FirstReusable(m.segs, Pages(size), contig, 0) == |m.segs| && NoRoom(c, m, size, contig, record)
    ensures Good(c, Create(c, m, key, size, contig, owner, record, mapped).0)
  {
    hide ListOk, Backed, IdsOk, Counted, P.Good, Used, P.Alloc, P.Free, Pages;
    if contig {
      if Pages(size) > 0 || P.EmptySlot(m.pool, 0) == P.POOL_MAX {
        AllocFreeBacked(m.pool, c.lo, c.hi, Used(m.segs), Pages(size));
      } else {
        EmptySlotBound(m.pool, c.lo, c.hi);
        NoneFreeBacked(m.pool, c.lo, c.hi, Used(m.segs));
      }
    }
  }

  lemma EmptySlotBound(pool: seq<P.Entry>, lo: nat, hi: nat)
    requires P.Good(pool, lo, hi)
    ensures P.EmptySlot(pool, 0) <= P.POOL_MAX
  {
  }

  lemma CreateExtends(c: Config, m: Shm, key: int, size: Size, contig: bool, owner: int, record: bool, mapped: bool)
    requires Good(c, m) && (contig ==> Pages(size) > 0 && P.Alloc(m.pool, Pages(size)).1 != 0)
    requires FirstReusable(m.segs, Pages(size), contig, 0) == |m.segs| && !NoRoom(c, m, size, contig, record)
    ensures Good(c, Create(c, m, key, size, contig, owner, record, mapped).0)
  {
    hide ListOk, Backed, IdsOk, Counted, P.Good, Used, P.Alloc, Pages;
    var pages := Pages(size);
    var (pool, phy) := if contig then P.Alloc(m.pool, pages) else (m.pool, 0);
    RoomInWindow(Tail(m, contig), size, Top(c, contig));
    var s := Seg(0, 0, Tail(m, contig), 0, false, 0, contig, 0, -1);
    if !contig && !mapped {
      AppendListOk(c, m.segs, m.contigTail, m.scatterTail, m.contigTail, m.scatterTail, m.lastId, s);
      assert Used(m.segs) + {} == Used(m.segs);
    } else {
      var x := Claimed(s.(pages := pages), m.lastId + 1, key, contig, phy, owner);
      AppendListOk(c, m.segs, m.contigTail, m.scatterTail,
                   if contig then m.contigTail + pages else m.contigTail,
                   if contig then m.scatterTail else m.scatterTail + pages, m.lastId, x);
      NewIds(Used(m.segs), m.lastId, m.spaces, x);
      if contig {
        AllocBacked(m.pool, c.lo, c.hi, Used(m.segs), pages, x);
      } else {
        ScatterBacked(m.pool, Used(m.segs), x);
      }
    }
  }

  lemma CreateGood(c: Config, m: Shm, key: int, size: Size, contig: bool, owner: int, record: bool, mapped: bool)
    requires Good(c, m) && (contig ==> Pages(size) > 0)
    ensures Good(c, Create(c, m, key, size, contig, owner, record, mapped).0)
  {
    hide Good;
    if contig && P.Alloc(m.pool, Pages(size)).1 == 0 {
    } else if FirstReusable(m.segs, Pages(size), contig, 0) < |m.segs| {
      CreateReuses(c, m, key, size, contig, owner, record, mapped);
    } else if NoRoom(c, m, size, contig, record) {
      CreateRefused(c, m, key, size, contig, owner, record, mapped);
    } else {
      CreateExtends(c, m, key, size, contig, owner, record, mapped);
    }
  }

  /** A contiguous request for no pages that would get a segment. */
  ghost predicate GetsNothing(c: Config, m: Shm, size: Size, contig: bool, record: bool) {
    && contig && Pages(size) == 0 && (exists i :: 0 <= i < |m.pool| && P.Spare(m.pool[i]))
    && (FirstReusable(m.segs, 0, true, 0) < |m.segs| || !NoRoom(c, m, size, true, record))
  }

  /** A creation keeps the invariant exactly when it does not make a contiguous segment of no pages. */
  lemma CreateGoodExactly(c: Config, m: Shm, key: int, size: Size, contig: bool, owner: int, record: bool, mapped: bool)
    requires Good(c, m)
    ensures Good(c, Create(c, m, key, size, contig, owner, record, mapped).0) <==>
        !GetsNothing(c, m, size, contig, record)
  {
    hide Good, NoRoom;
    if !contig || Pages(size) > 0 {
      CreateGood(c, m, key, size, contig, owner, record, mapped);
    } else {
      SpareGives(c, m);
      if P.Alloc(m.pool, 0).1 != 0 {
        if FirstReusable(m.segs, 0, true, 0) == |m.segs| && NoRoom(c, m, size, true, record) {
          CreateRefused(c, m, key, size, contig, owner, record, mapped);
        } else {
          CreateNothing(c, m, key, size, owner, record, mapped);
        }
      }
    }
  }

  lemma SpareGives(c: Config, m: Shm)
    requires Good(c, m)
    ensures P.Alloc(m.pool, 0).1 != 0 <==> exists i :: 0 <= i < |m.pool| && P.Spare(m.pool[i])
  {
    var k := P.Best(m.pool, 0, |m.pool|);
    assert k >= 0 ==> P.Spare(m.pool[k]);
    assert forall i :: 0 <= i < |m.pool| && P.Spare(m.pool[i]) ==> P.Fits(m.pool[i], 0);
  }

  lemma CreateNothing(c: Config, m: Shm, key: int, size: Size, owner: int, record: bool, mapped: bool)
    requires GetsNothing(c, m, size, true, record) && P.Alloc(m.pool, 0).1 != 0
    ensures !Good(c, Create(c, m, key, size, true, owner, record, mapped).0)
  {
    var v := Create(c, m, key, size, true, owner, record, mapped).0;
    hide P.Alloc, Pages, P.Good, Backed, Counted, IdsOk, Ordered;
    var k := FirstReusable(m.segs, 0, true, 0);
    assert k < |v.segs| && v.segs[k].used && v.segs[k].contig && v.segs[k].pages == 0;
    assert !PagesOk(v.segs);
  }

  /** What a creation makes: on success exactly one more segment, fresh, of the kind and owner asked
      for and long enough, a contiguous one exactly as long as asked; on failure none. */
  lemma CreateMakes(c: Config, m: Shm, key: int, size: Size, contig: bool, owner: int, record: bool, mapped: bool)
      returns (x: Seg)
    requires Good(c, m) && (contig ==> Pages(size) > 0)
    ensures var (v, r) := Create(c, m, key, size, contig, owner, record, mapped);
            match r
            case Failed => Used(v.segs) == Used(m.segs) && v.spaces == m.spaces
            case Made(id) =>
              && id == m.lastId + 1 == x.id && x.key == key && x.owner == owner && x.contig == contig && x.refs == 0
              && x.pages >= Pages(size) && (contig ==> x.pages == Pages(size))
              && Used(v.segs) == Used(m.segs) + {x} && v.spaces == m.spaces
  {
    hide Good, Used, P.Alloc, P.Free, Pages;
    x := Seg(0, 0, 0, 0, false, 0, false, 0, -1);
    var k := FirstReusable(m.segs, Pages(size), contig, 0);
    if contig && P.Alloc(m.pool, Pages(size)).1 == 0 {
    } else if k < |m.segs| {
      x := ReuseMakes(c, m, key, size, contig, owner, record, mapped);
    } else {
      var s := Seg(0, 0, Tail(m, contig), 0, false, 0, contig, 0, -1);
      var phy := if contig then P.Alloc(m.pool, Pages(size)).1 else 0;
      x := Claimed(s.(pages := Pages(size)), m.lastId + 1, key, contig, phy, owner);
      UsedAppend(m.segs, s);
      UsedAppend(m.segs, x);
      assert Used(m.segs) + {} == Used(m.segs);
    }
  }

  lemma ReuseMakes(c: Config, m: Shm, key: int, size: Size, contig: bool, owner: int, record: bool, mapped: bool)
      returns (x: Seg)
    requires Good(c, m) && (contig ==> Pages(size) > 0 && P.Alloc(m.pool, Pages(size)).1 != 0)
    requires FirstReusable(m.segs, Pages(size), contig, 0) < |m.segs|
    ensures var (v, r) := Create(c, m, key, size, contig, owner, record, mapped);
            && r == Made(m.lastId + 1) && x.id == m.lastId + 1 && x.key == key && x.owner == owner
                && x.contig == contig && x.refs == 0
            && x.pages >= Pages(size) && (contig ==> x.pages == Pages(size))
            && Used(v.segs) == Used(m.segs) + {x} && v.spaces == m.spaces
  {
    ListPart(c, m);
    hide Good, Used, P.Alloc, P.Free, Pages, ListOk, CutBlock;
    var pages := Pages(size);
    var k := FirstReusable(m.segs, pages, contig, 0);
    var phy := if contig then P.Alloc(m.pool, pages).1 else 0;
    CutListOk(c, m.segs, m.contigTail, m.scatterTail, k, pages, record);
    CutLongEnough(m.segs, k, pages, record);
    var segs := CutBlock(m.segs, k, pages, record);
    x := Claimed(segs[k], m.lastId + 1, key, contig, phy, owner);
    ClaimUsed(c, segs, m.contigTail, m.scatterTail, k, x);
  }

  lemma ListPart(c: Config, m: Shm)
    requires Good(c, m)
    ensures ListOk(c, m.segs, m.contigTail, m.scatterTail)
  {
  }

  lemma ClaimUsed(c: Config, a: seq<Seg>, ct: nat, st: nat, k: nat, x: Seg)
    requires ListOk(c, a, ct, st) && k < |a| && !a[k].used && x.used
    ensures Used(a[k := x]) == Used(a) + {x}
  {
    hide Used;
    UsedUpdate(a, k, x);
    assert Used(a) - {} == Used(a);
  }

  lemma CutLongEnough(a: seq<Seg>, k: nat, pages: nat, record: bool)
    requires k < |a| && pages <= a[k].pages
    ensures CutBlock(a, k, pages, record)[k].pages >= pages
  {
  }

  // ----- whole runs

  datatype Event =
    | ECreate(key: int, size: Size, contig: bool, owner: int, record: bool, mapped: bool)
    | EAttach(p: int, id: nat, mapped: bool)
    | EDetach(p: int, id: nat, free: bool)
    | EDetachAt(p: int, addr: nat)
    | ERemove(id: nat)
    | EOrphans(owner: int)
    | ESpace(p: int, places: nat)

  /** Contiguous segments are asked for with a size that rounds to some pages. */
  predicate Sensible(e: Event) {
    e.ECreate? && e.contig ==> 0 < e.size <= 0xffff_ffe0
  }

  function Next(c: Config, m: Shm, e: Event): Shm {
    match e
    case ECreate(key, size, contig, owner, record, mapped) => Create(c, m, key, size, contig, owner, record, mapped).0
    case EAttach(p, id, mapped) => Attach(m, p, id, mapped)
    case EDetach(p, id, free) => Detach(m, p, id, free)
    case EDetachAt(p, addr) => DetachAt(m, p, addr)
    case ERemove(id) => Remove(m, id)
    case EOrphans(owner) => if owner < 0 then m else ReleaseOrphans(m, owner, 0)
    case ESpace(p, places) => if p in m.spaces then m else m.(spaces := m.spaces[p := seq(places, i => 0)])
  }

  lemma SpaceGood(c: Config, m: Shm, p: int, places: nat)
    requires Good(c, m) && p !in m.spaces
    ensures Good(c, m.(spaces := m.spaces[p := seq(places, i => 0)]))
  {
    var q: seq<nat> := seq(places, i => 0);
    var s := m.spaces[p := q];
    forall x | x in Used(m.segs) ensures x.refs == |Attached(s, x.id)| {
      assert x.id != 0;
      assert Attached(s, x.id) == Attached(m.spaces, x.id);
    }
    forall a, i | a in s && 0 <= i < |s[a]| && s[a][i] != 0 ensures IdInUse(Used(m.segs), s[a][i]) {
      assert a != p;
    }
  }

  lemma NextGood(c: Config, m: Shm, e: Event)
    requires Good(c, m) && Sensible(e)
    ensures Good(c, Next(c, m, e))
  {
    hide Good, Create, Attach, Detach, Remove, ReleaseOrphans;
    match e
    case ECreate(key, size, contig, owner, record, mapped) =>
      PagesPositive(size);
      CreateGood(c, m, key, size, contig, owner, record, mapped);
    case EAttach(p, id, mapped) => AttachGood(c, m, p, id, mapped);
    case EDetach(p, id, free) => DetachGood(c, m, p, id, free);
    case EDetachAt(p, addr) =>
      var k := ByAddr(m.segs, addr, 0);
      if k < |m.segs| {
        DetachGood(c, m, p, m.segs[k].id, true);
      }
    case ERemove(id) => RemoveGood(c, m, id);
    case EOrphans(owner) => ReleaseOrphansGood(c, m, owner, 0);
    case ESpace(p, places) => if p !in m.spaces { SpaceGood(c, m, p, places); }
  }

  /** The state after `shm_init`: the whole slab one free run, no segments. */
  function Start(c: Config): Shm {
    Shm([P.Entry(c.lo, if c.hi > c.lo then c.hi - c.lo else 0, false)], [], c.contigBase, c.scatterBase, 0, map[])
  }

  predicate ConfigOk(c: Config) {
    0 < c.lo < c.hi && c.scatterBase <= c.scatterTop
  }

  lemma StartGood(c: Config)
    requires ConfigOk(c)
    ensures Good(c, Start(c))
  {
    var m := Start(c);
    forall x | c.lo <= x < c.hi ensures P.Covered(m.pool, x) {
      assert P.Holds(m.pool[0], x);
    }
    assert Used(m.segs) == {};
  }

  function Runs(c: Config, es: seq<Event>): Shm {
    if es == [] then Start(c) else Next(c, Runs(c, es[..|es| - 1]), es[|es| - 1])
  }

  lemma {:induction false} ShmRunsGood(c: Config, es: seq<Event>)
    requires ConfigOk(c) && forall i :: 0 <= i < |es| ==> Sensible(es[i])
    ensures Good(c, Runs(c, es))
    decreases |es|
  {
    hide Good, Next;
    if es == [] {
      StartGood(c);
    } else {
      ShmRunsGood(c, es[..|es| - 1]);
      NextGood(c, Runs(c, es[..|es| - 1]), es[|es| - 1]);
    }
  }

  /** In every reachable state two contiguous segments in use share neither a physical page nor a
      window page, and each lies inside the slab and inside its window. */
  lemma ContiguousNeverAlias(c: Config, es: seq<Event>, s: Seg, t: Seg)
    requires ConfigOk(c) && forall i :: 0 <= i < |es| ==> Sensible(es[i])
    requires s in Used(Runs(c, es).segs) && t in Used(Runs(c, es).segs) && s.contig && t.contig
    ensures c.lo <= s.phy && s.phy + s.pages <= c.hi && s.pages > 0
    ensures c.contigBase <= s.addr && SegEnd(s) <= Top(c, true)
    ensures s != t ==> s.phy + s.pages <= t.phy || t.phy + t.pages <= s.phy
    ensures s != t ==> SegEnd(s) <= t.addr || SegEnd(t) <= s.addr
  {
    hide Runs;
    ShmRunsGood(c, es);
    var m := Runs(c, es);
    RunsApart(c, m, s, t);
    BlocksApart(c, m, s, t);
  }

  lemma RunsApart(c: Config, m: Shm, s: Seg, t: Seg)
    requires Good(c, m) && s in Used(m.segs) && t in Used(m.segs) && s.contig && t.contig
    ensures c.lo <= s.phy && s.phy + s.pages <= c.hi
    ensures s != t ==> s.phy + s.pages <= t.phy || t.phy + t.pages <= s.phy
  {
    hide ListOk, IdsOk, Counted, Used;
    assert HasRun(m.pool, s) && HasRun(m.pool, t);
    var i :| 0 <= i < |m.pool| && IsRun(m.pool, i, s);
    var j :| 0 <= j < |m.pool| && IsRun(m.pool, j, t);
    assert i != j ==> P.Apart(m.pool[i], m.pool[j]);
  }

  lemma BlocksApart(c: Config, m: Shm, s: Seg, t: Seg)
    requires Good(c, m) && s in Used(m.segs) && t in Used(m.segs) && s.contig && t.contig
    ensures c.contigBase <= s.addr && SegEnd(s) <= Top(c, true) && s.pages > 0
    ensures s != t ==> SegEnd(s) <= t.addr || SegEnd(t) <= s.addr
  {
    var i :| 0 <= i < |m.segs| && m.segs[i].used && m.segs[i] == s;
    var j :| 0 <= j < |m.segs| && m.segs[j].used && m.segs[j] == t;
    hide Backed, IdsOk, Counted, P.Good, Used;
    if i < j {
      assert SegEnd(m.segs[i]) <= m.segs[j].addr;
    } else if j < i {
      assert SegEnd(m.segs[j]) <= m.segs[i].addr;
    }
  }

  /** In every reachable state `refs` is the number of spaces attached, and a segment some space has
      attached is in use: its run has not gone back to the slab. */
  lemma RefsCountSpaces(c: Config, es: seq<Event>, s: Seg, p: int, id: nat)
    requires ConfigOk(c) && forall i :: 0 <= i < |es| ==> Sensible(es[i])
    ensures var m := Runs(c, es);
            && (s in Used(m.segs) ==> s.refs == |Attached(m.spaces, s.id)|)
            && (p in m.spaces && id in m.spaces[p] && id != 0 ==> IdInUse(Used(m.segs), id))
  {
    hide Runs;
    ShmRunsGood(c, es);
    var m := Runs(c, es);
    if p in m.spaces && id in m.spaces[p] && id != 0 {
      var i :| 0 <= i < |m.spaces[p]| && m.spaces[p][i] == id;
    }
  }

  // ----- detaching by address

  /** A segment in use at the address of segment `k`, earlier in the list, that has no pages. */
  predicate EmptyBefore(segs: seq<Seg>, k: nat)
    requires k < |segs|
  {
    exists j :: 0 <= j < k && segs[j].used && !segs[j].contig && segs[j].pages == 0 && segs[j].addr == segs[k].addr
  }

  /** In every reachable state, the contiguous window below the scattered one, the address of a segment
      finds that segment exactly when no empty one stands before it at the same address. */
  lemma AddrFindsExactly(c: Config, es: seq<Event>, k: nat)
    requires ConfigOk(c) && Top(c, true) <= c.scatterBase && forall i :: 0 <= i < |es| ==> Sensible(es[i])
    requires k < |Runs(c, es).segs| && Runs(c, es).segs[k].used
    ensures var segs := Runs(c, es).segs; ByAddr(segs, segs[k].addr, 0) == k <==> !EmptyBefore(segs, k)
  {
    ShmRunsGood(c, es);
    var m := Runs(c, es);
    hide Runs, Backed, IdsOk, Counted, P.Good, Used;
    forall j | 0 <= j < k && m.segs[j].used && m.segs[j].addr == m.segs[k].addr
      ensures !m.segs[j].contig && m.segs[j].pages == 0
    {
      if m.segs[j].contig == m.segs[k].contig {
        assert SegEnd(m.segs[j]) <= m.segs[k].addr;
      }
    }
  }
}
