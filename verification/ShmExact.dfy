/** What each shared-memory call answers and does, exactly: the slab said of the runs in use, the calls of
    the segments in use and of what each space has attached. */
module ShmExact {
  import opened Options
  import P = ShmPool
  import opened ShmSegments
  import opened ShmInvariant
  import opened ShmRuns

  // ----- the slab

  ghost function Taken(t: seq<P.Entry>): set<P.Entry> {
    set i | 0 <= i < |t| && P.Live(t[i]) && t[i].used :: t[i]
  }

  lemma TakenAt(t: seq<P.Entry>, e: P.Entry)
    ensures e in Taken(t) <==> e in t && P.Live(e) && e.used
  {
  }

  /** The `n` pages at `s` lie in the slab and meet no run in use. */
  ghost predicate Vacant(us: set<P.Entry>, lo: nat, hi: nat, s: nat, n: nat) {
    lo <= s && s + n <= hi && forall e :: e in us ==> P.End(e) <= s || s + n <= e.addr
  }

  lemma EntryAt(t: seq<P.Entry>, lo: nat, hi: nat, x: nat) returns (i: nat)
    requires P.Good(t, lo, hi) && lo <= x < hi
    ensures i < |t| && P.Holds(t[i], x)
  {
    assert P.Covered(t, x);
    i :| 0 <= i < |t| && P.Holds(t[i], x);
  }

  lemma NextEntry(t: seq<P.Entry>, lo: nat, hi: nat, i: nat, j: nat)
    requires P.Good(t, lo, hi) && i < |t| && j < |t| && P.Live(t[i]) && P.Holds(t[j], P.End(t[i]))
    ensures i != j && t[j].addr == P.End(t[i]) && !(P.Spare(t[i]) && P.Spare(t[j]))
  {
    assert P.Apart(t[i], t[j]) && P.Touch(t[i], t[j]);
  }

  /** Spare runs do not touch, so vacant pages lie within one of them. */
  lemma VacantInOne(t: seq<P.Entry>, lo: nat, hi: nat, s: nat, n: nat) returns (i: nat)
    requires P.Good(t, lo, hi) && Vacant(Taken(t), lo, hi, s, n) && n > 0
    ensures i < |t| && P.Spare(t[i]) && t[i].addr <= s && s + n <= P.End(t[i])
  {
    i := EntryAt(t, lo, hi, s);
    TakenAt(t, t[i]);
    hide Taken, P.Good;
    if P.End(t[i]) < hi {
      var j := EntryAt(t, lo, hi, P.End(t[i]));
      NextEntry(t, lo, hi, i, j);
      TakenAt(t, t[j]);
    }
  }

  lemma SpareIsVacant(t: seq<P.Entry>, lo: nat, hi: nat, k: nat, n: nat)
    requires P.Good(t, lo, hi) && k < |t| && P.Fits(t[k], n)
    ensures Vacant(Taken(t), lo, hi, t[k].addr, n)
  {
    forall e | e in Taken(t) ensures P.End(e) <= t[k].addr || t[k].addr + n <= e.addr {
      var j :| 0 <= j < |t| && t[j] == e && P.Live(t[j]) && t[j].used;
      assert P.Apart(t[k], t[j]);
    }
  }

  /** A request for pages is met exactly when so many pages in a row are vacant; the run handed out joins
      the runs in use, cut to size unless the table is full, and a refusal changes nothing. */
  lemma SlabExactly(t: seq<P.Entry>, lo: nat, hi: nat, pages: nat)
    requires P.Good(t, lo, hi) && pages > 0
    ensures var (r, a) := P.Alloc(t, pages);
            && (a != 0 <==> exists s :: Vacant(Taken(t), lo, hi, s, pages))
            && (a == 0 ==> r == t)
            && (a != 0 ==>
                  && Vacant(Taken(t), lo, hi, a, pages)
                  && exists n :: Taken(r) == Taken(t) + {P.Entry(a, n, true)} && pages <= n
                                 && (P.EmptySlot(t, 0) < P.POOL_MAX ==> n == pages))
  {
    var (r, a) := P.Alloc(t, pages);
    P.AllocGood(t, lo, hi, pages);
    var k := P.Best(t, pages, |t|);
    if a != 0 {
      SpareIsVacant(t, lo, hi, k, pages);
      AllocTaken(t, pages);
      hide Taken, P.Good, P.Alloc, P.Best;
      assert Taken(r) == Taken(t) + {P.Entry(a, r[k].pages, true)};
    } else {
      hide Taken, P.Good, P.Alloc, P.Best;
      forall s ensures !Vacant(Taken(t), lo, hi, s, pages) {
        if Vacant(Taken(t), lo, hi, s, pages) {
          var i := VacantInOne(t, lo, hi, s, pages);
        }
      }
    }
  }

  lemma AllocTaken(t: seq<P.Entry>, pages: nat)
    requires P.Alloc(t, pages).1 != 0
    ensures var (r, a) := P.Alloc(t, pages); var k := P.Best(t, pages, |t|);
            0 <= k < |r| && Taken(r) == Taken(t) + {P.Entry(a, r[k].pages, true)}
  {
    AllocShape(t, pages);
    var (r, a) := P.Alloc(t, pages);
    var k := P.Best(t, pages, |t|);
    hide P.Alloc, P.Best;
    forall e ensures e in Taken(r) <==> e in Taken(t) + {r[k]} {
      if e in Taken(t) {
        var i :| 0 <= i < |t| && t[i] == e && P.Live(t[i]) && t[i].used;
        assert r[i] == e;
      }
    }
    assert r[k] == P.Entry(a, r[k].pages, true);
  }

  /** Giving back the run at an address takes that one out of use and no other. */
  lemma SlabFreeExactly(t: seq<P.Entry>, lo: nat, hi: nat, e: P.Entry, addr: nat)
    requires P.Good(t, lo, hi) && addr != 0
    ensures e in Taken(t) && e.addr == addr ==> Taken(P.Free(t, addr)) == Taken(t) - {e}
    ensures (forall x :: x in Taken(t) ==> x.addr != addr) ==> P.Free(t, addr) == t
  {
    if e in Taken(t) && e.addr == addr {
      var k :| 0 <= k < |t| && t[k] == e && P.Live(t[k]) && t[k].used;
      SlabFrees(t, lo, hi, k);
    }
    var u := P.UsedAt(t, addr, 0);
    hide P.Good, P.MergeUpTo;
    assert u < |t| ==> t[u] in Taken(t);
  }

  lemma SlabFrees(t: seq<P.Entry>, lo: nat, hi: nat, k: nat)
    requires P.Good(t, lo, hi) && k < |t| && P.Live(t[k]) && t[k].used
    ensures Taken(P.Free(t, t[k].addr)) == Taken(t) - {t[k]}
  {
    FreeRun(t, lo, hi, k);
    var r := P.Free(t, t[k].addr);
    hide P.Good, P.Free;
    forall x ensures x in Taken(r) <==> x in Taken(t) - {t[k]} {
      if x in Taken(t) && x != t[k] {
        var i :| 0 <= i < |t| && t[i] == x && P.Live(t[i]) && t[i].used;
        assert r[i] == x;
      }
      if x in Taken(r) {
        var i :| 0 <= i < |r| && r[i] == x && P.Live(r[i]) && r[i].used;
        assert i != k && t[i] == x;
        SameRun(t, lo, hi, i, k);
      }
    }
  }

  // ----- creating

  /** Some free block of the kind is long enough, or the window has room beyond its tail and what a new
      block needs can be had. */
  ghost predicate Placeable(c: Config, m: Shm, size: Size, contig: bool, record: bool, mapped: bool) {
    || (exists s :: s in m.segs && !s.used && s.contig == contig && s.pages >= Pages(size))
    || (&& record && (contig || mapped)
        && Tail(m, contig) * PAGE_SIZE + Bytes(size) < Top(c, contig) * PAGE_SIZE)
  }

  /** A segment is made exactly when it has a place in its window and, if contiguous, so many pages of the
      slab in a row are vacant. */
  lemma CreateExactly(c: Config, m: Shm, key: int, size: Size, contig: bool, owner: int, record: bool, mapped: bool)
    requires Good(c, m) && (contig ==> Pages(size) > 0)
    ensures Create(c, m, key, size, contig, owner, record, mapped).1.Made? <==>
            && Placeable(c, m, size, contig, record, mapped)
            && (contig ==> exists s :: Vacant(Taken(m.pool), c.lo, c.hi, s, Pages(size)))
  {
    if contig {
      SlabExactly(m.pool, c.lo, c.hi, Pages(size));
    }
    hide Good, P.Alloc, P.Free, Pages, Taken, Bytes;
    var k := FirstReusable(m.segs, Pages(size), contig, 0);
    if k < |m.segs| {
      assert m.segs[k] in m.segs;
    } else {
      forall s | s in m.segs ensures s.used || s.contig != contig || s.pages < Pages(size) {
        var i :| 0 <= i < |m.segs| && m.segs[i] == s;
        assert !Reusable(m.segs[i], Pages(size), contig);
      }
    }
  }

  // ----- attaching and detaching

  lemma FindsSeg(c: Config, m: Shm, s: Seg)
    requires Good(c, m) && s in Used(m.segs)
    ensures var k := ById(m.segs, s.id, 0); k < |m.segs| && m.segs[k] == s && s.id != 0
  {
    var i :| 0 <= i < |m.segs| && m.segs[i].used && m.segs[i] == s;
    var k := ById(m.segs, s.id, 0);
    assert k <= i;
  }

  /** A segment in use is attached exactly to a known space that has it not yet, has a place left and gets
      its page tables; the space then has one more and the segment one more reference. */
  lemma AttachExactly(c: Config, m: Shm, p: int, s: Seg, mapped: bool)
    requires Good(c, m) && s in Used(m.segs)
    ensures var v := Attach(m, p, s.id, mapped);
            if p in m.spaces && s.id !in m.spaces[p] && 0 in m.spaces[p] && mapped then
              && Used(v.segs) == Used(m.segs) - {s} + {s.(refs := s.refs + 1)} && v.pool == m.pool
              && v.spaces.Keys == m.spaces.Keys && (forall q :: q in m.spaces && q != p ==> v.spaces[q] == m.spaces[q])
              && s.id in v.spaces[p]
              && (forall id :: id != 0 && id != s.id ==> (id in v.spaces[p] <==> id in m.spaces[p]))
            else v == m
  {
    FindsSeg(c, m, s);
    var k := ById(m.segs, s.id, 0);
    ListPart(c, m);
    RefsListOk(c, m.segs, m.contigTail, m.scatterTail, k, s.refs + 1);
    hide Good, ById, Used, ListOk;
    if p in m.spaces {
      var q := m.spaces[p];
      var z := Find(q, 0, 0);
      FindTells(q, 0);
      FindTells(q, s.id);
      hide Find;
      if z < |q| {
        assert q[z := s.id][z] == s.id;
        forall id | id != 0 && id != s.id ensures id in q[z := s.id] <==> id in q {
          SlotChange(q, z, s.id, id);
        }
      }
    }
  }

  lemma FindTells(q: seq<nat>, id: nat)
    ensures Find(q, id, 0) < |q| <==> id in q
  {
  }

  /** A number that names no segment in use attaches, detaches and removes nothing. */
  lemma UnknownExactly(c: Config, m: Shm, p: int, id: nat, mapped: bool, free: bool)
    requires Good(c, m) && forall s :: s in Used(m.segs) ==> s.id != id
    ensures Attach(m, p, id, mapped) == m && Detach(m, p, id, free) == m && Remove(m, id) == m
  {
    var k := ById(m.segs, id, 0);
    if k < |m.segs| {
      UsedMember(m.segs, k);
    }
  }

  /** A segment is detached exactly from a space that has it; the space then has it no more, and it has one
      reference less, or is gone when that was the last and the caller frees it. */
  lemma DetachExactly(c: Config, m: Shm, p: int, s: Seg, free: bool)
    requires Good(c, m) && s in Used(m.segs)
    ensures var v := Detach(m, p, s.id, free);
            if p in m.spaces && s.id in m.spaces[p] then
              && Used(v.segs) == Used(m.segs) - {s} + (if free && s.refs == 1 then {} else {s.(refs := s.refs - 1)})
              && v.spaces.Keys == m.spaces.Keys && (forall q :: q in m.spaces && q != p ==> v.spaces[q] == m.spaces[q])
              && s.id !in v.spaces[p]
              && (forall id :: id != 0 && id != s.id ==> (id in v.spaces[p] <==> id in m.spaces[p]))
            else v == m
  {
    FindsSeg(c, m, s);
    if p in m.spaces {
      var q := m.spaces[p];
      FindTells(q, s.id);
      if s.id in q {
        DetachesExactly(c, m, p, s, free);
      }
    }
  }

  /** The list and the space with the segment taken out, before any freeing. */
  function Unhooked(m: Shm, p: int, k: nat, z: nat): Shm
    requires p in m.spaces && k < |m.segs| && z < |m.spaces[p]|
  {
    m.(spaces := m.spaces[p := m.spaces[p][z := 0]], segs := m.segs[k := m.segs[k].(refs := m.segs[k].refs - 1)])
  }

  lemma DetachIs(c: Config, m: Shm, p: int, s: Seg, free: bool) returns (k: nat, z: nat)
    requires Good(c, m) && s in Used(m.segs) && p in m.spaces && s.id in m.spaces[p]
    ensures k < |m.segs| && m.segs[k] == s && s.used && s.id != 0 && z < |m.spaces[p]| && m.spaces[p][z] == s.id
    ensures Detach(m, p, s.id, free) ==
            if free && s.refs <= 1 then FreeItem(Unhooked(m, p, k, z), k) else Unhooked(m, p, k, z)
  {
    FindsSeg(c, m, s);
    FindTells(m.spaces[p], s.id);
    k, z := ById(m.segs, s.id, 0), Find(m.spaces[p], s.id, 0);
    hide Good, Used, FreeItem;
  }

  lemma UnhookedSpaces(m: Shm, p: int, k: nat, z: nat)
    requires p in m.spaces && k < |m.segs| && z < |m.spaces[p]| && OnceEach(m.spaces[p])
    requires m.spaces[p][z] == m.segs[k].id != 0
    ensures var v := Unhooked(m, p, k, z); var own := m.segs[k].id;
            && v.spaces.Keys == m.spaces.Keys && (forall q :: q in m.spaces && q != p ==> v.spaces[q] == m.spaces[q])
            && own !in v.spaces[p]
            && (forall id :: id != 0 && id != own ==> (id in v.spaces[p] <==> id in m.spaces[p]))
  {
    var q := m.spaces[p];
    Gone(q, z);
    forall id | id != 0 && id != m.segs[k].id ensures id in q[z := 0] <==> id in q {
      SlotChange(q, z, 0, id);
    }
  }

  lemma DetachesExactly(c: Config, m: Shm, p: int, s: Seg, free: bool)
    requires Good(c, m) && s in Used(m.segs) && p in m.spaces && s.id in m.spaces[p]
    ensures var v := Detach(m, p, s.id, free);
            && Used(v.segs) == Used(m.segs) - {s} + (if free && s.refs == 1 then {} else {s.(refs := s.refs - 1)})
            && v.spaces.Keys == m.spaces.Keys && (forall q :: q in m.spaces && q != p ==> v.spaces[q] == m.spaces[q])
            && s.id !in v.spaces[p]
            && (forall id :: id != 0 && id != s.id ==> (id in v.spaces[p] <==> id in m.spaces[p]))
  {
    var k, z := DetachIs(c, m, p, s, free);
    AttachedSome(c, m, p, s);
    UnhookedSpaces(m, p, k, z);
    UnhookedUsed(c, m, p, k, z);
    var t := s.(refs := s.refs - 1);
    NotBefore(c, m, s, t);
    hide Good, Used, FreeItem, Detach, OnceEach;
    if free && s.refs <= 1 {
      FreeItemGood(c, Unhooked(m, p, k, z), k);
      FreeItemSpaces(Unhooked(m, p, k, z), k);
      assert Used(m.segs) - {s} + {t} - {t} == Used(m.segs) - {s};
    }
  }

  lemma UnhookedUsed(c: Config, m: Shm, p: int, k: nat, z: nat)
    requires Good(c, m) && p in m.spaces && k < |m.segs| && m.segs[k].used && m.segs[k].id != 0
    requires z < |m.spaces[p]| && m.spaces[p][z] == m.segs[k].id
    ensures Good(c, Unhooked(m, p, k, z))
    ensures var s := m.segs[k];
            Used(Unhooked(m, p, k, z).segs) == Used(m.segs) - {s} + {s.(refs := s.refs - 1)}
  {
    DetachedGood(c, m, p, k, z);
    ListPart(c, m);
    hide Good, Used, ListOk;
    RefsListOk(c, m.segs, m.contigTail, m.scatterTail, k, m.segs[k].refs - 1);
  }

  /** The segment with another count was not there before. */
  lemma NotBefore(c: Config, m: Shm, s: Seg, t: Seg)
    requires Good(c, m) && s in Used(m.segs) && t.id == s.id && t != s
    ensures t !in Used(m.segs)
  {
  }

  lemma FreeItemSpaces(m: Shm, k: nat)
    requires k < |m.segs|
    ensures FreeItem(m, k).spaces == m.spaces
  {
  }

  /** Attached once, so counted at least once, and in a place of its own. */
  lemma AttachedSome(c: Config, m: Shm, p: int, s: Seg)
    requires Good(c, m) && s in Used(m.segs) && p in m.spaces && s.id in m.spaces[p]
    ensures s.refs >= 1 && OnceEach(m.spaces[p])
  {
    assert p in Attached(m.spaces, s.id);
  }

  // ----- removing

  /** A segment is removed exactly when no space has it. */
  lemma RemoveExactly(c: Config, m: Shm, s: Seg)
    requires Good(c, m) && s in Used(m.segs)
    ensures var v := Remove(m, s.id);
            if forall p :: p in m.spaces ==> s.id !in m.spaces[p]
            then Used(v.segs) == Used(m.segs) - {s} && v.spaces == m.spaces
            else v == m
  {
    FindsSeg(c, m, s);
    var k := ById(m.segs, s.id, 0);
    assert s.refs == |Attached(m.spaces, s.id)|;
    if forall p :: p in m.spaces ==> s.id !in m.spaces[p] {
      assert Attached(m.spaces, s.id) == {};
      hide Good, ById, Used, FreeItem;
      FreeItemGood(c, m, k);
      FreeItemSpaces(m, k);
    } else {
      var p :| p in m.spaces && s.id in m.spaces[p];
      assert p in Attached(m.spaces, s.id);
    }
  }

  predicate IdleBeside(segs: seq<Seg>, k: nat, j: int)
    requires k < |segs|
  {
    0 <= j < |segs| && !segs[j].used && segs[j].contig == segs[k].contig
  }

  /** A freed block becomes one idle block with the idle neighbours of its kind, and no other block changes. */
  lemma FreeItemMerges(m: Shm, k: nat)
    requires k < |m.segs|
    ensures var a := m.segs; var r := FreeItem(m, k).segs;
            var i := if IdleBeside(a, k, k - 1) then k - 1 else k;
            var j := if IdleBeside(a, k, k + 1) then k + 2 else k + 1;
            && |r| == |a| - (j - i) + 1 && r[..i] == a[..i] && r[i + 1..] == a[j..]
            && !r[i].used && r[i].contig == a[k].contig && r[i].addr == a[i].addr
            && r[i].pages == a[k].pages + (if i < k then a[k - 1].pages else 0)
                             + (if j > k + 1 then a[k + 1].pages else 0)
  {
  }

  predicate Orphan(s: Seg, owner: int) {
    s.owner == owner && s.refs <= 0
  }

  ghost function Orphans(u: set<Seg>, owner: int): set<Seg> {
    set s | s in u && Orphan(s, owner)
  }

  lemma UsedRest(a: seq<Seg>, i: nat)
    requires i < |a|
    ensures Used(a[i..]) == Used(a[i + 1..]) + (if a[i].used then {a[i]} else {})
  {
    var more := if a[i].used then {a[i]} else {};
    forall s ensures s in Used(a[i..]) <==> s in Used(a[i + 1..]) + more {
      if s in Used(a[i + 1..]) {
        var j :| 0 <= j < |a[i + 1..]| && a[i + 1..][j].used && a[i + 1..][j] == s;
        assert a[i..][j + 1] == s;
      }
      if s in Used(a[i..]) {
        var j :| 0 <= j < |a[i..]| && a[i..][j].used && a[i..][j] == s;
        assert j > 0 ==> a[i + 1..][j - 1] == s;
      }
      assert a[i..][0] == a[i];
    }
  }

  /** After a segment is freed the walk goes on with the same segments in use as before. */
  lemma ResumeSame(m: Shm, i: nat)
    requires i < |m.segs| && m.segs[i].used
    ensures Used(FreeItem(m, i).segs[Resume(m, i)..]) == Used(m.segs[i + 1..])
  {
    var a := m.segs[i := m.segs[i].(used := false)];
    var b := MergeRight(a, i);
    var r := FreeItem(m, i).segs;
    assert r == MergeLeft(b, i);
    assert r[Resume(m, i)..] == b[i + 1..];
    if b != a {
      assert i + 1 < |m.segs| && !m.segs[i + 1].used;
      assert b[i + 1..] == m.segs[i + 2..];
      UsedRest(m.segs, i + 1);
      assert Used(m.segs[i + 2..]) + {} == Used(m.segs[i + 2..]);
    } else {
      assert b[i + 1..] == m.segs[i + 1..];
    }
  }

  /** The end of a task removes exactly its segments that no space has attached. */
  lemma {:induction false} OrphansFrom(c: Config, m: Shm, owner: int, i: nat)
    requires Good(c, m) && i <= |m.segs|
    ensures var v := ReleaseOrphans(m, owner, i);
            Used(v.segs) == Used(m.segs) - Orphans(Used(m.segs[i..]), owner) && v.spaces == m.spaces
    decreases |m.segs| - i
  {
    hide Good, FreeItem, Resume, Used;
    if i < |m.segs| {
      UsedRest(m.segs, i);
      if m.segs[i].used && Orphan(m.segs[i], owner) {
        FreeItemGood(c, m, i);
        FreeItemSpaces(m, i);
        ResumeSame(m, i);
        OrphansFrom(c, FreeItem(m, i), owner, Resume(m, i));
        assert Orphans(Used(m.segs[i..]), owner) == Orphans(Used(m.segs[i + 1..]), owner) + {m.segs[i]};
      } else {
        OrphansFrom(c, m, owner, i + 1);
        assert Orphans(Used(m.segs[i..]), owner) == Orphans(Used(m.segs[i + 1..]), owner);
      }
    } else {
      NoneUsed();
      assert m.segs[i..] == [];
      assert Orphans({}, owner) == {};
    }
  }

  lemma NoneUsed()
    ensures Used([]) == {}
  {
  }

  lemma OrphansExactly(c: Config, m: Shm, owner: int)
    requires Good(c, m)
    ensures var v := ReleaseOrphans(m, owner, 0);
            && v.spaces == m.spaces
            && forall s :: s in Used(v.segs) <==> s in Used(m.segs) && !(s.owner == owner && s.refs <= 0)
  {
    OrphansFrom(c, m, owner, 0);
    assert m.segs[0..] == m.segs;
  }
}
