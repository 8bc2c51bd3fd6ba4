/** Contiguous shared memory never aliases. */
module ShmInvariant {
  import opened Options
  import P = ShmPool
  import opened ShmSegments

  // ----- the set of segments in use

  lemma UsedUpdate(segs: seq<Seg>, k: nat, x: Seg)
    requires k < |segs| && OneSegPerId(segs)
    ensures Used(segs[k := x]) == (Used(segs) - (if segs[k].used then {segs[k]} else {})) + (if x.used then {x} else {})
  {
    var r := segs[k := x];
    forall s
      ensures s in Used(r) <==>
        s in (Used(segs) - (if segs[k].used then {segs[k]} else {})) + (if x.used then {x} else {})
    {
      if s in Used(segs) {
        var i :| 0 <= i < |segs| && segs[i].used && segs[i] == s;
        assert i != k ==> r[i] == s;
      }
      if s in Used(r) {
        var i :| 0 <= i < |r| && r[i].used && r[i] == s;
        assert i != k ==> segs[i] == s;
      }
      if x.used && s == x {
        assert r[k] == s;
      }
    }
  }

  lemma UsedMember(segs: seq<Seg>, k: nat)
    requires k < |segs| && segs[k].used
    ensures segs[k] in Used(segs)
  {
  }

  /** Dropping, adding or resizing idle blocks leaves the set alone. */
  lemma UsedSplice(segs: seq<Seg>, i: nat, j: nat, mid: seq<Seg>)
    requires i <= j <= |segs|
    requires forall x :: i <= x < j ==> !segs[x].used
    requires forall x :: 0 <= x < |mid| ==> !mid[x].used
    ensures Used(segs[..i] + mid + segs[j..]) == Used(segs)
  {
    var r := segs[..i] + mid + segs[j..];
    forall s ensures s in Used(r) <==> s in Used(segs) {
      if s in Used(segs) {
        var x :| 0 <= x < |segs| && segs[x].used && segs[x] == s;
        assert r[if x < i then x else x - j + i + |mid|] == s;
      }
      if s in Used(r) {
        var x :| 0 <= x < |r| && r[x].used && r[x] == s;
        assert segs[if x < i then x else x - i - |mid| + j] == s;
      }
    }
  }

  /** Likewise for the facts that only concern blocks in use. */
  lemma IdleSplice(segs: seq<Seg>, i: nat, j: nat, mid: seq<Seg>)
    requires i <= j <= |segs| && IdleOk(segs) && OneSegPerId(segs)
    requires forall x :: 0 <= x < |mid| ==> !mid[x].used && mid[x].refs == 0
    requires forall x :: i <= x < j ==> !segs[x].used
    ensures IdleOk(segs[..i] + mid + segs[j..]) && OneSegPerId(segs[..i] + mid + segs[j..])
  {
    var r := segs[..i] + mid + segs[j..];
    forall a, b | 0 <= a < b < |r| && r[a].used && r[b].used ensures r[a].id != r[b].id {
      var a' := if a < i then a else a - i - |mid| + j;
      var b' := if b < i then b else b - i - |mid| + j;
      assert segs[a'] == r[a] && segs[b'] == r[b];
    }
    forall a | 0 <= a < |r| && !r[a].used ensures r[a].refs == 0 {
      if a < i {
        assert r[a] == segs[a];
      } else if a >= i + |mid| {
        assert r[a] == segs[a - i - |mid| + j];
      } else {
        assert r[a] == mid[a - i];
      }
    }
  }

  // ----- windows

  predicate SameShape(a: seq<Seg>, b: seq<Seg>) {
    |a| == |b| && forall i :: 0 <= i < |a| ==>
        a[i].addr == b[i].addr && a[i].pages == b[i].pages && a[i].contig == b[i].contig
  }

  lemma SameOrdered(a: seq<Seg>, b: seq<Seg>, contig: bool, base: nat, tail: nat)
    requires Ordered(a, contig, base, tail) && SameShape(a, b)
    ensures Ordered(b, contig, base, tail)
  {
  }

  lemma AppendOrdered(a: seq<Seg>, s: Seg, contig: bool, base: nat, tail: nat, tail': nat)
    requires Ordered(a, contig, base, tail) && base <= tail <= tail'
    requires s.contig == contig ==> s.addr == tail && SegEnd(s) <= tail'
    ensures Ordered(a + [s], contig, base, tail')
  {
  }

  lemma CutAt(a: seq<Seg>, k: nat, pages: nat)
    requires k < |a| && pages < a[k].pages
    ensures var r := CutBlock(a, k, pages, true); |r| == |a| + 1
    ensures var r := CutBlock(a, k, pages, true);
            && (forall i :: 0 <= i < k ==> r[i] == a[i])
            && r[k] == a[k].(pages := pages)
            && r[k + 1].addr == a[k].addr + pages && r[k + 1].pages == a[k].pages - pages
                && r[k + 1].contig == a[k].contig
            && !r[k + 1].used && r[k + 1].refs == 0
            && (forall i :: k + 1 < i < |r| ==> r[i] == a[i - 1])
  {
  }

  lemma CutPair(a: seq<Seg>, k: nat, pages: nat, contig: bool, base: nat, tail: nat, i: nat, j: nat)
    requires Ordered(a, contig, base, tail) && k < |a| && pages < a[k].pages && i < j < |a| + 1
    requires |CutBlock(a, k, pages, true)| == |a| + 1
    ensures var r := CutBlock(a, k, pages, true);
            r[i].contig == contig && r[j].contig == contig ==> SegEnd(r[i]) <= r[j].addr
  {
    CutAt(a, k, pages);
    hide CutBlock;
    var i' := if i <= k then i else i - 1;
    var j' := if j <= k then j else j - 1;
    assert i' < j' && a[i'].contig == contig && a[j'].contig == contig ==> SegEnd(a[i']) <= a[j'].addr;
  }

  lemma CutInWindow(a: seq<Seg>, k: nat, pages: nat, contig: bool, base: nat, tail: nat, i: nat)
    requires Ordered(a, contig, base, tail) && k < |a| && pages < a[k].pages && i < |a| + 1
    requires |CutBlock(a, k, pages, true)| == |a| + 1
    ensures var r := CutBlock(a, k, pages, true);
            r[i].contig == contig ==> base <= r[i].addr && SegEnd(r[i]) <= tail
  {
    CutAt(a, k, pages);
    hide CutBlock;
    var i' := if i <= k then i else i - 1;
    assert a[i'].contig == contig ==> base <= a[i'].addr && SegEnd(a[i']) <= tail;
  }

  lemma ShrinkOrdered(a: seq<Seg>, k: nat, pages: nat, contig: bool, base: nat, tail: nat)
    requires Ordered(a, contig, base, tail) && k < |a| && pages <= a[k].pages
    ensures Ordered(a[k := a[k].(pages := pages)], contig, base, tail)
  {
  }

  lemma CutOrdered(a: seq<Seg>, k: nat, pages: nat, record: bool, contig: bool, base: nat, tail: nat)
    requires Ordered(a, contig, base, tail) && k < |a| && pages <= a[k].pages
    ensures Ordered(CutBlock(a, k, pages, record), contig, base, tail)
  {
    ShrinkOrdered(a, k, pages, contig, base, tail);
    if a[k].pages > pages && record {
      CutAt(a, k, pages);
      var r := CutBlock(a, k, pages, true);
      hide CutBlock;
      forall i | 0 <= i < |r| && r[i].contig == contig ensures base <= r[i].addr && SegEnd(r[i]) <= tail {
        CutInWindow(a, k, pages, contig, base, tail, i);
      }
      forall i, j | 0 <= i < j < |r| && r[i].contig == contig && r[j].contig == contig
        ensures SegEnd(r[i]) <= r[j].addr
      {
        CutPair(a, k, pages, contig, base, tail, i, j);
      }
    }
  }

  lemma MergeRightOrdered(a: seq<Seg>, k: nat, contig: bool, base: nat, tail: nat)
    requires Ordered(a, contig, base, tail) && k < |a|
    ensures Ordered(MergeRight(a, k), contig, base, tail)
  {
    var r := MergeRight(a, k);
    if r != a {
      assert a[k].contig == contig ==> SegEnd(a[k]) <= a[k + 1].addr;
      forall i | 0 <= i < |r| && r[i].contig == contig ensures base <= r[i].addr && SegEnd(r[i]) <= tail {
        assert i > k ==> r[i] == a[i + 1];
      }
      forall i, j | 0 <= i < j < |r| && r[i].contig == contig && r[j].contig == contig
        ensures SegEnd(r[i]) <= r[j].addr
      {
        MergeRightPair(a, k, contig, base, tail, i, j);
      }
    }
  }

  lemma MergeRightPair(a: seq<Seg>, k: nat, contig: bool, base: nat, tail: nat, i: nat, j: nat)
    requires Ordered(a, contig, base, tail) && k < |a| && MergeRight(a, k) != a && i < j < |MergeRight(a, k)|
    ensures var r := MergeRight(a, k); r[i].contig == contig && r[j].contig == contig ==> SegEnd(r[i]) <= r[j].addr
  {
    var r := MergeRight(a, k);
    var j' := if j <= k then j else j + 1;
    var i' := if i < k then i else i + 1;
    assert r[j].addr == a[j'].addr && r[j].contig == a[j'].contig && r[i].contig == a[i'].contig && i' < |a|;
    assert i' < j' && a[i'].contig == contig && a[j'].contig == contig ==> SegEnd(a[i']) <= a[j'].addr;
  }

  // ----- destroying

  /** Slab runs in use after one is released: all but that one, unchanged. */
  lemma FreeRun(pool: seq<P.Entry>, lo: nat, hi: nat, k: nat)
    requires P.Good(pool, lo, hi) && k < |pool| && P.Live(pool[k]) && pool[k].used
    ensures var r := P.Free(pool, pool[k].addr);
            && |r| == |pool| && P.Good(r, lo, hi) && !r[k].used
            && (forall i :: 0 <= i < |pool| && i != k && pool[i].used ==> r[i] == pool[i])
            && (forall i :: 0 <= i < |pool| && i != k && !pool[i].used ==> !r[i].used)
  {
    hide P.Good, P.Tiled, P.MergeUpTo;
    RunFound(pool, lo, hi, k);
    P.FreeGood(pool, lo, hi, pool[k].addr);
    var m := pool[k := pool[k].(used := false)];
    forall i | 0 <= i < |pool| && i != k
      ensures pool[i].used ==> P.Free(pool, pool[k].addr)[i] == pool[i]
      ensures !pool[i].used ==> !P.Free(pool, pool[k].addr)[i].used
    {
      P.MergeKeepsUsed(m, k, |m|, i);
    }
    P.MergeKeepsUsed(m, k, |m|, k);
  }

  lemma RunFound(pool: seq<P.Entry>, lo: nat, hi: nat, k: nat)
    requires P.Good(pool, lo, hi) && k < |pool| && P.Live(pool[k]) && pool[k].used
    ensures P.UsedAt(pool, pool[k].addr, 0) == k
  {
    P.UsedAtUnique(pool, lo, hi, k);
  }

  lemma FreeBacked(pool: seq<P.Entry>, lo: nat, hi: nat, u: set<Seg>, s: Seg)
    requires P.Good(pool, lo, hi) && Backed(pool, u) && s in u
    ensures var r := if s.contig then P.Free(pool, s.phy) else pool; P.Good(r, lo, hi) && Backed(r, u - {s})
  {
    if s.contig {
      assert HasRun(pool, s);
      var k :| 0 <= k < |pool| && IsRun(pool, k, s);
      FreeRun(pool, lo, hi, k);
      var r := P.Free(pool, s.phy);
      hide P.Good, P.Free;
      forall t | t in u - {s} && t.contig ensures HasRun(r, t) {
        assert HasRun(pool, t);
        var j :| 0 <= j < |pool| && IsRun(pool, j, t);
        assert IsRun(r, j, t);
      }
      forall j | 0 <= j < |r| && P.Live(r[j]) && r[j].used ensures RunTaken(u - {s}, r[j]) {
        assert j != k && r[j] == pool[j] && RunTaken(u, pool[j]);
        var t :| t in u && t.contig && t.phy == pool[j].addr;
        SameRun(pool, lo, hi, j, k);
      }
    } else {
      forall j | 0 <= j < |pool| && P.Live(pool[j]) && pool[j].used ensures RunTaken(u - {s}, pool[j]) {
        assert RunTaken(u, pool[j]);
      }
    }
  }

  lemma SameRun(pool: seq<P.Entry>, lo: nat, hi: nat, j: nat, k: nat)
    requires P.Good(pool, lo, hi) && j < |pool| && k < |pool| && P.Live(pool[j]) && P.Live(pool[k])
    requires pool[j].used && pool[k].used
    ensures pool[j].addr == pool[k].addr ==> j == k
  {
    P.UsedAtUnique(pool, lo, hi, j);
    P.UsedAtUnique(pool, lo, hi, k);
  }

  lemma NoneAttached(spaces: map<int, seq<nat>>, id: nat)
    requires |Attached(spaces, id)| == 0 && id != 0
    ensures forall p, i :: p in spaces && 0 <= i < |spaces[p]| ==> spaces[p][i] != id
  {
    forall p, i | p in spaces && 0 <= i < |spaces[p]| ensures spaces[p][i] != id {
      assert p !in Attached(spaces, id);
    }
  }

  lemma FreeCounted(u: set<Seg>, lastId: nat, spaces: map<int, seq<nat>>, s: Seg)
    requires IdsOk(u, lastId) && Counted(u, spaces) && s in u && s.refs <= 0
    ensures IdsOk(u - {s}, lastId) && Counted(u - {s}, spaces)
  {
    NoneAttached(spaces, s.id);
    forall p, i | p in spaces && 0 <= i < |spaces[p]| && spaces[p][i] != 0 ensures IdInUse(u - {s}, spaces[p][i]) {
      assert IdInUse(u, spaces[p][i]);
    }
  }

  lemma MergeRightIdle(a: seq<Seg>, k: nat)
    requires k < |a| && !a[k].used && IdleOk(a) && OneSegPerId(a) && PagesOk(a)
    ensures var r := MergeRight(a, k); Used(r) == Used(a) && IdleOk(r) && OneSegPerId(r) && !r[k].used && PagesOk(r)
  {
    if k + 1 < |a| && !a[k + 1].used && a[k + 1].contig == a[k].contig {
      var mid := [a[k].(pages := a[k].pages + a[k + 1].pages)];
      UsedSplice(a, k, k + 2, mid);
      IdleSplice(a, k, k + 2, mid);
      var r := MergeRight(a, k);
      hide Used, IdleOk, OneSegPerId;
      forall i | 0 <= i < |r| && r[i].used && r[i].contig ensures r[i].pages > 0 {
        assert i != k && r[i] == a[if i < k then i else i + 1];
      }
    }
  }

  lemma MergeRightListOk(c: Config, a: seq<Seg>, ct: nat, st: nat, k: nat)
    requires ListOk(c, a, ct, st) && k < |a| && !a[k].used
    ensures var r := MergeRight(a, k); ListOk(c, r, ct, st) && Used(r) == Used(a) && !r[k].used
  {
    hide Ordered, Used, MergeRight, IdleOk, OneSegPerId, PagesOk;
    MergeRightIdle(a, k);
    MergeRightOrdered(a, k, true, c.contigBase, ct);
    MergeRightOrdered(a, k, false, c.scatterBase, st);
  }

  lemma MergeLeftListOk(c: Config, a: seq<Seg>, ct: nat, st: nat, k: nat)
    requires ListOk(c, a, ct, st) && k < |a| && !a[k].used
    ensures var r := MergeLeft(a, k); ListOk(c, r, ct, st) && Used(r) == Used(a)
  {
    if k > 0 && !a[k - 1].used && a[k - 1].contig == a[k].contig {
      assert MergeLeft(a, k) == MergeRight(a, k - 1);
      MergeRightListOk(c, a, ct, st, k - 1);
    }
  }

  lemma MarkIdleListOk(c: Config, segs: seq<Seg>, ct: nat, st: nat, k: nat)
    requires ListOk(c, segs, ct, st) && k < |segs| && segs[k].used && segs[k].refs == 0
    ensures var a := segs[k := segs[k].(used := false)]; ListOk(c, a, ct, st) && Used(a) == Used(segs) - {segs[k]}
  {
    var a := segs[k := segs[k].(used := false)];
    UsedUpdate(segs, k, segs[k].(used := false));
    SameOrdered(segs, a, true, c.contigBase, ct);
    SameOrdered(segs, a, false, c.scatterBase, st);
    hide Ordered, Used;
  }

  lemma FreedListOk(c: Config, segs: seq<Seg>, ct: nat, st: nat, k: nat)
    requires ListOk(c, segs, ct, st) && k < |segs| && segs[k].used && segs[k].refs == 0
    ensures var b := MergeLeft(MergeRight(segs[k := segs[k].(used := false)], k), k);
            ListOk(c, b, ct, st) && Used(b) == Used(segs) - {segs[k]}
  {
    hide ListOk, Used, MergeRight, MergeLeft;
    MarkIdleListOk(c, segs, ct, st, k);
    var a := segs[k := segs[k].(used := false)];
    MergeRightListOk(c, a, ct, st, k);
    MergeLeftListOk(c, MergeRight(a, k), ct, st, k);
  }

  /** A segment nobody has attached goes: its run returns to the slab and nothing else changes hands. */
  lemma FreeItemGood(c: Config, m: Shm, k: nat)
    requires Good(c, m) && k < |m.segs| && m.segs[k].used && m.segs[k].refs <= 0
    ensures Good(c, FreeItem(m, k)) && Used(FreeItem(m, k).segs) == Used(m.segs) - {m.segs[k]}
  {
    var s := m.segs[k];
    UsedMember(m.segs, k);
    assert s.refs == 0 by { assert s.refs == |Attached(m.spaces, s.id)|; }
    hide ListOk, Backed, IdsOk, Counted, P.Good, Used, P.Free, MergeRight, MergeLeft;
    FreeBacked(m.pool, c.lo, c.hi, Used(m.segs), s);
    FreeCounted(Used(m.segs), m.lastId, m.spaces, s);
    FreedListOk(c, m.segs, m.contigTail, m.scatterTail, k);
  }

  // ----- attaching and detaching

  lemma ReplaceIds(u: set<Seg>, lastId: nat, s: Seg, t: Seg)
    requires IdsOk(u, lastId) && s in u && t.id == s.id
    ensures IdsOk(u - {s} + {t}, lastId)
  {
  }

  lemma ReplaceBacked(pool: seq<P.Entry>, u: set<Seg>, s: Seg, t: Seg)
    requires Backed(pool, u) && s in u && t.phy == s.phy && t.pages == s.pages && t.contig == s.contig
    ensures Backed(pool, u - {s} + {t})
  {
    var v := u - {s} + {t};
    forall x | x in v && x.contig ensures HasRun(pool, x) {
      if x == t {
        assert HasRun(pool, s);
        var k :| 0 <= k < |pool| && IsRun(pool, k, s);
        assert IsRun(pool, k, t);
      } else {
        assert HasRun(pool, x);
      }
    }
    hide HasRun;
    forall x, y | x in v && y in v && x.contig && y.contig && x != y ensures x.phy != y.phy {
      var x' := if x == t then s else x;
      var y' := if y == t then s else y;
      assert x' in u && y' in u && x' != y';
    }
    forall k | 0 <= k < |pool| && P.Live(pool[k]) && pool[k].used ensures RunTaken(v, pool[k]) {
      assert RunTaken(u, pool[k]);
      var x :| x in u && x.contig && x.phy == pool[k].addr;
      var y := if x == s then t else x;
      assert y in v && y.contig && y.phy == pool[k].addr;
    }
  }

  lemma RefsListOk(c: Config, segs: seq<Seg>, ct: nat, st: nat, k: nat, refs: int)
    requires ListOk(c, segs, ct, st) && k < |segs| && segs[k].used
    ensures var t := segs[k].(refs := refs);
            ListOk(c, segs[k := t], ct, st) && Used(segs[k := t]) == Used(segs) - {segs[k]} + {t}
  {
    var t := segs[k].(refs := refs);
    var a := segs[k := t];
    UsedUpdate(segs, k, t);
    SameOrdered(segs, a, true, c.contigBase, ct);
    SameOrdered(segs, a, false, c.scatterBase, st);
    hide Ordered, Used;
  }

  function PutId(q: seq<nat>, z: nat, id: nat): seq<nat>
    requires z < |q|
  {
    q[z := id]
  }

  /** One more space, counted; every other segment's spaces are as before. */
  lemma AttachCounted(u: set<Seg>, lastId: nat, spaces: map<int, seq<nat>>, s: Seg, p: int, z: nat)
    requires Counted(u, spaces) && IdsOk(u, lastId) && s in u && p in spaces && z < |spaces[p]| && spaces[p][z] == 0
    requires s.id !in spaces[p]
    ensures Counted(u - {s} + {s.(refs := s.refs + 1)}, spaces[p := PutId(spaces[p], z, s.id)])
  {
    var t := s.(refs := s.refs + 1);
    var v := u - {s} + {t};
    var q := PutId(spaces[p], z, s.id);
    var m := spaces[p := q];
    assert q[z] == s.id;
    assert Attached(m, s.id) == Attached(spaces, s.id) + {p};
    assert p !in Attached(spaces, s.id);
    forall x | x in v ensures x.refs == |Attached(m, x.id)| {
      if x != t {
        assert x in u && x.id != s.id && x.id != 0;
        SlotChange(spaces[p], z, s.id, x.id);
        assert Attached(m, x.id) == Attached(spaces, x.id);
      }
    }
    forall a, i | a in m && 0 <= i < |m[a]| && m[a][i] != 0 ensures IdInUse(v, m[a][i]) {
      KeptInUse(u, s, t, s.id);
      if a != p || i != z {
        assert IdInUse(u, spaces[a][i]);
        KeptInUse(u, s, t, spaces[a][i]);
      }
    }
    assert OnceEach(q) by { assert OnceEach(spaces[p]); }
  }

  lemma SlotChange(q: seq<nat>, z: nat, a: nat, b: nat)
    requires z < |q| && a != b && q[z] != b
    ensures b in q[z := a] <==> b in q
  {
    if b in q {
      var i :| 0 <= i < |q| && q[i] == b;
      assert q[z := a][i] == b;
    }
    if b in q[z := a] {
      var i :| 0 <= i < |q| && q[z := a][i] == b;
      assert q[i] == b;
    }
  }

  lemma KeptInUse(u: set<Seg>, s: Seg, t: Seg, id: nat)
    requires IdInUse(u, id) && s in u && t.id == s.id
    ensures IdInUse(u - {s} + {t}, id)
  {
    var x :| x in u && x.id == id;
    if x == s {
      assert t in u - {s} + {t};
    } else {
      assert x in u - {s} + {t};
    }
  }

  lemma DetachCounted(u: set<Seg>, lastId: nat, spaces: map<int, seq<nat>>, s: Seg, p: int, z: nat)
    requires Counted(u, spaces) && IdsOk(u, lastId) && s in u && p in spaces && z < |spaces[p]| && spaces[p][z] == s.id
    ensures Counted(u - {s} + {s.(refs := s.refs - 1)}, spaces[p := spaces[p][z := 0]])
  {
    var t := s.(refs := s.refs - 1);
    var v := u - {s} + {t};
    var q := spaces[p][z := 0];
    var m := spaces[p := q];
    assert OnceEach(spaces[p]);
    Gone(spaces[p], z);
    assert Attached(m, s.id) == Attached(spaces, s.id) - {p};
    assert p in Attached(spaces, s.id);
    forall x | x in v ensures x.refs == |Attached(m, x.id)| {
      if x != t {
        assert x in u && x.id != s.id && x.id != 0;
        SlotChange(spaces[p], z, 0, x.id);
        assert Attached(m, x.id) == Attached(spaces, x.id);
      }
    }
    forall a, i | a in m && 0 <= i < |m[a]| && m[a][i] != 0 ensures IdInUse(v, m[a][i]) {
      assert IdInUse(u, spaces[a][i]);
      KeptInUse(u, s, t, spaces[a][i]);
    }
    assert OnceEach(q);
  }

  lemma Gone(q: seq<nat>, z: nat)
    requires z < |q| && OnceEach(q) && q[z] != 0
    ensures q[z] !in q[z := 0]
  {
    var r := q[z := 0];
    forall i | 0 <= i < |r| ensures r[i] != q[z] {
      assert i != z ==> r[i] == q[i];
    }
  }

  lemma AttachGood(c: Config, m: Shm, p: int, id: nat, mapped: bool)
    requires Good(c, m)
    ensures Good(c, Attach(m, p, id, mapped))
  {
    var k := ById(m.segs, id, 0);
    if p in m.spaces && k < |m.segs| && id != 0 {
      var q := m.spaces[p];
      var z := Find(q, 0, 0);
      if Find(q, id, 0) == |q| && z < |q| && mapped {
        hide Good, Counted, IdsOk, Used;
        GoodParts(c, m, k);
        assert id !in q;
        AttachCounted(Used(m.segs), m.lastId, m.spaces, m.segs[k], p, z);
        RecountGood(c, m, k, m.segs[k].refs + 1, m.spaces[p := q[z := id]]);
      }
    }
  }

  /** One segment's count changes together with one space's places. */
  lemma RecountGood(c: Config, m: Shm, k: nat, refs: int, spaces: map<int, seq<nat>>)
    requires Good(c, m) && k < |m.segs| && m.segs[k].used
    requires Counted(Used(m.segs) - {m.segs[k]} + {m.segs[k].(refs := refs)}, spaces)
    ensures Good(c, m.(spaces := spaces, segs := m.segs[k := m.segs[k].(refs := refs)]))
  {
    UsedMember(m.segs, k);
    hide ListOk, Backed, IdsOk, Counted, P.Good, Used;
    var t := m.segs[k].(refs := refs);
    RefsListOk(c, m.segs, m.contigTail, m.scatterTail, k, refs);
    ReplaceBacked(m.pool, Used(m.segs), m.segs[k], t);
    ReplaceIds(Used(m.segs), m.lastId, m.segs[k], t);
  }

  lemma GoodParts(c: Config, m: Shm, k: nat)
    requires Good(c, m) && k < |m.segs| && m.segs[k].used
    ensures Counted(Used(m.segs), m.spaces) && IdsOk(Used(m.segs), m.lastId) && m.segs[k] in Used(m.segs)
  {
  }

  lemma DetachedGood(c: Config, m: Shm, p: int, k: nat, z: nat)
    requires Good(c, m) && p in m.spaces && k < |m.segs| && m.segs[k].used && m.segs[k].id != 0
    requires z < |m.spaces[p]| && m.spaces[p][z] == m.segs[k].id
    ensures Good(c, m.(spaces := m.spaces[p := m.spaces[p][z := 0]],
                       segs := m.segs[k := m.segs[k].(refs := m.segs[k].refs - 1)]))
  {
    hide Good, Counted, IdsOk, Used;
    GoodParts(c, m, k);
    DetachCounted(Used(m.segs), m.lastId, m.spaces, m.segs[k], p, z);
    RecountGood(c, m, k, m.segs[k].refs - 1, m.spaces[p := m.spaces[p][z := 0]]);
  }

  /** The run goes back to the slab only with the last space gone. */
  lemma DetachGood(c: Config, m: Shm, p: int, id: nat, free: bool)
    requires Good(c, m)
    ensures Good(c, Detach(m, p, id, free))
  {
    hide Good, FreeItem;
    var k := ById(m.segs, id, 0);
    if p in m.spaces && k < |m.segs| && id != 0 {
      var q := m.spaces[p];
      var z := Find(q, id, 0);
      if z < |q| {
        DetachedGood(c, m, p, k, z);
        var a := m.(spaces := m.spaces[p := q[z := 0]], segs := m.segs[k := m.segs[k].(refs := m.segs[k].refs - 1)]);
        if free && a.segs[k].refs <= 0 {
          FreeItemGood(c, a, k);
        }
      }
    }
  }

  lemma RemoveGood(c: Config, m: Shm, id: nat)
    requires Good(c, m)
    ensures Good(c, Remove(m, id))
  {
    var k := ById(m.segs, id, 0);
    if k < |m.segs| && m.segs[k].refs <= 0 {
      hide Good;
      FreeItemGood(c, m, k);
    }
  }

  lemma {:induction false} ReleaseOrphansGood(c: Config, m: Shm, owner: int, i: nat)
    requires Good(c, m) && i <= |m.segs|
    ensures Good(c, ReleaseOrphans(m, owner, i))
    decreases |m.segs| - i
  {
    hide Good, FreeItem, Resume;
    if i < |m.segs| {
      if m.segs[i].used && m.segs[i].owner == owner && m.segs[i].refs <= 0 {
        FreeItemGood(c, m, i);
        ReleaseOrphansGood(c, FreeItem(m, i), owner, Resume(m, i));
      } else {
        ReleaseOrphansGood(c, m, owner, i + 1);
      }
    }
  }
}
