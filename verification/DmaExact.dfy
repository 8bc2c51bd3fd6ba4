/** A block's node list, with its splitting and merging, stands for nothing but the set of nodes in use:
    what each call answers and does, said of that set. */
module DmaExact {
  import opened Options
  import opened Tiling
  import opened Dma
  import opened DmaRuns

  /** The nodes owned or pinned. */
  ghost function InUse(ns: seq<Node>): set<Node> {
    set i | 0 <= i < |ns| && !Reusable(ns[i].tag) :: ns[i]
  }

  lemma InUseAt(ns: seq<Node>, d: Node)
    ensures d in InUse(ns) <==> d in ns && !Reusable(d.tag)
  {
  }

  /** The `n` bytes at `s` lie in the block and meet no node in use. */
  ghost predicate Vacant(us: set<Node>, lo: nat, hi: nat, s: nat, n: nat) {
    lo <= s && s + n <= hi && forall d :: d in us ==> End(d) <= s || s + n <= d.start
  }

  // ----- changing one node

  lemma RetagInUse(ns: seq<Node>, lo: nat, hi: nat, k: nat, t: Hold)
    requires Tiles(ns, lo, hi) && k < |ns|
    ensures InUse(Retag(ns, k, t))
         == InUse(ns) - {ns[k]} + (if Reusable(t) then {} else {ns[k].(tag := t)})
  {
    var r := Retag(ns, k, t);
    forall j | 0 <= j < |ns| && j != k ensures ns[j] != ns[k] {
      Distinct(ns, lo, hi, j, k);
    }
    forall d ensures d in InUse(r) <==> d in InUse(ns) - {ns[k]} + (if Reusable(t) then {} else {ns[k].(tag := t)}) {
      if d in InUse(ns) && d != ns[k] {
        var j :| 0 <= j < |ns| && ns[j] == d;
        assert r[j] == d;
      }
      if d in InUse(r) {
        var j :| 0 <= j < |r| && r[j] == d && !Reusable(d.tag);
        assert j != k ==> ns[j] == d;
      }
      assert r[k] == ns[k].(tag := t);
    }
  }

  lemma Distinct(ns: seq<Node>, lo: nat, hi: nat, j: nat, k: nat)
    requires Tiles(ns, lo, hi) && j < |ns| && k < |ns| && j != k
    ensures ns[j].start != ns[k].start
  {
    RunBounds(ns, lo, hi, j);
    RunBounds(ns, lo, hi, k);
    if j < k {
      RunsOrdered(ns, lo, hi, j, k);
    } else {
      RunsOrdered(ns, lo, hi, k, j);
    }
  }

  /** Merging reusable nodes changes nothing in use. */
  lemma JoinInUse(ns: seq<Node>, i: nat)
    requires i + 1 < |ns| && Reusable(ns[i].tag) && Reusable(ns[i + 1].tag)
    ensures InUse(Join(ns, i, FREE)) == InUse(ns)
  {
    var r := Join(ns, i, FREE);
    forall d ensures d in InUse(r) <==> d in InUse(ns) {
      if d in InUse(ns) {
        var j :| 0 <= j < |ns| && ns[j] == d && !Reusable(d.tag);
        assert r[if j < i then j else j - 1] == d;
      }
      if d in InUse(r) {
        var j :| 0 <= j < |r| && r[j] == d && !Reusable(d.tag);
        assert j != i && ns[if j < i then j else j + 1] == d;
      }
    }
  }

  lemma {:induction false} MergeNextsInUse(ns: seq<Node>, i: nat)
    requires i < |ns| && Reusable(ns[i].tag)
    ensures InUse(MergeNexts(ns, i)) == InUse(ns)
    decreases |ns|
  {
    hide InUse;
    if i + 1 < |ns| && Reusable(ns[i + 1].tag) {
      JoinInUse(ns, i);
      MergeNextsInUse(Join(ns, i, FREE), i);
    }
  }

  lemma CoalesceInUse(ns: seq<Node>, i: nat)
    requires i < |ns|
    ensures InUse(Coalesce(ns, i)) == InUse(ns)
  {
    hide InUse;
    if Reusable(ns[i].tag) {
      if i > 0 && Reusable(ns[i - 1].tag) {
        JoinInUse(ns, i - 1);
      }
      var (a, k) := MergePrev(ns, i);
      if k < |a| {
        MergeNextsInUse(a, k);
      }
    }
  }

  // ----- handing out

  lemma {:induction false} NodeAt(ns: seq<Node>, lo: nat, hi: nat, x: nat) returns (i: nat)
    requires Tiles(ns, lo, hi) && lo <= x < hi
    ensures i < |ns| && ns[i].start <= x < End(ns[i])
    decreases |ns|
  {
    if x < End(ns[0]) {
      i := 0;
    } else {
      i := NodeAt(ns[1..], End(ns[0]), hi, x);
      i := i + 1;
    }
  }

  /** Reusable nodes do not touch, so vacant bytes lie within one of them. */
  lemma VacantInOne(ns: seq<Node>, lo: nat, hi: nat, s: nat, n: nat) returns (i: nat)
    requires Good(ns, lo, hi) && Vacant(InUse(ns), lo, hi, s, n) && n > 0
    ensures i < |ns| && Reusable(ns[i].tag) && ns[i].start <= s && s + n <= End(ns[i])
  {
    i := NodeAt(ns, lo, hi, s);
    InUseAt(ns, ns[i]);
    if i + 1 < |ns| {
      RunNext(ns, lo, hi, i);
      RunBounds(ns, lo, hi, i + 1);
      InUseAt(ns, ns[i + 1]);
      assert PairOk(ns, Reusable, i);
    } else {
      DropLastTiles(ns, lo, hi);
    }
  }

  /** A reusable node's bytes are vacant. */
  lemma RoomIsVacant(ns: seq<Node>, lo: nat, hi: nat, k: nat, n: nat)
    requires Good(ns, lo, hi) && k < |ns| && Reusable(ns[k].tag) && n <= ns[k].size
    ensures Vacant(InUse(ns), lo, hi, ns[k].start, n)
  {
    RunBounds(ns, lo, hi, k);
    forall d | d in InUse(ns) ensures End(d) <= ns[k].start || ns[k].start + n <= d.start {
      var j :| 0 <= j < |ns| && ns[j] == d && !Reusable(d.tag);
      if j < k {
        RunsOrdered(ns, lo, hi, j, k);
      } else {
        RunsOrdered(ns, lo, hi, k, j);
      }
    }
  }

  lemma CarveInUse(ns: seq<Node>, k: nat, n: nat, pid: int)
    requires k < |ns| && Reusable(ns[k].tag) && n < ns[k].size && pid != 0
    ensures InUse(Carve(ns, k, n, pid)) == InUse(ns) + {Run(ns[k].start, n, Hold(pid, 0))}
  {
    var r := Carve(ns, k, n, pid);
    forall d ensures d in InUse(r) <==> d in InUse(ns) + {Run(ns[k].start, n, Hold(pid, 0))} {
      if d in InUse(ns) {
        var j :| 0 <= j < |ns| && ns[j] == d && !Reusable(d.tag);
        assert r[if j < k then j else j + 1] == d;
      }
      if d in InUse(r) {
        var j :| 0 <= j < |r| && r[j] == d && !Reusable(d.tag);
        assert j != k + 1;
        assert j != k ==> ns[if j < k then j else j - 1] == d;
      }
      assert r[k] == Run(ns[k].start, n, Hold(pid, 0));
    }
  }

  lemma AllocInUse(ns: seq<Node>, lo: nat, hi: nat, pid: int, size: Size)
    requires Good(ns, lo, hi) && pid != 0 && PageUp(size) > 0
    ensures var (a, k) := Alloc(ns, pid, size);
            if k == |ns| then a == ns
            else InUse(a) == InUse(ns) + {Run(ns[k].start, PageUp(size), Hold(pid, 0))}
  {
    var n := PageUp(size);
    var k := FirstRoom(ns, n, 0);
    hide PageUp, InUse, FirstRoom;
    if k < |ns| {
      if n < ns[k].size {
        CarveInUse(ns, k, n, pid);
      } else {
        RetagInUse(ns, lo, hi, k, Hold(pid, 0));
        assert InUse(ns) - {ns[k]} == InUse(ns) by { InUseAt(ns, ns[k]); }
      }
    }
  }

  /** A request is met exactly when some bytes for it are vacant; it is given the lowest such address, and
      that many bytes from there join the nodes in use. */
  lemma AllocExactly(ns: seq<Node>, lo: nat, hi: nat, pid: int, size: Size)
    requires Good(ns, lo, hi) && pid != 0 && PageUp(size) > 0
    ensures var (a, k) := Alloc(ns, pid, size); var n := PageUp(size);
            && (k < |ns| <==> exists s :: Vacant(InUse(ns), lo, hi, s, n))
            && (if k < |ns| then
                  && k < |a| && a[k].start == ns[k].start && Vacant(InUse(ns), lo, hi, a[k].start, n)
                  && (forall s :: Vacant(InUse(ns), lo, hi, s, n) ==> a[k].start <= s)
                  && InUse(a) == InUse(ns) + {Run(a[k].start, n, Hold(pid, 0))}
                else a == ns)
  {
    var n := PageUp(size);
    var (a, k) := Alloc(ns, pid, size);
    AllocInUse(ns, lo, hi, pid, size);
    hide PageUp, InUse;
    forall s | Vacant(InUse(ns), lo, hi, s, n) ensures k < |ns| && ns[k].start <= s {
      var i := VacantInOne(ns, lo, hi, s, n);
      assert k <= i;
      if k < i {
        RunsOrdered(ns, lo, hi, k, i);
      }
    }
    if k < |ns| {
      RoomIsVacant(ns, lo, hi, k, n);
    }
  }

  // ----- giving back

  /** The node of `pid` at `addr`, if any, loses its owner, and with it its place in use unless pinned. */
  lemma FreeExactly(ns: seq<Node>, lo: nat, hi: nat, pid: int, addr: nat, d: Node)
    requires Good(ns, lo, hi) && pid != 0
    ensures d in InUse(ns) && d.tag.pid == pid && d.start == addr ==>
              InUse(Free(ns, pid, addr)) ==
                InUse(ns) - {d} + (if d.tag.pins == 0 then {} else {d.(tag := Hold(0, d.tag.pins))})
    ensures (forall e :: e in InUse(ns) ==> !(e.tag.pid == pid && e.start == addr)) ==> Free(ns, pid, addr) == ns
  {
    var k := Owned(ns, pid, addr, 0);
    if k < |ns| {
      assert ns[k] in InUse(ns);
      RetagInUse(ns, lo, hi, k, ns[k].tag.(pid := 0));
      CoalesceInUse(Retag(ns, k, ns[k].tag.(pid := 0)), k);
      if d in InUse(ns) && d.start == addr {
        SameNode(ns, lo, hi, d, ns[k]);
      }
    } else {
      InUseAt(ns, d);
    }
  }

  /** The size told is that of the node of `pid` at `addr`, 0 when there is none. */
  lemma SizeExactly(ns: seq<Node>, lo: nat, hi: nat, pid: int, addr: nat, d: Node)
    requires Good(ns, lo, hi) && pid != 0
    ensures d in InUse(ns) && d.tag.pid == pid && d.start == addr ==> SizeOf(ns, pid, addr) == d.size
    ensures (forall e :: e in InUse(ns) ==> !(e.tag.pid == pid && e.start == addr)) ==> SizeOf(ns, pid, addr) == 0
  {
    var k := Owned(ns, pid, addr, 0);
    if k < |ns| {
      assert ns[k] in InUse(ns);
      if d in InUse(ns) && d.start == addr {
        SameNode(ns, lo, hi, d, ns[k]);
      }
    } else {
      InUseAt(ns, d);
    }
  }

  lemma SameNode(ns: seq<Node>, lo: nat, hi: nat, d: Node, e: Node)
    requires Tiles(ns, lo, hi) && d in ns && e in ns && d.start == e.start
    ensures d == e
  {
    var j :| 0 <= j < |ns| && ns[j] == d;
    var k :| 0 <= k < |ns| && ns[k] == e;
    if j != k {
      Distinct(ns, lo, hi, j, k);
    }
  }

  // ----- pins

  /** A pin is granted exactly to the owner of a node at the address, for some bytes of it, below the
      ceiling; it adds one to that node's pins and does nothing else. */
  lemma PinExactly(ns: seq<Node>, lo: nat, hi: nat, pid: int, addr: nat, size: nat)
    requires Good(ns, lo, hi)
    ensures var (a, ok) := Pin(ns, pid, addr, size);
            && (ok <==> pid != 0 && exists d :: d in InUse(ns) && d.tag.pid == pid && d.start == addr
                                              && 0 < size <= d.size && d.tag.pins < PINS_MAX)
            && (!ok ==> a == ns)
    ensures forall d :: Pin(ns, pid, addr, size).1 && d in InUse(ns) && d.start == addr ==>
              InUse(Pin(ns, pid, addr, size).0) == InUse(ns) - {d} + {d.(tag := Hold(pid, d.tag.pins + 1))}
  {
    if pid != 0 && size != 0 {
      var k := Pinnable(ns, pid, addr, size, 0);
      if k < |ns| {
        assert ns[k] in InUse(ns);
        if ns[k].tag.pins < PINS_MAX {
          RetagInUse(ns, lo, hi, k, ns[k].tag.(pins := ns[k].tag.pins + 1));
        }
        forall d | d in InUse(ns) && d.start == addr ensures d == ns[k] {
          SameNode(ns, lo, hi, d, ns[k]);
        }
      }
    }
  }

  /** An unpin is granted exactly at a pinned node; it takes one of its pins and, with the last pin of a
      node without owner, its place in use. */
  lemma UnpinExactly(ns: seq<Node>, lo: nat, hi: nat, addr: nat)
    requires Good(ns, lo, hi)
    ensures var (a, ok) := Unpin(ns, addr);
            && (ok <==> exists d :: d in InUse(ns) && d.start == addr && d.tag.pins > 0)
            && (!ok ==> a == ns)
    ensures forall d :: Unpin(ns, addr).1 && d in InUse(ns) && d.start == addr ==>
              && d.tag.pins > 0
              && InUse(Unpin(ns, addr).0) ==
                   InUse(ns) - {d} + (if d.tag == Hold(0, 1) then {}
                                      else {d.(tag := Hold(d.tag.pid, d.tag.pins - 1))})
  {
    var k := PinnedAt(ns, addr, 0);
    if k < |ns| {
      assert ns[k] in InUse(ns);
      var t := ns[k].tag.(pins := ns[k].tag.pins - 1);
      RetagInUse(ns, lo, hi, k, t);
      CoalesceInUse(Retag(ns, k, t), k);
      forall d | d in InUse(ns) && d.start == addr ensures d == ns[k] {
        SameNode(ns, lo, hi, d, ns[k]);
      }
    }
  }

  // ----- a task's end

  /** What is left in use of a node when `pid` goes. */
  ghost function Bereft(us: set<Node>, pid: int): set<Node> {
    set d | d in us && !Reusable(Disowned(d, pid).tag) :: Disowned(d, pid)
  }

  lemma {:induction false} ReleaseExactly(done: seq<Node>, rest: seq<Node>, pid: int)
    ensures InUse(Release(done, rest, pid)) == InUse(done) + Bereft(InUse(rest), pid)
    decreases |rest|
  {
    if rest != [] {
      var d, n := Disowned(rest[0], pid), |done| - 1;
      var next := if Reusable(d.tag) && done != [] && Reusable(done[n].tag)
                  then done[..n] + [done[n].(size := done[n].size + d.size)] else done + [d];
      ReleaseExactly(next, rest[1..], pid);
      StepInUse(done, rest, pid, next);
    } else {
      assert InUse(rest) == {};
    }
  }

  lemma StepInUse(done: seq<Node>, rest: seq<Node>, pid: int, next: seq<Node>)
    requires rest != []
    requires var d, n := Disowned(rest[0], pid), |done| - 1;
             next == if Reusable(d.tag) && done != [] && Reusable(done[n].tag)
                     then done[..n] + [done[n].(size := done[n].size + d.size)] else done + [d]
    ensures InUse(next) + Bereft(InUse(rest[1..]), pid) == InUse(done) + Bereft(InUse(rest), pid)
  {
    var d, n := Disowned(rest[0], pid), |done| - 1;
    assert InUse(next) == InUse(done) + (if Reusable(d.tag) then {} else {d}) by {
      if Reusable(d.tag) && done != [] && Reusable(done[n].tag) {
        LastInUse(done, done[n].(size := done[n].size + d.size));
      } else {
        AppendInUse(done, d);
      }
    }
    assert rest == [rest[0]] + rest[1..];
    ConsInUse(rest);
    hide InUse;
    assert Bereft(InUse(rest), pid) == Bereft(InUse(rest[1..]), pid) + (if Reusable(d.tag) then {} else {d});
  }

  lemma AppendInUse(ns: seq<Node>, d: Node)
    ensures InUse(ns + [d]) == InUse(ns) + (if Reusable(d.tag) then {} else {d})
  {
    var more := if Reusable(d.tag) then {} else {d};
    forall e ensures e in InUse(ns + [d]) <==> e in InUse(ns) + more {
      InUseAt(ns + [d], e);
      InUseAt(ns, e);
    }
  }

  lemma ConsInUse(ns: seq<Node>)
    requires ns != []
    ensures InUse(ns) == InUse(ns[1..]) + (if Reusable(ns[0].tag) then {} else {ns[0]})
  {
    assert ns == [ns[0]] + ns[1..];
    var more := if Reusable(ns[0].tag) then {} else {ns[0]};
    forall e ensures e in InUse(ns) <==> e in InUse(ns[1..]) + more {
      InUseAt(ns, e);
      InUseAt(ns[1..], e);
    }
  }

  lemma LastInUse(ns: seq<Node>, m: Node)
    requires ns != [] && Reusable(ns[|ns| - 1].tag) && Reusable(m.tag)
    ensures InUse(ns[..|ns| - 1] + [m]) == InUse(ns)
  {
    AppendInUse(ns[..|ns| - 1], m);
    AppendInUse(ns[..|ns| - 1], ns[|ns| - 1]);
    assert ns == ns[..|ns| - 1] + [ns[|ns| - 1]];
  }

  // ----- registering a range

  /** A range is refused exactly when its base is inside a page and it has fewer than two pages; else as
      many whole pages of it are kept as fit, one less when the base is inside a page. */
  lemma RangeExactly(base: nat, size: Size)
    ensures RangeSize(base, size).None? <==> base % PAGE_SIZE != 0 && size < 2 * PAGE_SIZE
    ensures var lead := if base % PAGE_SIZE == 0 then 0 else PAGE_SIZE;
            RangeSize(base, size).Some? ==>
              var n := RangeSize(base, size).value;
              n % PAGE_SIZE == 0 && n + lead <= size < n + lead + PAGE_SIZE
  {
  }

  /** A block of the same range that settles a registration: pinned, or taken over. */
  predicate Settles(b: Block, pid: int, base: nat, size: nat, dead: set<int>) {
    b.base == base && b.size == size && (AnyPinned(b.nodes) || (b.owner >= 0 && (b.owner == pid || b.owner in dead)))
  }

  /** The first block `k` of the range that is pinned, or whose owner is the caller or dead, decides:
      pinned, the call is refused; else that block starts anew under the caller. Without one a new block is
      added, unless the table is full. */
  lemma {:induction false} RegisteredExactly(bs: seq<Block>, pid: int, base: nat, size: nat, dead: set<int>, i: nat,
                                             k: nat)
    requires i <= k <= |bs| && (k < |bs| ==> Settles(bs[k], pid, base, size, dead))
    requires forall j :: i <= j < k ==> !Settles(bs[j], pid, base, size, dead)
    ensures Registered(bs, pid, base, size, dead, i) ==
            var anew := Block(base, size, pid, [Run(base, size, FREE)]);
            if k < |bs| then if AnyPinned(bs[k].nodes) then (bs, Refused) else (bs[k := anew], Reclaimed(k))
            else if |bs| >= BLOCK_MAX then (bs, Refused) else (bs + [anew], Added)
    decreases k - i
  {
    hide AnyPinned;
    if i < k {
      RegisteredExactly(bs, pid, base, size, dead, i + 1, k);
    }
  }
}
