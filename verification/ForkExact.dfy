/** What the kernel answers to a store, an expansion and a fork, exactly, and how many frames each costs. */
module ForkExact {
  import opened CopyOnWrite
  import R = ForkRefinement

  lemma Reached(m0: Memory, es: seq<R.Event>)
    requires R.Fresh(m0) && R.CanRun(m0, es)
    ensures Good(R.After(m0, es))
  {
    R.FreshGood(m0);
    R.CowRefinesEagerCopy(m0, es);
  }

  // ----- stores

  predicate WritablePage(m: Memory, pid: int, i: int) {
    HasPage(m, pid, i) && PteAt(m, pid, i).Mapped? && PteAt(m, pid, i).writable
  }

  /** The page is there, and either writable already or within the repaired range with a frame at hand. */
  predicate Storable(m: Memory, pid: int, a: nat)
    requires pid in m.spaces
  {
    HasPage(m, pid, a / PAGE_SIZE)
    && (WritablePage(m, pid, a / PAGE_SIZE) || (a >= m.spaces[pid].rwBase && m.free != []))
  }

  function Stored(v: seq<Page>, a: nat, val: int): seq<Page> {
    var i := a / PAGE_SIZE;
    if i < |v| && |v[i]| == PAGE_SIZE then v[i := v[i][a % PAGE_SIZE := val]] else v
  }

  /** The frames a store takes off the free list: none from a page already writable; else one, or none
      on balance when the page was the last to map its frame. */
  function Cost(m: Memory, pid: int, i: int): int
    requires HasPage(m, pid, i)
  {
    var p := PteAt(m, pid, i);
    if WritablePage(m, pid, i) then 0
    else if p.Mapped? && p.frame < |m.refs| && m.refs[p.frame] == 1 then 0
    else 1
  }

  lemma StoreAnswers(w: Memory, pid: int, a: nat, val: int)
    requires pid in w.spaces
    ensures R.Answer(w, R.Store(pid, a, val)) == if Storable(w, pid, a) then R.Done else R.Killed
  {
  }

  /** In every reachable state a store is carried out if and only if its page is there and is writable, or
      lies from the repaired base on while a frame is free. Then the byte is changed, in this process
      alone, at the cost of a frame exactly when the page was shared or had none. Otherwise the process is
      killed. */
  lemma StoreExactly(m0: Memory, es: seq<R.Event>, pid: int, a: nat, val: int)
    requires R.Fresh(m0) && R.CanRun(m0, es) && pid in R.After(m0, es).spaces
    ensures var w := R.After(m0, es); var e := R.Store(pid, a, val); var v := R.Next(w, e);
      && (R.Answer(w, e) == R.Done <==> Storable(w, pid, a))
      && (R.Answer(w, e) == R.Killed <==> !Storable(w, pid, a))
      && v.spaces.Keys == (if Storable(w, pid, a) then w.spaces.Keys else w.spaces.Keys - {pid})
      && (forall q :: q in v.spaces ==> View(v, q) == if q == pid then Stored(View(w, q), a, val) else View(w, q))
      && (Storable(w, pid, a) ==>
            WritablePage(v, pid, a / PAGE_SIZE) && |v.free| == |w.free| - Cost(w, pid, a / PAGE_SIZE))
  {
    Reached(m0, es);
    var w := R.After(m0, es);
    hide R.CanRun, R.After;
    var e, i := R.Store(pid, a, val), a / PAGE_SIZE;
    R.StepRefines(w, e);
    StoreAnswers(w, pid, a, val);
    AbsTells(w, R.Next(w, e), pid, a, val, R.Answer(w, e));
    hide R.Answer, R.Next, R.Abs, View, Good;
    if Storable(w, pid, a) {
      StoreCosts(w, pid, a, val);
    }
  }

  lemma StoreCosts(w: Memory, pid: int, a: nat, val: int)
    requires Good(w) && pid in w.spaces && Storable(w, pid, a)
    ensures var v := R.Next(w, R.Store(pid, a, val));
            && WritablePage(v, pid, a / PAGE_SIZE) && |v.free| == |w.free| - Cost(w, pid, a / PAGE_SIZE)
  {
    var i := a / PAGE_SIZE;
    if !WritablePage(w, pid, i) {
      RepairGood(w, pid, i);
      RepairCost(w, pid, i);
    }
    hide Good, R.Abs, View, Repair, Exit;
  }

  lemma AbsTells(w: Memory, v: Memory, pid: int, a: nat, val: int, r: R.Reply)
    requires pid in w.spaces && R.Abs(v) == R.EagerNext(R.Abs(w), R.Store(pid, a, val), r)
    ensures v.spaces.Keys == (if r.Killed? then w.spaces.Keys - {pid} else w.spaces.Keys)
    ensures forall q :: q in v.spaces ==> View(v, q) == if q == pid then Stored(View(w, q), a, val) else View(w, q)
  {
    assert v.spaces.Keys == R.Abs(v).Keys && w.spaces.Keys == R.Abs(w).Keys;
    hide View;
    forall q | q in v.spaces ensures View(v, q) == if q == pid then Stored(View(w, q), a, val) else View(w, q) {
      assert R.Abs(v)[q].pages == View(v, q) && R.Abs(w)[q].pages == View(w, q);
    }
  }

  lemma RepairCost(m: Memory, pid: int, i: int)
    requires Good(m) && HasPage(m, pid, i) && m.free != [] && !WritablePage(m, pid, i)
    ensures |Repair(m, pid, i).free| == |m.free| - Cost(m, pid, i)
  {
    RepairInvariant(m, pid, i);
    var g := m.free[0];
    assert g in m.free && FrameOk(m, g) && PteOk(m, pid, i);
    if PteAt(m, pid, i).Mapped? {
      assert FrameOk(m, PteAt(m, pid, i).frame);
      Unused(m, g, pid, i);
      assert (pid, i) in m.users[PteAt(m, pid, i).frame];
    }
  }

  // ----- expansion

  /** An expansion is granted if and only if it stays within the limit, when there is one, and that many
      frames are free. Then it costs exactly those; otherwise every heap is as it was. */
  lemma ExpandExactly(m0: Memory, es: seq<R.Event>, pid: int, n: nat, limit: int)
    requires R.Fresh(m0) && R.CanRun(m0, es) && pid in R.After(m0, es).spaces
    ensures var w := R.After(m0, es); var e := R.Expanded(pid, n, limit); var v := R.Next(w, e);
            var granted := (limit < 0 || |w.spaces[pid].pages| + n <= limit) && n <= |w.free|;
      && R.Answer(w, e) == (if granted then R.Done else R.Refused)
      && v.spaces.Keys == w.spaces.Keys
      && (forall q :: q in w.spaces ==>
            View(v, q) == if q == pid && granted then View(w, q) + ZeroPages(n) else View(w, q))
      && (granted ==> v.free == w.free[n..])
  {
    Reached(m0, es);
    var w := R.After(m0, es);
    hide R.CanRun, R.After;
    if limit < 0 || |w.spaces[pid].pages| + n <= limit {
      ExpandGood(w, pid, 0, n);
      assert View(w, pid)[..|w.spaces[pid].pages|] == View(w, pid);
      if n <= |w.free| {
        ExpandCost(w, pid, 0, n);
      }
    }
    hide Good, View, Expand;
  }

  lemma {:induction false} ExpandCost(m: Memory, pid: int, mapped: nat, n: nat)
    requires Good(m) && pid in m.spaces && mapped <= |m.spaces[pid].pages| && n <= |m.free|
    ensures Expand(m, pid, mapped, n).free == m.free[n..]
    decreases n
  {
    hide Good, ExpandOne;
    if n > 0 {
      ExpandOneGood(m, pid);
      ExpandCost(ExpandOne(m, pid), pid, mapped + 1, n - 1);
      assert m.free[1..][n - 1..] == m.free[n..];
    }
  }

  // ----- fork

  /** The page as a fork leaves it in both processes. */
  function Lent(p: Pte): Pte {
    if p.Mapped? then p.(writable := false) else p
  }

  lemma {:induction false} ForkFromLends(m: Memory, parent: int, child: int, i: nat)
    requires Good(m) && parent in m.spaces && child in m.spaces && child != parent
    requires i <= |m.spaces[parent].pages| && |m.spaces[child].pages| == i
    ensures var v := ForkFrom(m, parent, child, i);
      && v.free == m.free && v.taken == m.taken && parent in v.spaces && child in v.spaces
      && |v.spaces[parent].pages| == |v.spaces[child].pages| == |m.spaces[parent].pages|
      && (forall j :: 0 <= j < i ==> v.spaces[child].pages[j] == m.spaces[child].pages[j])
      && (forall j :: 0 <= j < i ==> v.spaces[parent].pages[j] == m.spaces[parent].pages[j])
      && (forall j :: i <= j < |m.spaces[parent].pages| ==>
            v.spaces[parent].pages[j] == v.spaces[child].pages[j] == Lent(m.spaces[parent].pages[j]))
    decreases |m.spaces[parent].pages| - i
  {
    if i < |m.spaces[parent].pages| {
      var m1 := ForkPage(m, parent, child, i);
      ForkPageGood(m, parent, child, i);
      ForkPageLends(m, parent, child, i);
      hide Good, ForkPage;
      ForkFromLends(m1, parent, child, i + 1);
    }
  }

  lemma ForkPageLends(m: Memory, parent: int, child: int, i: int)
    requires Good(m) && HasPage(m, parent, i) && child in m.spaces && child != parent && |m.spaces[child].pages| == i
    ensures var v := ForkPage(m, parent, child, i);
      && v.free == m.free && v.taken == m.taken && parent in v.spaces && child in v.spaces
      && v.spaces[parent].pages == m.spaces[parent].pages[i := Lent(m.spaces[parent].pages[i])]
      && v.spaces[child].pages == m.spaces[child].pages + [Lent(m.spaces[parent].pages[i])]
  {
    assert PteOk(m, parent, i);
    var p := PteAt(m, parent, i);
    if p.Mapped? {
      assert FrameOk(m, p.frame) && Uses(m, parent, i, p.frame);
      assert (parent, i) in m.users[p.frame];
    }
  }

  /** A fork takes no frame: both processes map the same frames, page by page, and none of them writable. */
  lemma ForkLends(m0: Memory, es: seq<R.Event>, parent: int, child: int)
    requires R.Fresh(m0) && R.CanRun(m0, es) && R.Enabled(R.After(m0, es), R.Forked(parent, child))
    ensures var w := R.After(m0, es); var v := R.Next(w, R.Forked(parent, child));
      && v.free == w.free && parent in v.spaces && child in v.spaces
      && v.spaces[child].pages == v.spaces[parent].pages && |v.spaces[parent].pages| == |w.spaces[parent].pages|
      && forall j :: 0 <= j < |w.spaces[parent].pages| ==>
           v.spaces[parent].pages[j] == Lent(w.spaces[parent].pages[j])
  {
    Reached(m0, es);
    var w := R.After(m0, es);
    hide R.CanRun, R.After;
    EmptySpaceGood(w, child, w.spaces[parent].rwBase);
    ForkFromLends(w.(spaces := w.spaces[child := Space([], w.spaces[parent].rwBase)]), parent, child, 0);
    hide Good, ForkFrom;
  }
}
