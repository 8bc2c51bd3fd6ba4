/** A task's own process is the one whose address space it runs in. Its calls are decided by that
    process's caps exactly when the walk over its fathers leads there. */
module CapsHome {
  import opened Options
  import opened Caps
  import opened CapsWalk
  import opened CapsRuns

  // ----- spaces

  /** Births are distinct, and a process's space carries its own birth. */
  predicate PlacesOk(w: World) {
    && (forall p :: p in w.tasks ==> w.tasks[p].birth <= w.lastUuid && w.tasks[p].space <= w.lastUuid)
    && (forall p :: p in w.tasks && w.tasks[p].main ==> w.tasks[p].space == w.tasks[p].birth)
    && (forall p, q :: p in w.tasks && q in w.tasks && p != q ==> w.tasks[p].birth != w.tasks[q].birth)
  }

  /** Where a task runs, whose child it is and whether it lives: all but its authority. */
  predicate SamePlace(a: Task, b: Task) {
    a.birth == b.birth && a.space == b.space && a.main == b.main
  }

  lemma SamePlacesOk(w: World, v: World)
    requires PlacesOk(w) && w.lastUuid <= v.lastUuid && v.tasks.Keys <= w.tasks.Keys
    requires forall p :: p in v.tasks ==> SamePlace(w.tasks[p], v.tasks[p])
    ensures PlacesOk(v)
  {
  }

  lemma CreatedPlaces(w: World, pid: int, main: bool, father: int, space: nat, uid: int, cmd: string, c: Cnode)
    requires PlacesOk(w) && pid !in w.tasks && space <= w.lastUuid
    ensures PlacesOk(Created(w, pid, main, father, space, uid, cmd, c))
  {
  }

  lemma NextPlaces(w: World, e: Event)
    requires PlacesOk(w)
    ensures PlacesOk(Next(w, e))
  {
    match e
    case EBoot(pid) =>
      if pid !in w.tasks {
        CreatedPlaces(w, pid, true, -1, 0, 0, [], ROOT_CNODE);
      }
    case EFork(parent, pid, main) =>
      if Alive(w, parent) && pid !in w.tasks && !Owner(w, parent).Endless? {
        var o, t := Owner(w, parent), w.tasks[parent];
        var c := if o.Found? then w.tasks[o.pid].cnode else ROOT_CNODE;
        CreatedPlaces(w, pid, main, parent, t.space, t.uid, t.cmd, c);
      }
    case _ =>
      NextSamePlaces(w, e);
      hide PlacesOk, Next;
      SamePlacesOk(w, Next(w, e));
  }

  lemma NextSamePlaces(w: World, e: Event)
    requires !e.EBoot? && !e.EFork?
    ensures var v := Next(w, e);
            && w.lastUuid <= v.lastUuid && v.tasks.Keys <= w.tasks.Keys
            && forall p :: p in v.tasks ==> SamePlace(w.tasks[p], v.tasks[p])
  {
    hide Insert, ExecCnode, OwnerOf, HasRoot, EmptyCnode, PolicyCaps;
  }

  lemma {:induction false} RunsPlaces(es: seq<Event>)
    ensures PlacesOk(Runs(es))
    decreases |es|
  {
    if es != [] {
      hide PlacesOk, Next;
      RunsPlaces(es[..|es| - 1]);
      NextPlaces(Runs(es[..|es| - 1]), es[|es| - 1]);
    }
  }

  /** `home` is the live process in whose space `pid` runs. */
  predicate IsHome(w: World, pid: int, home: int) {
    Alive(w, pid) && Alive(w, home) && w.tasks[home].main && w.tasks[home].space == w.tasks[pid].space
  }

  lemma HomeUnique(w: World, pid: int, p: int, q: int)
    requires PlacesOk(w) && IsHome(w, pid, p) && IsHome(w, pid, q)
    ensures p == q
  {
  }

  // ----- the chain of fathers

  /** The `n`-th father is the first that is not a live thread. */
  predicate EndsAt(w: World, pid: int, n: nat) {
    (forall k :: 0 <= k < n ==> ThreadAt(w, pid, k)) && !ThreadAt(w, pid, n)
  }

  function EndOf(w: World, q: int): Walked {
    if Alive(w, q) then Found(q) else Nobody
  }

  lemma {:induction false} WalkTo(w: World, pid: int, n: nat, fuel: nat)
    requires EndsAt(w, pid, n) && n <= fuel
    ensures Walk(w, pid, fuel) == EndOf(w, At(w, pid, n))
    decreases n
  {
    if n > 0 {
      assert ThreadAt(w, pid, 0);
      var f := w.tasks[pid].father;
      forall k: nat ensures ThreadAt(w, f, k) <==> ThreadAt(w, pid, k + 1) {
        AtShift(w, pid, k);
      }
      AtShift(w, pid, n - 1);
      hide ThreadAt, At;
      assert EndsAt(w, f, n - 1);
      WalkTo(w, f, n - 1, fuel - 1);
    }
  }

  /** The walk gives the process or the gap at which the chain of live threads ends, and never ends
      exactly when the chain does not. */
  lemma OwnerExactly(w: World, pid: int)
    ensures Owner(w, pid).Endless? <==> forall n: nat :: !EndsAt(w, pid, n)
    ensures forall n: nat :: EndsAt(w, pid, n) ==> Owner(w, pid) == EndOf(w, At(w, pid, n))
  {
    forall n: nat | EndsAt(w, pid, n) ensures Owner(w, pid) == EndOf(w, At(w, pid, n)) {
      WalkTo(w, pid, n, n);
      if Owner(w, pid).Endless? {
        EndlessForever(w, pid, n);
      } else if n <= |w.tasks| {
        FoundForever(w, pid, n, |w.tasks|);
      } else {
        FoundForever(w, pid, |w.tasks|, n);
      }
    }
    if forall n: nat :: !EndsAt(w, pid, n) {
      forall k: nat ensures ThreadAt(w, pid, k) {
        AllThreads(w, pid, k);
      }
      EndlessExactly(w, pid, |w.tasks|);
    }
  }

  lemma {:induction false} AllThreads(w: World, pid: int, k: nat)
    requires forall n: nat :: !EndsAt(w, pid, n)
    ensures forall j :: 0 <= j <= k ==> ThreadAt(w, pid, j)
  {
    hide ThreadAt;
    if k > 0 {
      AllThreads(w, pid, k - 1);
    }
    assert !EndsAt(w, pid, k);
  }

  // ----- acting for one's own process

  /** The chain of fathers ends at a live process of the task's own space. */
  ghost predicate LeadsHome(w: World, pid: int) {
    exists n: nat :: EndsAt(w, pid, n) && IsHome(w, pid, At(w, pid, n))
  }

  predicate ActsForOwn(w: World, pid: int) {
    OwnerOf(w, pid).Some? && IsHome(w, pid, OwnerOf(w, pid).value)
  }

  lemma {:induction false} WalkIgnoresCaps(w: World, p: int, c: Cnode, pid: int, fuel: nat)
    requires p in w.tasks
    ensures Walk(SetCnode(w, p, c), pid, fuel) == Walk(w, pid, fuel)
    decreases fuel
  {
    if fuel > 0 && Thread(w, pid) {
      WalkIgnoresCaps(w, p, c, w.tasks[pid].father, fuel - 1);
    }
  }

  lemma OwnerIgnoresCaps(w: World, p: int, c: Cnode, pid: int)
    requires p in w.tasks
    ensures Owner(SetCnode(w, p, c), pid) == Owner(w, pid)
  {
    assert SetCnode(w, p, c).tasks.Keys == w.tasks.Keys;
    assert |SetCnode(w, p, c).tasks| == |SetCnode(w, p, c).tasks.Keys| == |w.tasks.Keys| == |w.tasks|;
    WalkIgnoresCaps(w, p, c, pid, |w.tasks|);
  }

  /** Whatever caps `home` may hold, they and nothing else decide the calls of `pid`. */
  ghost predicate CallsFollow(w: World, pid: int, home: int)
    requires home in w.tasks
  {
    forall c: Cnode :: Authorized(SetCnode(w, home, c), pid) <==> HasRoot(c)
  }

  /** Whatever caps `home` may hold, a child forked by `pid` starts with them. */
  ghost predicate ForksFollow(w: World, pid: int, home: int, child: int, main: bool)
    requires home in w.tasks
  {
    forall c: Cnode :: var v := Fork(SetCnode(w, home, c), pid, child, main);
                       child in v.tasks && v.tasks[child].cnode == c
  }

  lemma RootOrNot()
    ensures HasRoot(ROOT_CNODE) && !HasRoot(EmptyCnode()) && ROOT_CNODE != EmptyCnode()
  {
    RootCnode();
  }

  lemma CallsFollowExactly(w: World, pid: int, home: int)
    requires IsHome(w, pid, home)
    ensures CallsFollow(w, pid, home) <==> OwnerOf(w, pid) == Some(home)
  {
    RootOrNot();
    var o := OwnerOf(w, pid);
    if o == Some(home) {
      forall c: Cnode ensures Authorized(SetCnode(w, home, c), pid) <==> HasRoot(c) {
        CallsDecided(w, pid, home, c);
      }
    } else {
      var c := if o.Some? && HasRoot(w.tasks[o.value].cnode) then EmptyCnode() else ROOT_CNODE;
      CallsDecided(w, pid, home, c);
      hide Authorized, SetCnode;
      assert !(Authorized(SetCnode(w, home, c), pid) <==> HasRoot(c));
    }
  }

  /** Whether a call by `pid` is authorized when `home` holds `c`. */
  predicate Decided(w: World, pid: int, home: int, c: Cnode) {
    var o := OwnerOf(w, pid);
    o.Some? && HasRoot(if o.value == home then c else w.tasks[o.value].cnode)
  }

  lemma CallsDecided(w: World, pid: int, home: int, c: Cnode)
    requires home in w.tasks
    ensures Authorized(SetCnode(w, home, c), pid) <==> Decided(w, pid, home, c)
  {
    OwnerIgnoresCaps(w, home, c, pid);
    hide HasRoot, Owner;
  }

  /** What the child of a fork starts with when `home` holds `c`. */
  function Passed(w: World, pid: int, home: int, c: Cnode): Cnode {
    match Owner(w, pid)
    case Found(q) => if q == home then c else w.tasks[q].cnode
    case Nobody => ROOT_CNODE
    case Endless => []
  }

  lemma ForkPasses(w: World, pid: int, home: int, child: int, main: bool, c: Cnode)
    requires IsHome(w, pid, home) && child !in w.tasks
    ensures var v := Fork(SetCnode(w, home, c), pid, child, main);
            && (child in v.tasks <==> !Owner(w, pid).Endless?)
            && (child in v.tasks ==> v.tasks[child].cnode == Passed(w, pid, home, c))
  {
    OwnerIgnoresCaps(w, home, c, pid);
  }

  lemma ForksFollowExactly(w: World, pid: int, home: int, child: int, main: bool)
    requires IsHome(w, pid, home) && child !in w.tasks
    ensures ForksFollow(w, pid, home, child, main) <==> OwnerOf(w, pid) == Some(home)
  {
    RootOrNot();
    forall c: Cnode
      ensures var v := Fork(SetCnode(w, home, c), pid, child, main);
              && (child in v.tasks <==> !Owner(w, pid).Endless?)
              && (child in v.tasks ==> v.tasks[child].cnode == Passed(w, pid, home, c))
    {
      ForkPasses(w, pid, home, child, main, c);
    }
    hide Fork, SetCnode;
    assert ForksFollow(w, pid, home, child, main) ==>
        Passed(w, pid, home, ROOT_CNODE) == ROOT_CNODE && Passed(w, pid, home, EmptyCnode()) == EmptyCnode();
  }

  /** In every reachable state, for a task whose process lives, these are one and the same: that
      process's caps decide its calls; its children start with them; the walk returns that process; the
      chain of its fathers ends at a live process of its own space. */
  lemma ActsForOwnExactly(es: seq<Event>, pid: int, home: int, child: int, main: bool)
    requires var w := Runs(es); IsHome(w, pid, home) && child !in w.tasks
    ensures var w := Runs(es);
            && (CallsFollow(w, pid, home) <==> LeadsHome(w, pid))
            && (ForksFollow(w, pid, home, child, main) <==> LeadsHome(w, pid))
            && (OwnerOf(w, pid) == Some(home) <==> LeadsHome(w, pid))
  {
    var w := Runs(es);
    RunsPlaces(es);
    hide Runs;
    CallsFollowExactly(w, pid, home);
    ForksFollowExactly(w, pid, home, child, main);
    hide CallsFollow, ForksFollow;
    LeadsHomeExactly(w, pid);
    if OwnerOf(w, pid).Some? && IsHome(w, pid, OwnerOf(w, pid).value) {
      HomeUnique(w, pid, home, OwnerOf(w, pid).value);
    }
  }

  lemma LeadsHomeExactly(w: World, pid: int)
    ensures ActsForOwn(w, pid) <==> LeadsHome(w, pid)
  {
    OwnerExactly(w, pid);
    hide EndsAt, At;
    if ActsForOwn(w, pid) {
      var n: nat :| EndsAt(w, pid, n);
      assert IsHome(w, pid, At(w, pid, n));
    }
  }

  // ----- how much a child can get

  ghost predicate CoveredIn(c: Cap, node: Cnode) {
    exists i :: 0 <= i < |node| && node[i].kind != Invalid && Attenuates(c, node[i])
  }

  /** Every cap of `a` attenuates one of `b`. */
  ghost predicate AtMost(a: Cnode, b: Cnode) {
    forall i :: 0 <= i < |a| && a[i].kind != Invalid ==> CoveredIn(a[i], b)
  }

  lemma AtMostSelf(a: Cnode)
    ensures AtMost(a, a)
  {
    forall i | 0 <= i < |a| && a[i].kind != Invalid ensures CoveredIn(a[i], a) {
      assert Attenuates(a[i], a[i]);
    }
  }

  /** What the task's own process holds: nothing when that is gone. */
  ghost function OwnCaps(w: World, pid: int): Cnode {
    if exists p :: IsHome(w, pid, p) then var p :| IsHome(w, pid, p); w.tasks[p].cnode else []
  }

  /** In every reachable state a fork's child holds at most what its father's own process holds exactly
      when the walk returns that process, or another that holds no more, or ends nowhere while the
      process holds full root. */
  lemma ForkExactly(es: seq<Event>, parent: int, child: int, main: bool)
    requires var w := Runs(es); Alive(w, parent) && child !in w.tasks && !Owner(w, parent).Endless?
    ensures var w := Runs(es); var v := Fork(w, parent, child, main); var own := OwnCaps(w, parent);
            child in v.tasks &&
            (AtMost(v.tasks[child].cnode, own) <==>
               match Owner(w, parent)
               case Found(q) => LeadsHome(w, parent) || AtMost(w.tasks[q].cnode, own)
               case Nobody => CoveredIn(ROOT_CAP, own))
  {
    var w := Runs(es);
    RunsPlaces(es);
    hide Runs;
    LeadsHomeExactly(w, parent);
    RootAtMost(OwnCaps(w, parent));
    if ActsForOwn(w, parent) {
      var q := OwnerOf(w, parent).value;
      AtMostSelf(w.tasks[q].cnode);
      OwnCapsOf(w, parent, q);
    }
  }

  lemma OwnCapsOf(w: World, pid: int, home: int)
    requires PlacesOk(w) && IsHome(w, pid, home)
    ensures OwnCaps(w, pid) == w.tasks[home].cnode
  {
    forall p | IsHome(w, pid, p) ensures p == home {
      HomeUnique(w, pid, p, home);
    }
  }

  lemma RootAtMost(own: Cnode)
    ensures AtMost(ROOT_CNODE, own) <==> CoveredIn(ROOT_CAP, own)
  {
    RootCnode();
    hide CoveredIn;
    assert ROOT_CNODE[0] == ROOT_CAP;
  }
}
