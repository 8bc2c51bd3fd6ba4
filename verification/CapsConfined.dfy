/** What follows for runs: when every task acts for its own process, and that authority then never
    leaves the processes it was given to. */
module CapsConfined {
  import opened Options
  import opened Caps
  import opened CapsWalk
  import opened CapsRuns
  import opened CapsHome

  // ----- runs in which the walk always leads home

  /** The father is alive, older and of the same space. */
  predicate LinkOk(w: World, p: int)
    requires p in w.tasks
  {
    var f := w.tasks[p].father;
    Alive(w, f) && w.tasks[f].space == w.tasks[p].space && w.tasks[f].birth < w.tasks[p].birth
  }

  ghost predicate Straight(w: World) {
    forall p :: Thread(w, p) ==> LinkOk(w, p)
  }

  /** The tasks an exit of `pid` ends. */
  predicate Dies(w: World, pid: int, t: int) {
    && Alive(w, pid) && t in w.tasks
    && (t == pid || (w.tasks[pid].main && !w.tasks[t].main && w.tasks[t].father == pid))
  }

  /** No live thread is left behind without its father, and none gives its father up for another
      process. */
  ghost predicate Orderly(w: World, e: Event) {
    match e
    case EExit(pid) => forall t :: Thread(w, t) && !Dies(w, pid, t) ==> !Dies(w, pid, w.tasks[t].father)
    case EDetach(pid) =>
      Thread(w, pid) ==> Alive(w, 0) && w.tasks[0].space == w.tasks[pid].space && w.tasks[0].birth < w.tasks[pid].birth
    case _ => true
  }

  /** The fields links are made of. */
  predicate SameLink(a: Task, b: Task) {
    SamePlace(a, b) && a.father == b.father && (a.uuid == 0 <==> b.uuid == 0)
  }

  lemma SameStraight(w: World, v: World)
    requires Straight(w) && v.tasks.Keys == w.tasks.Keys
    requires forall p :: p in v.tasks ==> SameLink(w.tasks[p], v.tasks[p])
    ensures Straight(v)
  {
    forall p | Thread(v, p) ensures LinkOk(v, p) {
      assert Thread(w, p) && LinkOk(w, p);
    }
  }

  lemma NextSameLinks(w: World, e: Event)
    requires e.EExec? || e.ESetuid? || e.EMint? || e.EGrant? || e.ERevoke? || e.EPolicy?
    ensures var v := Next(w, e);
            v.tasks.Keys == w.tasks.Keys && forall p :: p in v.tasks ==> SameLink(w.tasks[p], v.tasks[p])
  {
    hide Insert, ExecCnode, OwnerOf, HasRoot, EmptyCnode, PolicyCaps;
  }

  lemma CreatedStraight(w: World, pid: int, main: bool, father: int, uid: int, cmd: string, c: Cnode)
    requires Straight(w) && PlacesOk(w) && pid !in w.tasks && (!main ==> Alive(w, father))
    ensures Straight(Created(w, pid, main, father, if main then 0 else w.tasks[father].space, uid, cmd, c))
  {
    var v := Created(w, pid, main, father, if main then 0 else w.tasks[father].space, uid, cmd, c);
    forall p | Thread(v, p) ensures LinkOk(v, p) {
      assert p != pid ==> Thread(w, p) && LinkOk(w, p);
    }
  }

  lemma ForkStraight(w: World, parent: int, pid: int, main: bool)
    requires Straight(w) && PlacesOk(w)
    ensures Straight(Fork(w, parent, pid, main))
  {
    var o := Owner(w, parent);
    if Alive(w, parent) && pid !in w.tasks && !o.Endless? {
      var c := if o.Found? then w.tasks[o.pid].cnode else ROOT_CNODE;
      CreatedStraight(w, pid, main, parent, w.tasks[parent].uid, w.tasks[parent].cmd, c);
    }
  }

  lemma ExitStraight(w: World, pid: int)
    requires Straight(w)
    ensures Straight(Exit(w, pid)) <==> Orderly(w, EExit(pid))
  {
    var v := Exit(w, pid);
    assert forall t :: Thread(v, t) <==> Thread(w, t) && !Dies(w, pid, t);
    forall t | Thread(v, t) ensures LinkOk(v, t) <==> !Dies(w, pid, w.tasks[t].father) {
      assert Thread(w, t) && LinkOk(w, t);
    }
  }

  lemma DetachStraight(w: World, pid: int)
    requires Straight(w)
    ensures Straight(Detach(w, pid)) <==> Orderly(w, EDetach(pid))
  {
    var v := Detach(w, pid);
    assert forall t :: Thread(v, t) <==> Thread(w, t);
    forall t | Thread(v, t) && t != pid ensures LinkOk(v, t) {
      assert LinkOk(w, t);
    }
    if Thread(w, pid) {
      assert LinkOk(v, pid) <==> Orderly(w, EDetach(pid));
    }
  }

  lemma BuryStraight(w: World, pid: int)
    requires Straight(w)
    ensures Straight(Bury(w, pid))
  {
    var v := Bury(w, pid);
    forall t | Thread(v, t) ensures LinkOk(v, t) {
      assert Thread(w, t) && LinkOk(w, t);
    }
  }

  /** Straightness survives a step exactly when the step is orderly. */
  lemma StraightExactly(w: World, e: Event)
    requires Straight(w) && PlacesOk(w)
    ensures Straight(Next(w, e)) <==> Orderly(w, e)
  {
    hide Straight, PlacesOk, Fork, Exit, Detach, Bury, Exec, Setuid, Mint, Grant, Revoke, PolicyAdd;
    match e
    case EBoot(pid) =>
      if pid !in w.tasks {
        CreatedStraight(w, pid, true, -1, 0, [], ROOT_CNODE);
      }
    case EFork(parent, pid, main) => ForkStraight(w, parent, pid, main);
    case EExit(pid) => ExitStraight(w, pid);
    case EDetach(pid) => DetachStraight(w, pid);
    case EBury(pid) => BuryStraight(w, pid);
    case _ =>
      NextSameLinks(w, e);
      SameStraight(w, Next(w, e));
  }

  lemma {:induction false} ChainStraight(w: World, pid: int, k: nat)
    requires Straight(w) && Alive(w, pid) && forall j :: 0 <= j < k ==> ThreadAt(w, pid, j)
    ensures var q := At(w, pid, k);
            Alive(w, q) && w.tasks[q].space == w.tasks[pid].space && w.tasks[q].birth + k <= w.tasks[pid].birth
  {
    if k > 0 {
      ChainStraight(w, pid, k - 1);
      assert ThreadAt(w, pid, k - 1);
      assert LinkOk(w, At(w, pid, k - 1));
    }
  }

  /** In a straight world every task acts for its own process. */
  lemma StraightActs(w: World, pid: int)
    requires Straight(w) && Alive(w, pid)
    ensures ActsForOwn(w, pid)
  {
    OwnerExactly(w, pid);
    if Owner(w, pid).Endless? {
      var n := w.tasks[pid].birth + 1;
      EndlessForever(w, pid, n);
      EndlessExactly(w, pid, n);
      ChainStraight(w, pid, n);
    } else {
      var n: nat :| EndsAt(w, pid, n);
      ChainStraight(w, pid, n);
    }
  }

  lemma {:induction false} RunStraight(es: seq<Event>)
    requires forall k :: 0 <= k < |es| ==> Orderly(Runs(es[..k]), es[k])
    ensures Straight(Runs(es))
    decreases |es|
  {
    if es != [] {
      var n := |es| - 1;
      forall k | 0 <= k < n ensures Orderly(Runs(es[..n][..k]), es[..n][k]) {
        assert es[..n][..k] == es[..k];
      }
      RunStraight(es[..n]);
      assert Orderly(Runs(es[..n]), es[n]);
      RunsPlaces(es[..n]);
      hide Straight, PlacesOk, Orderly, Next;
      StraightExactly(Runs(es[..n]), es[n]);
    }
  }

  /** After any run of orderly steps every live task acts for its own process. */
  lemma OrderlyRunsLeadHome(es: seq<Event>, pid: int)
    requires forall k :: 0 <= k < |es| ==> Orderly(Runs(es[..k]), es[k])
    requires Alive(Runs(es), pid)
    ensures LeadsHome(Runs(es), pid)
  {
    RunStraight(es);
    hide Runs;
    StraightActs(Runs(es), pid);
    LeadsHomeExactly(Runs(es), pid);
  }

  // ----- authority stays where it was given

  /** Task `p` runs in one of the spaces `d`. */
  predicate Inside(w: World, d: set<nat>, p: int) {
    p in w.tasks && w.tasks[p].space in d
  }

  /** The spaces after a step: those of processes forked inside belong too. */
  function Spread(w: World, d: set<nat>, e: Event): set<nat> {
    if e.EFork? && e.pid !in w.tasks && Inside(w, d, e.parent) && e.pid in Next(w, e).tasks then
      d + {Next(w, e).tasks[e.pid].space}
    else d
  }

  ghost predicate CoveredInside(w: World, d: set<nat>, c: Cap) {
    exists p, i :: Inside(w, d, p) && Holds(w, p, i) && Attenuates(c, w.tasks[p].cnode[i])
  }

  /** Nobody inside `d'` holds in `v` what nobody inside `d` held in `w`. */
  ghost predicate NothingNew(w: World, d: set<nat>, v: World, d': set<nat>) {
    forall p, i :: Inside(v, d', p) && Holds(v, p, i) ==> CoveredInside(w, d, v.tasks[p].cnode[i])
  }

  /** Inside, forks are by tasks acting for their own process, and nothing is execed or minted; a grant
      to the inside comes from the inside. The outside may do anything else. */
  predicate HandsOn(w: World, d: set<nat>, e: Event) {
    match e
    case EFork(parent, pid, main) => Inside(w, d, parent) ==> ActsForOwn(w, parent) || Owner(w, parent).Endless?
    case EExec(pid, cmd) => !Inside(w, d, pid)
    case EMint(pid, kind, rights, a, b) => OwnerOf(w, pid).Some? ==> !Inside(w, d, OwnerOf(w, pid).value)
    case EGrant(pid, target, slot, mask) =>
      OwnerOf(w, pid).Some? && OwnerOf(w, target).Some? && Inside(w, d, OwnerOf(w, target).value) ==>
        Inside(w, d, OwnerOf(w, pid).value)
    case _ => true
  }

  predicate Given(w: World, d: set<nat>) {
    forall s :: s in d ==> s <= w.lastUuid
  }

  lemma HeldInside(w: World, d: set<nat>, p: int, i: int)
    requires Inside(w, d, p) && Holds(w, p, i)
    ensures CoveredInside(w, d, w.tasks[p].cnode[i])
  {
    assert Attenuates(w.tasks[p].cnode[i], w.tasks[p].cnode[i]);
  }

  lemma ForkHandsOn(w: World, d: set<nat>, e: Event, p: int, i: int)
    requires e.EFork? && HandsOn(w, d, e) && PlacesOk(w) && Given(w, d)
    requires Inside(Next(w, e), Spread(w, d, e), p) && Holds(Next(w, e), p, i)
    ensures CoveredInside(w, d, Next(w, e).tasks[p].cnode[i])
  {
    if p in w.tasks {
      HeldInside(w, d, p, i);
    } else {
      assert p == e.pid && Inside(w, d, e.parent);
      HeldInside(w, d, OwnerOf(w, e.parent).value, i);
    }
  }

  lemma GrantHandsOn(w: World, d: set<nat>, e: Event, p: int, i: int)
    requires e.EGrant? && HandsOn(w, d, e) && Inside(Next(w, e), d, p) && Holds(Next(w, e), p, i)
    ensures CoveredInside(w, d, Next(w, e).tasks[p].cnode[i])
  {
    var v := Next(w, e);
    assert p in w.tasks && |v.tasks[p].cnode| == |w.tasks[p].cnode|;
    if v.tasks[p].cnode[i] == w.tasks[p].cnode[i] {
      HeldInside(w, d, p, i);
    } else {
      GrantForwards(w, e.pid, e.target, e.slot, e.mask, p, i);
      var o := OwnerOf(w, e.pid).value;
      assert Inside(w, d, o) && Holds(w, o, e.slot);
    }
  }

  lemma HandsOnNothingNew(w: World, d: set<nat>, e: Event)
    requires HandsOn(w, d, e) && PlacesOk(w) && Given(w, d)
    ensures NothingNew(w, d, Next(w, e), Spread(w, d, e))
  {
    var v := Next(w, e);
    forall p, i | Inside(v, Spread(w, d, e), p) && Holds(v, p, i) ensures CoveredInside(w, d, v.tasks[p].cnode[i]) {
      if e.EFork? {
        ForkHandsOn(w, d, e, p, i);
      } else if e.EGrant? {
        GrantHandsOn(w, d, e, p, i);
      } else {
        OthersKeep(w, d, e, p, i);
        HeldInside(w, d, p, i);
      }
    }
  }

  lemma OthersKeep(w: World, d: set<nat>, e: Event, p: int, i: int)
    requires !e.EFork? && !e.EGrant? && HandsOn(w, d, e) && PlacesOk(w) && Given(w, d)
    requires Inside(Next(w, e), d, p) && Holds(Next(w, e), p, i)
    ensures Inside(w, d, p) && Holds(w, p, i) && Next(w, e).tasks[p].cnode[i] == w.tasks[p].cnode[i]
  {
    hide OwnerOf, HasRoot, PolicyCaps, ExecCnode;
  }

  lemma NothingNewChains(a: World, da: set<nat>, b: World, db: set<nat>, c: World, dc: set<nat>)
    requires NothingNew(a, da, b, db) && NothingNew(b, db, c, dc)
    ensures NothingNew(a, da, c, dc)
  {
    forall p, i | Inside(c, dc, p) && Holds(c, p, i) ensures CoveredInside(a, da, c.tasks[p].cnode[i]) {
      assert CoveredInside(b, db, c.tasks[p].cnode[i]);
      var q, j :| Inside(b, db, q) && Holds(b, q, j) && Attenuates(c.tasks[p].cnode[i], b.tasks[q].cnode[j]);
      assert CoveredInside(a, da, b.tasks[q].cnode[j]);
      var r, k :| Inside(a, da, r) && Holds(a, r, k) && Attenuates(b.tasks[q].cnode[j], a.tasks[r].cnode[k]);
      assert Attenuates(c.tasks[p].cnode[i], a.tasks[r].cnode[k]);
    }
  }

  function SpreadOver(w: World, d: set<nat>, es: seq<Event>): set<nat> {
    if es == [] then d
    else
      var n := |es| - 1;
      Spread(RunsFrom(w, es[..n]), SpreadOver(w, d, es[..n]), es[n])
  }

  lemma SpreadGiven(w: World, d: set<nat>, e: Event)
    requires Given(w, d) && PlacesOk(w)
    ensures Given(Next(w, e), Spread(w, d, e))
  {
    NextPlaces(w, e);
    LaterUuid(w, e);
    hide Next;
  }

  lemma LaterUuid(w: World, e: Event)
    ensures w.lastUuid <= Next(w, e).lastUuid
  {
  }

  /** For the processes of any spaces `d` and all their descendants, over any such run: no task of theirs
      ever holds a cap that does not attenuate one a task of `d` held at the start. */
  lemma {:induction false} AuthorityOnlyHandedOn(w: World, d: set<nat>, es: seq<Event>)
    requires PlacesOk(w) && Given(w, d)
    requires forall k :: 0 <= k < |es| ==> HandsOn(RunsFrom(w, es[..k]), SpreadOver(w, d, es[..k]), es[k])
    ensures NothingNew(w, d, RunsFrom(w, es), SpreadOver(w, d, es))
    ensures PlacesOk(RunsFrom(w, es)) && Given(RunsFrom(w, es), SpreadOver(w, d, es))
    decreases |es|
  {
    hide NothingNew, Next, HandsOn, PlacesOk, Given, Spread;
    if es == [] {
      NothingYet(w, d);
    } else {
      var n := |es| - 1;
      forall k | 0 <= k < n ensures HandsOn(RunsFrom(w, es[..n][..k]), SpreadOver(w, d, es[..n][..k]), es[..n][k]) {
        assert es[..n][..k] == es[..k];
      }
      AuthorityOnlyHandedOn(w, d, es[..n]);
      var v, dv := RunsFrom(w, es[..n]), SpreadOver(w, d, es[..n]);
      assert HandsOn(v, dv, es[n]);
      hide RunsFrom, SpreadOver;
      HandsOnNothingNew(v, dv, es[n]);
      NothingNewChains(w, d, v, dv, Next(v, es[n]), Spread(v, dv, es[n]));
      NextPlaces(v, es[n]);
      SpreadGiven(v, dv, es[n]);
      LastStep(w, d, es);
    }
  }

  lemma LastStep(w: World, d: set<nat>, es: seq<Event>)
    requires es != []
    ensures var n := |es| - 1; var v, dv := RunsFrom(w, es[..n]), SpreadOver(w, d, es[..n]);
            RunsFrom(w, es) == Next(v, es[n]) && SpreadOver(w, d, es) == Spread(v, dv, es[n])
  {
  }

  lemma NothingYet(w: World, d: set<nat>)
    ensures NothingNew(w, d, w, d)
  {
    forall p, i | Inside(w, d, p) && Holds(w, p, i) ensures CoveredInside(w, d, w.tasks[p].cnode[i]) {
      HeldInside(w, d, p, i);
    }
  }
}
