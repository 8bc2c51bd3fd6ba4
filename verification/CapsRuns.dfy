/** Where every capability comes from, over whole runs. */
module CapsRuns {
  import opened Options
  import opened Caps
  import opened CapsWalk

  // ----- provenance

  /** Everything ever issued: the kernel's root cap, what root holders minted, what rules built. */
  function Origins(w: World): set<Cap> {
    {ROOT_CAP} + w.minted + w.built
  }

  /** `c` is an attenuated copy of `o`. */
  predicate Attenuates(c: Cap, o: Cap) {
    c.kind == o.kind && c.obj == o.obj && c.rights <= o.rights
  }

  ghost predicate Derived(w: World, c: Cap) {
    c.kind == Invalid || exists o :: o in Origins(w) && Attenuates(c, o)
  }

  ghost predicate CnodeOk(w: World, c: Cnode) {
    |c| == CNODE_SLOTS && forall i :: 0 <= i < |c| ==> Derived(w, c[i])
  }

  /** A table of live tasks made of identities that were really given out. */
  predicate Known(living: map<int, nat>, born: map<nat, int>) {
    forall p :: p in living ==> living[p] in born && born[living[p]] == p
  }

  /** The raw words `a` and `b` named this object while some known tasks were alive. */
  ghost predicate Names(kind: Kind, a: nat, b: nat, obj: Object, born: map<nat, int>) {
    exists living :: Known(living, born) && ObjectOf(kind, a, b, living) == Some(obj)
  }

  ghost predicate BuiltFrom(c: Cap, e: Entry, born: map<nat, int>) {
    c.kind == e.kind && c.rights == e.rights && Names(e.kind, e.a, e.b, c.obj, born)
  }

  ghost predicate Ruled(w: World, c: Cap) {
    exists r, e :: 0 <= r < |w.policy| && 0 <= e < |w.policy[r].entries| && BuiltFrom(c, w.policy[r].entries[e], w.born)
  }

  ghost predicate Mintage(w: World, c: Cap) {
    Mintable(c.kind) && exists a, b :: Names(c.kind, a, b, c.obj, w.born)
  }

  /** Every live task is on record under the identity it has. */
  predicate BornOk(w: World) {
    && (forall p :: p in w.tasks && w.tasks[p].uuid != 0 ==> w.tasks[p].uuid in w.born && w.born[w.tasks[p].uuid] == p)
    && (forall u :: u in w.born ==> u <= w.lastUuid)
  }

  ghost predicate CnodesOk(w: World) {
    forall p :: p in w.tasks ==> CnodeOk(w, w.tasks[p].cnode)
  }

  ghost predicate IssuedOk(w: World) {
    && (forall c :: c in w.minted ==> Mintage(w, c))
    && (forall c :: c in w.built ==> Ruled(w, c) && c.kind != Invalid)
  }

  ghost predicate Good(w: World) {
    BornOk(w) && CnodesOk(w) && IssuedOk(w)
  }

  lemma InsertDerived(w: World, c: Cnode, cap: Cap)
    requires CnodeOk(w, c) && Derived(w, cap)
    ensures CnodeOk(w, Insert(c, cap))
  {
  }

  lemma IssuedDerived(w: World, c: Cap)
    requires c in Origins(w)
    ensures Derived(w, c)
  {
    assert Attenuates(c, c);
  }

  lemma EmptyOk(w: World)
    ensures CnodeOk(w, EmptyCnode()) && CnodeOk(w, ROOT_CNODE)
  {
    IssuedDerived(w, ROOT_CAP);
    InsertDerived(w, EmptyCnode(), ROOT_CAP);
  }

  lemma {:induction false} InsertAllDerived(w: World, c: Cnode, caps: seq<Cap>)
    requires CnodeOk(w, c) && forall i :: 0 <= i < |caps| ==> caps[i] in Origins(w)
    ensures CnodeOk(w, InsertAll(c, caps))
    decreases |caps|
  {
    if caps != [] {
      var n := |caps| - 1;
      InsertAllDerived(w, c, caps[..n]);
      IssuedDerived(w, caps[n]);
      InsertDerived(w, InsertAll(c, caps[..n]), caps[n]);
    }
  }

  // ----- records only grow

  ghost predicate SubPolicy(a: seq<Rule>, b: seq<Rule>) {
    |a| <= |b| && forall r :: 0 <= r < |a| ==> a[r].entries <= b[r].entries
  }

  ghost predicate Grows(w: World, v: World) {
    && w.minted <= v.minted && w.built <= v.built && SubPolicy(w.policy, v.policy)
    && (forall u :: u in w.born ==> u in v.born && v.born[u] == w.born[u])
  }

  lemma NamesGrows(w: World, v: World, kind: Kind, a: nat, b: nat, obj: Object)
    requires Grows(w, v) && Names(kind, a, b, obj, w.born)
    ensures Names(kind, a, b, obj, v.born)
  {
    var living :| Known(living, w.born) && ObjectOf(kind, a, b, living) == Some(obj);
    assert Known(living, v.born);
  }

  lemma RuledGrows(w: World, v: World, c: Cap)
    requires Grows(w, v) && Ruled(w, c)
    ensures Ruled(v, c)
  {
    var r, i :| 0 <= r < |w.policy| && 0 <= i < |w.policy[r].entries| && BuiltFrom(c, w.policy[r].entries[i], w.born);
    var e := w.policy[r].entries[i];
    assert w.policy[r].entries <= v.policy[r].entries;
    NamesGrows(w, v, e.kind, e.a, e.b, c.obj);
    assert BuiltFrom(c, v.policy[r].entries[i], v.born);
  }

  lemma MintageGrows(w: World, v: World, c: Cap)
    requires Grows(w, v) && Mintage(w, c)
    ensures Mintage(v, c)
  {
    var a, b :| Names(c.kind, a, b, c.obj, w.born);
    NamesGrows(w, v, c.kind, a, b, c.obj);
  }

  lemma CnodeGrows(w: World, v: World, c: Cnode)
    requires CnodeOk(w, c) && Grows(w, v)
    ensures CnodeOk(v, c)
  {
    forall i | 0 <= i < |c| ensures Derived(v, c[i]) {
      assert Derived(w, c[i]);
    }
  }

  /** A step is sound when what it issues is, and every cnode afterwards is made of what was issued. */
  lemma StepGood(w: World, v: World)
    requires Good(w) && Grows(w, v) && BornOk(v)
    requires forall c :: c in v.minted - w.minted ==> Mintage(v, c)
    requires forall c :: c in v.built - w.built ==> Ruled(v, c) && c.kind != Invalid
    requires forall p :: p in v.tasks ==> CnodeOk(w, v.tasks[p].cnode) || CnodeOk(v, v.tasks[p].cnode)
    ensures Good(v)
  {
    hide CnodeOk, Ruled, Mintage, Grows, BornOk;
    forall p | p in v.tasks ensures CnodeOk(v, v.tasks[p].cnode) {
      if CnodeOk(w, v.tasks[p].cnode) {
        CnodeGrows(w, v, v.tasks[p].cnode);
      }
    }
    forall c | c in v.minted ensures Mintage(v, c) {
      if c in w.minted {
        MintageGrows(w, v, c);
      }
    }
    forall c | c in v.built ensures Ruled(v, c) && c.kind != Invalid {
      if c in w.built {
        RuledGrows(w, v, c);
      }
    }
  }

  /** Any step that issues nothing and only copies, empties, weakens or keeps cnodes. */
  lemma TasksGood(w: World, v: World)
    requires Good(w) && BornOk(v) && v.policy == w.policy && v.minted == w.minted && v.built == w.built
    requires forall u :: u in w.born ==> u in v.born && v.born[u] == w.born[u]
    requires forall p :: p in v.tasks ==> CnodeOk(w, v.tasks[p].cnode)
    ensures Good(v)
  {
    hide CnodeOk, BornOk, Good;
    StepGood(w, v);
  }

  lemma NamedGood(w: World, pid: int, t: Task)
    requires Good(w) && CnodeOk(w, t.cnode)
    ensures Good(Named(w, pid, t))
  {
    var v := Named(w, pid, t);
    assert w.lastUuid + 1 !in w.born;
    hide CnodeOk;
    TasksGood(w, v);
  }

  lemma CreatedGood(w: World, pid: int, main: bool, father: int, space: nat, uid: int, cmd: string, c: Cnode)
    requires Good(w) && CnodeOk(w, c)
    ensures Good(Created(w, pid, main, father, space, uid, cmd, c))
  {
    var u := w.lastUuid + 1;
    NamedGood(w, pid, Task(u, u, if main then u else space, main, father, uid, cmd, c));
  }

  lemma SetCnodeGood(w: World, pid: int, c: Cnode)
    requires Good(w) && pid in w.tasks && CnodeOk(w, c)
    ensures Good(SetCnode(w, pid, c))
  {
    hide CnodeOk;
    TasksGood(w, SetCnode(w, pid, c));
  }

  // ----- what a policy builds

  lemma {:induction false} BuildAllFrom(es: seq<Entry>, living: map<int, nat>, born: map<nat, int>, i: nat)
      returns (e: nat)
    requires i < |BuildAll(es, living)| && Known(living, born)
    ensures e < |es| && BuiltFrom(BuildAll(es, living)[i], es[e], born) && BuildAll(es, living)[i].kind != Invalid
    decreases |es|
  {
    var n := |es| - 1;
    if i < |BuildAll(es[..n], living)| {
      e := BuildAllFrom(es[..n], living, born, i);
    } else {
      e := n;
      assert Names(es[n].kind, es[n].a, es[n].b, BuildAll(es, living)[i].obj, born);
    }
  }

  lemma {:induction false} PolicyCapsFrom(rules: seq<Rule>, cmd: string, living: map<int, nat>, born: map<nat, int>,
      i: nat)
    returns (r: nat, e: nat)
    requires i < |PolicyCaps(rules, cmd, living)| && Known(living, born)
    ensures r < |rules| && e < |rules[r].entries| && Matches(cmd, rules[r].cmd)
    ensures BuiltFrom(PolicyCaps(rules, cmd, living)[i], rules[r].entries[e], born)
    ensures PolicyCaps(rules, cmd, living)[i].kind != Invalid
    decreases |rules|
  {
    hide BuiltFrom, Known;
    var n := |rules| - 1;
    var m := |PolicyCaps(rules[..n], cmd, living)|;
    if i < m {
      r, e := PolicyCapsFrom(rules[..n], cmd, living, born, i);
    } else {
      e := BuildAllFrom(rules[n].entries, living, born, i - m);
      r := n;
    }
  }

  lemma LivingKnown(w: World)
    requires BornOk(w)
    ensures Known(Living(w), w.born)
  {
  }

  // ----- every step

  /** What an exec builds is on record under the rules it came from. */
  lemma BuiltGood(v: World, cmd: string)
    requires Good(v)
    ensures Good(v.(built := v.built + (set c | c in PolicyCaps(v.policy, cmd, Living(v)))))
  {
    var caps := PolicyCaps(v.policy, cmd, Living(v));
    var x := v.(built := v.built + (set c | c in caps));
    LivingKnown(v);
    hide CnodeOk, BuiltFrom, PolicyCaps, Living, Mintage, Known;
    forall c | c in x.built - v.built ensures Ruled(x, c) && c.kind != Invalid {
      var i :| 0 <= i < |caps| && caps[i] == c;
      var r, e := PolicyCapsFrom(v.policy, cmd, Living(v), v.born, i);
      assert BuiltFrom(c, x.policy[r].entries[e], x.born);
    }
    hide Ruled;
    StepGood(v, x);
  }

  lemma ExecCnodeOk(x: World, uid: int, cmd: string, living: map<int, nat>)
    requires forall c :: c in PolicyCaps(x.policy, cmd, living) ==> c in x.built
    ensures CnodeOk(x, ExecCnode(uid, cmd, x.policy, living))
  {
    hide CnodeOk, Insert, InsertAll, PolicyCaps;
    EmptyOk(x);
    var caps := PolicyCaps(x.policy, cmd, living);
    var reset := if uid <= 0 then Insert(EmptyCnode(), ROOT_CAP) else EmptyCnode();
    forall i | 0 <= i < |caps| ensures caps[i] in Origins(x) {
      assert caps[i] in caps;
    }
    InsertAllDerived(x, reset, caps);
  }

  lemma HeldOk(w: World, pid: int)
    requires Good(w) && pid in w.tasks
    ensures CnodeOk(w, w.tasks[pid].cnode)
  {
  }

  lemma ExecGood(w: World, pid: int, cmd: string)
    requires Good(w)
    ensures Good(Exec(w, pid, cmd))
  {
    hide Good, CnodeOk, PolicyCaps, ExecCnode, Living;
    if Alive(w, pid) {
      HeldOk(w, pid);
      var v := Named(w, pid, w.tasks[pid].(cmd := cmd));
      NamedGood(w, pid, w.tasks[pid].(cmd := cmd));
      BuiltGood(v, cmd);
      var x := v.(built := v.built + (set c | c in PolicyCaps(v.policy, cmd, Living(v))));
      ExecCnodeOk(x, v.tasks[pid].uid, cmd, Living(v));
      SetCnodeGood(x, pid, ExecCnode(v.tasks[pid].uid, cmd, v.policy, Living(v)));
    }
  }

  /** What is minted names an object of its kind; a task only while that task was alive. */
  lemma MintGood(w: World, pid: int, kind: Kind, rights: set<Right>, a: nat, b: nat)
    requires Good(w)
    ensures Good(Mint(w, pid, kind, rights, a, b))
  {
    var o := OwnerOf(w, pid);
    var obj := ObjectOf(kind, a, b, Living(w));
    LivingKnown(w);
    hide CnodeOk, Ruled, ObjectOf, Living, Known;
    if o.Some? && Mintable(kind) && obj.Some? {
      var c := Cap(kind, rights, obj.value);
      var v := w.(minted := w.minted + {c});
      assert Names(kind, a, b, obj.value, v.born);
      StepGood(w, v);
      IssuedDerived(v, c);
      InsertDerived(v, v.tasks[o.value].cnode, c);
      SetCnodeGood(v, o.value, Insert(v.tasks[o.value].cnode, c));
    }
  }

  /** A grant forwards the same kind and object with no right added. */
  lemma GrantGood(w: World, pid: int, target: int, slot: nat, mask: Option<set<Right>>)
    requires Good(w)
    ensures Good(Grant(w, pid, target, slot, mask))
  {
    var o, t := OwnerOf(w, pid), OwnerOf(w, target);
    if o.Some? && t.Some? && slot < |w.tasks[o.value].cnode| {
      HeldOk(w, o.value);
      HeldOk(w, t.value);
      hide Good;
      var src := w.tasks[o.value].cnode[slot];
      assert Derived(w, src);
      var c := src.(rights := if mask.Some? then src.rights * mask.value else src.rights);
      Weaker(w, src, c);
      InsertDerived(w, w.tasks[t.value].cnode, c);
      SetCnodeGood(w, t.value, Insert(w.tasks[t.value].cnode, c));
    }
  }

  lemma Weaker(w: World, a: Cap, b: Cap)
    requires Derived(w, a) && Attenuates(b, a)
    ensures Derived(w, b)
  {
    if a.kind != Invalid {
      var o :| o in Origins(w) && Attenuates(a, o);
      assert Attenuates(b, o);
    }
  }

  lemma RevokeGood(w: World, pid: int, slot: nat)
    requires Good(w)
    ensures Good(Revoke(w, pid, slot))
  {
    var o := OwnerOf(w, pid);
    if o.Some? && slot < |w.tasks[o.value].cnode| {
      var c := w.tasks[o.value].cnode;
      HeldOk(w, o.value);
      assert CnodeOk(w, c[slot := NO_CAP]);
      SetCnodeGood(w, o.value, c[slot := NO_CAP]);
    }
  }

  lemma SetuidGood(w: World, pid: int, uid: int)
    requires Good(w)
    ensures Good(Setuid(w, pid, uid))
  {
    EmptyOk(w);
    hide CnodeOk;
    TasksGood(w, Setuid(w, pid, uid));
  }

  lemma ForkGood(w: World, parent: int, pid: int, main: bool)
    requires Good(w)
    ensures Good(Fork(w, parent, pid, main))
  {
    EmptyOk(w);
    hide CnodeOk;
    var o := Owner(w, parent);
    if Alive(w, parent) && pid !in w.tasks && !o.Endless? {
      var c := if o.Found? then w.tasks[o.pid].cnode else ROOT_CNODE;
      CreatedGood(w, pid, main, parent, w.tasks[parent].space, w.tasks[parent].uid, w.tasks[parent].cmd, c);
    }
  }

  lemma BootGood(w: World, pid: int)
    requires Good(w)
    ensures Good(Boot(w, pid))
  {
    EmptyOk(w);
    hide CnodeOk;
    if pid !in w.tasks {
      CreatedGood(w, pid, true, -1, 0, 0, [], ROOT_CNODE);
    }
  }

  /** Rules only grow, so what was built stays accounted for. */
  lemma PolicyAddGood(w: World, pid: int, cmd: string, e: Entry)
    requires Good(w)
    ensures Good(PolicyAdd(w, pid, cmd, e))
  {
    hide CnodeOk, Ruled, Mintage;
    StepGood(w, PolicyAdd(w, pid, cmd, e));
  }

  lemma EndGood(w: World, pid: int)
    requires Good(w)
    ensures Good(Exit(w, pid)) && Good(Bury(w, pid)) && Good(Detach(w, pid))
  {
    hide CnodeOk;
    TasksGood(w, Detach(w, pid));
    TasksGood(w, Exit(w, pid));
    TasksGood(w, Bury(w, pid));
  }

  datatype Event =
    | EBoot(pid: int)
    | EFork(parent: int, pid: int, main: bool)
    | EExec(pid: int, cmd: string)
    | ESetuid(pid: int, uid: int)
    | EMint(pid: int, kind: Kind, rights: set<Right>, a: nat, b: nat)
    | EGrant(pid: int, target: int, slot: nat, mask: Option<set<Right>>)
    | ERevoke(pid: int, slot: nat)
    | EPolicy(pid: int, cmd: string, entry: Entry)
    | EExit(pid: int)
    | EBury(pid: int)
    | EDetach(pid: int)

  function Next(w: World, e: Event): World {
    match e
    case EBoot(pid) => Boot(w, pid)
    case EFork(parent, pid, main) => Fork(w, parent, pid, main)
    case EExec(pid, cmd) => Exec(w, pid, cmd)
    case ESetuid(pid, uid) => Setuid(w, pid, uid)
    case EMint(pid, kind, rights, a, b) => Mint(w, pid, kind, rights, a, b)
    case EGrant(pid, target, slot, mask) => Grant(w, pid, target, slot, mask)
    case ERevoke(pid, slot) => Revoke(w, pid, slot)
    case EPolicy(pid, cmd, entry) => PolicyAdd(w, pid, cmd, entry)
    case EExit(pid) => Exit(w, pid)
    case EBury(pid) => Bury(w, pid)
    case EDetach(pid) => Detach(w, pid)
  }

  lemma NextGood(w: World, e: Event)
    requires Good(w)
    ensures Good(Next(w, e))
  {
    hide Good, Boot, Fork, Exec, Setuid, Mint, Grant, Revoke, PolicyAdd, Exit, Bury, Detach;
    match e
    case EBoot(pid) => BootGood(w, pid);
    case EFork(parent, pid, main) => ForkGood(w, parent, pid, main);
    case EExec(pid, cmd) => ExecGood(w, pid, cmd);
    case ESetuid(pid, uid) => SetuidGood(w, pid, uid);
    case EMint(pid, kind, rights, a, b) => MintGood(w, pid, kind, rights, a, b);
    case EGrant(pid, target, slot, mask) => GrantGood(w, pid, target, slot, mask);
    case ERevoke(pid, slot) => RevokeGood(w, pid, slot);
    case EPolicy(pid, cmd, entry) => PolicyAddGood(w, pid, cmd, entry);
    case EExit(pid) => EndGood(w, pid);
    case EBury(pid) => EndGood(w, pid);
    case EDetach(pid) => EndGood(w, pid);
  }

  const START := World(map[], [], 0, map[], {}, {})

  function RunsFrom(w: World, es: seq<Event>): World {
    if es == [] then w else Next(RunsFrom(w, es[..|es| - 1]), es[|es| - 1])
  }

  function Runs(es: seq<Event>): World {
    RunsFrom(START, es)
  }

  lemma {:induction false} CapRunsGood(es: seq<Event>)
    ensures Good(Runs(es))
    decreases |es|
  {
    if es != [] {
      hide Next, Good;
      CapRunsGood(es[..|es| - 1]);
      NextGood(Runs(es[..|es| - 1]), es[|es| - 1]);
    }
  }

  predicate Holds(w: World, pid: int, i: int) {
    pid in w.tasks && 0 <= i < |w.tasks[pid].cnode| && w.tasks[pid].cnode[i].kind != Invalid
  }

  /** Every cap anyone holds attenuates, with the same kind and object, the kernel's root cap, a cap a
      root holder minted (never root), or a cap an installed rule describes, object included. */
  lemma CapsHaveProvenance(es: seq<Event>, pid: int, i: nat)
    requires Holds(Runs(es), pid, i)
    ensures var w := Runs(es); var c := w.tasks[pid].cnode[i];
            exists o :: Attenuates(c, o)
                && (o == ROOT_CAP || (o in w.minted && Mintage(w, o)) || (o in w.built && Ruled(w, o)))
  {
    CapRunsGood(es);
    var w := Runs(es);
    hide Runs, Mintage, Ruled;
    var c := w.tasks[pid].cnode[i];
    assert CnodeOk(w, w.tasks[pid].cnode);
    assert Derived(w, c);
    var o :| o in Origins(w) && Attenuates(c, o);
    assert o == ROOT_CAP || o in w.minted || o in w.built;
  }

  /** A cap on a task names an identity really given to that pid, so never a later task with the pid. */
  lemma InstancesWereAlive(es: seq<Event>, pid: int, i: nat, p: int, u: nat)
    requires Holds(Runs(es), pid, i) && Runs(es).tasks[pid].cnode[i].obj == Instance(p, u)
    ensures u in Runs(es).born && Runs(es).born[u] == p
  {
    var w := Runs(es);
    var c := w.tasks[pid].cnode[i];
    CapsHaveProvenance(es, pid, i);
    hide Runs;
    var o :| Attenuates(c, o) && (o == ROOT_CAP || (o in w.minted && Mintage(w, o)) || (o in w.built && Ruled(w, o)));
    assert o.obj == Instance(p, u);
    if o in w.minted && Mintage(w, o) {
      var a, b :| Names(o.kind, a, b, o.obj, w.born);
      NamesAlive(o.kind, a, b, p, u, w.born);
    } else {
      var r, e :| 0 <= r < |w.policy| && 0 <= e < |w.policy[r].entries| && BuiltFrom(o, w.policy[r].entries[e], w.born);
      var x := w.policy[r].entries[e];
      NamesAlive(x.kind, x.a, x.b, p, u, w.born);
    }
  }

  lemma NamesAlive(kind: Kind, a: nat, b: nat, p: int, u: nat, born: map<nat, int>)
    requires Names(kind, a, b, Instance(p, u), born)
    ensures u in born && born[u] == p
  {
    var living :| Known(living, born) && ObjectOf(kind, a, b, living) == Some(Instance(p, u));
    assert Target(a, living) == Some(Instance(p, u));
  }

  /** A grant changes at most one slot, of the target's process; what lands there attenuates the named
      cap of the granter, who holds root or whose cap carries the right to grant. */
  lemma GrantForwards(w: World, pid: int, target: int, slot: nat, mask: Option<set<Right>>, q: int, i: nat)
    requires q in w.tasks && i < |w.tasks[q].cnode|
    ensures var v := Grant(w, pid, target, slot, mask);
            && q in v.tasks && |v.tasks[q].cnode| == |w.tasks[q].cnode|
            && (v.tasks[q].cnode[i] != w.tasks[q].cnode[i] ==>
                  && OwnerOf(w, target) == Some(q) && OwnerOf(w, pid).Some? && w.tasks[q].cnode[i].kind == Invalid
                  && var g := w.tasks[OwnerOf(w, pid).value].cnode;
                     slot < |g| && Attenuates(v.tasks[q].cnode[i], g[slot])
                         && (HasRoot(g) || CanGrant in g[slot].rights))
  {
  }

  // ----- where the root authority comes from

  predicate Rooted(w: World, p: int) {
    p in w.tasks && HasRoot(w.tasks[p].cnode)
  }

  predicate RootRule(rules: seq<Rule>, cmd: string) {
    exists r, i :: 0 <= r < |rules| && 0 <= i < |rules[r].entries| && Matches(cmd, rules[r].cmd)
        && rules[r].entries[i].kind == Root
  }

  /** The ways a task comes to hold root. */
  predicate Arrives(w: World, e: Event, p: int) {
    match e
    case EBoot(pid) => pid == p
    case EExec(pid, cmd) => pid == p && p in w.tasks && (w.tasks[p].uid <= 0 || RootRule(w.policy, cmd))
    case EGrant(pid, target, slot, mask) =>
      OwnerOf(w, target) == Some(p) && OwnerOf(w, pid).Some? && Rooted(w, OwnerOf(w, pid).value)
    case EFork(parent, pid, main) => pid == p
        && (Owner(w, parent).Nobody? || (OwnerOf(w, parent).Some? && Rooted(w, OwnerOf(w, parent).value)))
    case _ => false
  }

  lemma InsertRoot(c: Cnode, cap: Cap)
    ensures HasRoot(Insert(c, cap)) ==> HasRoot(c) || cap.kind == Root
  {
    if HasRoot(Insert(c, cap)) {
      var i :| 0 <= i < |c| && Insert(c, cap)[i].kind == Root;
      assert cap.kind != Root ==> c[i].kind == Root;
    }
  }

  lemma {:induction false} InsertAllRoot(c: Cnode, caps: seq<Cap>)
    ensures HasRoot(InsertAll(c, caps)) ==> HasRoot(c) || exists i :: 0 <= i < |caps| && caps[i].kind == Root
    decreases |caps|
  {
    if caps != [] {
      var n := |caps| - 1;
      InsertAllRoot(c, caps[..n]);
      InsertRoot(InsertAll(c, caps[..n]), caps[n]);
      hide HasRoot;
      if HasRoot(InsertAll(c, caps[..n])) && !HasRoot(c) {
        var i :| 0 <= i < n && caps[..n][i].kind == Root;
        assert caps[i].kind == Root;
      }
    }
  }

  lemma ExecRoot(w: World, pid: int, cmd: string)
    requires Alive(w, pid) && BornOk(w) && Rooted(Exec(w, pid, cmd), pid)
    ensures w.tasks[pid].uid <= 0 || RootRule(w.policy, cmd)
  {
    var v := Named(w, pid, w.tasks[pid].(cmd := cmd));
    var caps := PolicyCaps(w.policy, cmd, Living(v));
    assert BornOk(v);
    LivingKnown(v);
    if w.tasks[pid].uid > 0 {
      InsertAllRoot(EmptyCnode(), caps);
      var i :| 0 <= i < |caps| && caps[i].kind == Root;
      var r, e := PolicyCapsFrom(w.policy, cmd, Living(v), v.born, i);
      assert w.policy[r].entries[e].kind == Root;
    }
  }

  /** A step after which a task holds root that it did not hold before is one of those ways. */
  lemma RootArrives(w: World, e: Event, p: int)
    requires BornOk(w) && Rooted(Next(w, e), p) && !Rooted(w, p)
    ensures Arrives(w, e, p)
  {
    match e
    case EExec(pid, cmd) =>
      if Alive(w, pid) && pid == p {
        ExecRoot(w, pid, cmd);
      }
    case EGrant(pid, target, slot, mask) => GrantRoot(w, pid, target, slot, mask, p);
    case ERevoke(pid, slot) => RevokeRoot(w, pid, slot, p);
    case _ =>
  }

  lemma GrantRoot(w: World, pid: int, target: int, slot: nat, mask: Option<set<Right>>, p: int)
    requires Rooted(Grant(w, pid, target, slot, mask), p) && !Rooted(w, p)
    ensures OwnerOf(w, target) == Some(p) && OwnerOf(w, pid).Some? && Rooted(w, OwnerOf(w, pid).value)
  {
    var o := OwnerOf(w, pid);
    if o.Some? && slot < |w.tasks[o.value].cnode| {
      var src := w.tasks[o.value].cnode[slot];
      InsertRoot(w.tasks[p].cnode, src.(rights := if mask.Some? then src.rights * mask.value else src.rights));
      assert src.kind == Root ==> HasRoot(w.tasks[o.value].cnode);
    }
  }

  lemma RevokeRoot(w: World, pid: int, slot: nat, p: int)
    ensures Rooted(Revoke(w, pid, slot), p) ==> Rooted(w, p)
  {
    var v := Revoke(w, pid, slot);
    if Rooted(v, p) {
      var i :| 0 <= i < |v.tasks[p].cnode| && v.tasks[p].cnode[i].kind == Root;
      assert w.tasks[p].cnode[i].kind == Root;
    }
  }

  /** In every reachable state whoever holds root got it at some step of the run: booted by the kernel,
      execed with uid <= 0 or under a root rule, granted by a holder, or forked from a holder or from
      a task without owner. */
  lemma {:induction false} RootHasSource(es: seq<Event>, p: int) returns (k: nat)
    requires Rooted(Runs(es), p)
    ensures k < |es| && Arrives(Runs(es[..k]), es[k], p)
    decreases |es|
  {
    var n := |es| - 1;
    assert es != [];
    if Rooted(Runs(es[..n]), p) {
      k := RootHasSource(es[..n], p);
      assert es[..n][..k] == es[..k];
    } else {
      CapRunsGood(es[..n]);
      RootArrives(Runs(es[..n]), es[n], p);
      k := n;
    }
  }

  /** Nobody holds root, no rule hands it out, and no image would be execed with it. */
  predicate Rootless(w: World) {
    && (forall p :: p in w.tasks ==> !HasRoot(w.tasks[p].cnode) && w.tasks[p].uid > 0)
    && (forall r, i :: 0 <= r < |w.policy| && 0 <= i < |w.policy[r].entries| ==> w.policy[r].entries[i].kind != Root)
  }

  /** Not the kernel creating a process, nor a task without owner forking. */
  predicate Ordinary(w: World, e: Event) {
    !e.EBoot? && (e.EFork? ==> !Owner(w, e.parent).Nobody?)
  }

  lemma NextUnprivileged(w: World, e: Event)
    requires Rootless(w) && !e.EBoot?
    ensures Next(w, e).policy == w.policy
    ensures forall p :: p in Next(w, e).tasks ==> Next(w, e).tasks[p].uid > 0
  {
    hide HasRoot, Insert, ExecCnode, EmptyCnode, PolicyCaps;
    assert forall p :: OwnerOf(w, p).Some? ==> !HasRoot(w.tasks[OwnerOf(w, p).value].cnode);
    hide OwnerOf;
  }

  lemma NextRootless(w: World, e: Event)
    requires Good(w) && Rootless(w) && Ordinary(w, e)
    ensures Rootless(Next(w, e))
  {
    NextUnprivileged(w, e);
    hide HasRoot, Next;
    forall p | p in Next(w, e).tasks ensures !HasRoot(Next(w, e).tasks[p].cnode) {
      if Rooted(Next(w, e), p) {
        RootArrives(w, e, p);
        NotArriving(w, e, p);
      }
    }
  }

  lemma NotArriving(w: World, e: Event, p: int)
    requires Rootless(w) && Ordinary(w, e)
    ensures !Arrives(w, e, p)
  {
    hide HasRoot;
  }

  /** Once root is gone it is gone for good: no run of ordinary steps brings it back. */
  lemma {:induction false} RootNeverReturns(w: World, es: seq<Event>)
    requires Good(w) && Rootless(w)
    requires forall k :: 0 <= k < |es| ==> Ordinary(RunsFrom(w, es[..k]), es[k])
    ensures Rootless(RunsFrom(w, es)) && Good(RunsFrom(w, es))
    decreases |es|
  {
    if es != [] {
      var n := |es| - 1;
      forall k | 0 <= k < n ensures Ordinary(RunsFrom(w, es[..n][..k]), es[..n][k]) {
        assert es[..n][..k] == es[..k];
      }
      RootNeverReturns(w, es[..n]);
      assert Ordinary(RunsFrom(w, es[..n]), es[n]);
      hide Rootless, Good, Next, Ordinary;
      NextRootless(RunsFrom(w, es[..n]), es[n]);
      NextGood(RunsFrom(w, es[..n]), es[n]);
    }
  }

  lemma RootCnode()
    ensures ROOT_CNODE[0] == ROOT_CAP && forall i :: 0 < i < |ROOT_CNODE| ==> ROOT_CNODE[i] == NO_CAP
  {
  }

  // ----- what an exec leaves

  function Padded(caps: seq<Cap>): Cnode {
    if |caps| >= CNODE_SLOTS then caps[..CNODE_SLOTS]
    else caps + seq(CNODE_SLOTS - |caps|, i => NO_CAP)
  }

  lemma {:induction false} InsertAllIsPrefix(a: seq<Cap>, caps: seq<Cap>)
    requires forall i :: 0 <= i < |a| ==> a[i].kind != Invalid
    requires forall i :: 0 <= i < |caps| ==> caps[i].kind != Invalid
    ensures InsertAll(Padded(a), caps) == Padded(a + caps)
    decreases |caps|
  {
    if caps == [] {
      assert a + caps == a;
    } else {
      var n := |caps| - 1;
      InsertAllIsPrefix(a, caps[..n]);
      var p := a + caps[..n];
      assert a + caps == p + [caps[n]];
      InsertPadded(p, caps[n]);
    }
  }

  lemma InsertPadded(p: seq<Cap>, c: Cap)
    requires c.kind != Invalid && forall i :: 0 <= i < |p| ==> p[i].kind != Invalid
    ensures Insert(Padded(p), c) == Padded(p + [c])
  {
    var q := Padded(p);
    var k := FreeSlot(q, 0);
    if |p| < CNODE_SLOTS {
      assert k == |p| by {
        assert q[|p|].kind == Invalid;
        assert forall j :: 0 <= j < |p| ==> q[j] == p[j];
      }
      assert q[k := c] == Padded(p + [c]);
    } else {
      assert k == |q|;
    }
  }

  lemma {:induction false} EntryValid(es: seq<Entry>, living: map<int, nat>, i: nat)
    requires i < |BuildAll(es, living)|
    ensures BuildAll(es, living)[i].kind != Invalid
    decreases |es|
  {
    if i < |BuildAll(es[..|es| - 1], living)| {
      EntryValid(es[..|es| - 1], living, i);
    }
  }

  lemma {:induction false} BuiltValid(rules: seq<Rule>, cmd: string, living: map<int, nat>, i: nat)
    requires i < |PolicyCaps(rules, cmd, living)|
    ensures PolicyCaps(rules, cmd, living)[i].kind != Invalid
    decreases |rules|
  {
    var n := |rules| - 1;
    var m := |PolicyCaps(rules[..n], cmd, living)|;
    if i < m {
      BuiltValid(rules[..n], cmd, living, i);
    } else {
      EntryValid(rules[n].entries, living, i - m);
    }
  }

  /** After an exec the cnode holds the root cap for a privileged image and then the caps of the
      matching rules, in order, as far as they fit - whatever it held before. */
  lemma ExecHoldsExactly(w: World, pid: int, cmd: string)
    requires Alive(w, pid)
    ensures var v := Exec(w, pid, cmd);
            pid in v.tasks && v.tasks[pid].cnode ==
              Padded((if w.tasks[pid].uid <= 0 then [ROOT_CAP] else []) + PolicyCaps(w.policy, cmd, Living(v)))
  {
    var v := Exec(w, pid, cmd);
    var x := Named(w, pid, w.tasks[pid].(cmd := cmd));
    assert Living(v) == Living(x);
    var caps := PolicyCaps(w.policy, cmd, Living(v));
    forall i | 0 <= i < |caps| ensures caps[i].kind != Invalid {
      BuiltValid(w.policy, cmd, Living(v), i);
    }
    assert Padded([]) == EmptyCnode();
    InsertPadded([], ROOT_CAP);
    assert [] + [ROOT_CAP] == [ROOT_CAP];
    if w.tasks[pid].uid <= 0 {
      InsertAllIsPrefix([ROOT_CAP], caps);
    } else {
      InsertAllIsPrefix([], caps);
      assert [] + caps == caps;
    }
  }

  /** Two worlds that agree on uid, policy and who is alive agree on the cnode after the exec. */
  lemma ExecForgets(w: World, v: World, pid: int, cmd: string)
    requires Alive(w, pid) && Alive(v, pid)
    requires w.policy == v.policy && w.tasks[pid].uid == v.tasks[pid].uid
    requires w.lastUuid == v.lastUuid && Living(w) == Living(v)
    ensures Exec(w, pid, cmd).tasks[pid].cnode == Exec(v, pid, cmd).tasks[pid].cnode
  {
    ExecHoldsExactly(w, pid, cmd);
    ExecHoldsExactly(v, pid, cmd);
    LivingAfterExec(w, pid, cmd);
    LivingAfterExec(v, pid, cmd);
  }

  lemma LivingAfterExec(w: World, pid: int, cmd: string)
    requires Alive(w, pid)
    ensures Living(Exec(w, pid, cmd)) == Living(w)[pid := w.lastUuid + 1]
  {
  }
}
