/** What each capability call does, exactly, said of the caps a process holds wherever they sit. */
module CapsExact {
  import opened Options
  import opened Caps

  /** The caps in a cnode, empty slots aside. */
  ghost function Holding(c: Cnode): multiset<Cap> {
    if c == [] then multiset{}
    else Holding(c[..|c| - 1]) + (if c[|c| - 1].kind == Invalid then multiset{} else multiset{c[|c| - 1]})
  }

  ghost function One(cap: Cap): multiset<Cap> {
    if cap.kind == Invalid then multiset{} else multiset{cap}
  }

  predicate HasPlace(c: Cnode) {
    exists i :: 0 <= i < |c| && c[i].kind == Invalid
  }

  lemma {:induction false} HoldingAt(c: Cnode, i: nat)
    requires i < |c|
    ensures One(c[i]) <= Holding(c)
    decreases |c|
  {
    if i < |c| - 1 {
      HoldingAt(c[..|c| - 1], i);
    }
  }

  lemma {:induction false} HoldingPut(c: Cnode, i: nat, cap: Cap)
    requires i < |c|
    ensures Holding(c[i := cap]) == Holding(c) - One(c[i]) + One(cap)
    decreases |c|
  {
    var n := |c| - 1;
    if i < n {
      assert c[i := cap][..n] == c[..n][i := cap];
      HoldingPut(c[..n], i, cap);
      HoldingAt(c[..n], i);
    } else {
      assert c[i := cap][..n] == c[..n];
    }
  }

  /** A cap goes in exactly when it is one and there is a place for it. */
  lemma InsertExactly(c: Cnode, cap: Cap)
    ensures Holding(Insert(c, cap)) == Holding(c) + (if HasPlace(c) then One(cap) else multiset{})
    ensures !HasPlace(c) ==> Insert(c, cap) == c
  {
    var k := FreeSlot(c, 0);
    if k < |c| {
      HoldingPut(c, k, cap);
    }
  }

  lemma {:induction false} EmptyHolds(c: Cnode)
    requires forall i :: 0 <= i < |c| ==> c[i].kind == Invalid
    ensures Holding(c) == multiset{}
    decreases |c|
  {
    if c != [] {
      EmptyHolds(c[..|c| - 1]);
    }
  }

  /** Nothing but the cnode of `p` differs, of all that the calls look at. */
  predicate OnlyCnode(w: World, v: World, p: int) {
    && p in w.tasks && v.tasks.Keys == w.tasks.Keys && v.policy == w.policy && v.born == w.born
    && v.tasks[p].(cnode := w.tasks[p].cnode) == w.tasks[p]
    && forall q :: q in w.tasks && q != p ==> v.tasks[q] == w.tasks[q]
  }

  // ----- handing caps around

  /** The rights a grant passes on. */
  function Passed(src: Cap, mask: Option<set<Right>>): set<Right> {
    match mask
    case None => src.rights
    case Some(m) => set r | r in src.rights && r in m
  }

  predicate Grants(w: World, pid: int, target: int, slot: nat, mask: Option<set<Right>>) {
    && OwnerOf(w, pid).Some? && OwnerOf(w, target).Some? && HasPlace(w.tasks[OwnerOf(w, target).value].cnode)
    && var g := w.tasks[OwnerOf(w, pid).value].cnode;
       && slot < |g| && slot < CNODE_SLOTS && g[slot].kind != Invalid && (HasRoot(g) || CanGrant in g[slot].rights)
       && Passed(g[slot], mask) != {}
  }

  /** A grant gives the target's process one more cap, the granter's with the rights asked for, exactly when
      the slot named holds one that the granter may pass on, some right is left and there is a place. Nobody
      loses a cap; any other grant changes nothing. */
  lemma GrantExactly(w: World, pid: int, target: int, slot: nat, mask: Option<set<Right>>)
    ensures var v := Grant(w, pid, target, slot, mask);
            if Grants(w, pid, target, slot, mask) then
              var src, t := w.tasks[OwnerOf(w, pid).value].cnode[slot], OwnerOf(w, target).value;
              && OnlyCnode(w, v, t)
              && Holding(v.tasks[t].cnode) == Holding(w.tasks[t].cnode)
                                              + multiset{Cap(src.kind, Passed(src, mask), src.obj)}
            else v == w
  {
    var o, t := OwnerOf(w, pid), OwnerOf(w, target);
    hide OwnerOf, Holding, HasRoot;
    if o.Some? && t.Some? && slot < |w.tasks[o.value].cnode| {
      var src := w.tasks[o.value].cnode[slot];
      assert Passed(src, mask) == if mask.Some? then src.rights * mask.value else src.rights;
      InsertExactly(w.tasks[t.value].cnode, Cap(src.kind, Passed(src, mask), src.obj));
      hide Insert;
    }
  }

  /** Minting gives the caller's process the cap asked for exactly when that process holds root, the kind
      may be minted, what it names is there and there is a place. */
  lemma MintExactly(w: World, pid: int, kind: Kind, rights: set<Right>, a: nat, b: nat)
    ensures var v := Mint(w, pid, kind, rights, a, b); var obj := ObjectOf(kind, a, b, Living(w));
            if Authorized(w, pid) && kind !in {Root, Invalid} && obj.Some?
               && HasPlace(w.tasks[OwnerOf(w, pid).value].cnode)
            then
              var o := OwnerOf(w, pid).value;
              && OnlyCnode(w, v, o)
              && Holding(v.tasks[o].cnode) == Holding(w.tasks[o].cnode) + multiset{Cap(kind, rights, obj.value)}
            else v.tasks == w.tasks && v.policy == w.policy && v.born == w.born
  {
    var o := OwnerOf(w, pid);
    var obj := ObjectOf(kind, a, b, Living(w));
    hide OwnerOf, Holding, HasRoot, ObjectOf;
    if o.Some? && obj.Some? {
      InsertExactly(w.tasks[o.value].cnode, Cap(kind, rights, obj.value));
      hide Insert;
    }
  }

  /** What a name in a request stands for: a target only while it lives, under its present identity. */
  lemma ObjectExactly(kind: Kind, a: nat, b: nat, w: World)
    ensures var o := ObjectOf(kind, a, b, Living(w));
            match kind
            case Invalid => o == None
            case Root => o == Some(Nothing)
            case Frame => o == Some(FrameAt(a, b))
            case Irq => o.Some? && o.value.IrqLine? && (a < 0x1_0000_0000 ==> o.value.irq == a)
            case Dma => o.Some? && o.value.DmaBlock? && (a < 0x8000_0000 ==> o.value.block == a)
            case _ =>
              && (o.Some? <==> Alive(w, Int32(a)))
              && (o.Some? ==> o.value == Instance(Int32(a), w.tasks[Int32(a)].uuid))
  {
  }

  /** Revoking empties the slot named of the caller's process and no other. */
  lemma RevokeExactly(w: World, pid: int, slot: nat)
    ensures var v := Revoke(w, pid, slot);
            if OwnerOf(w, pid).Some? && slot < |w.tasks[OwnerOf(w, pid).value].cnode| then
              var o := OwnerOf(w, pid).value; var c := w.tasks[o].cnode;
              && OnlyCnode(w, v, o) && |v.tasks[o].cnode| == |c| && v.tasks[o].cnode[slot].kind == Invalid
              && (forall i :: 0 <= i < |c| && i != slot ==> v.tasks[o].cnode[i] == c[i])
              && Holding(v.tasks[o].cnode) == Holding(c) - One(c[slot])
            else v == w
  {
    var o := OwnerOf(w, pid);
    hide OwnerOf, Holding;
    if o.Some? && slot < |w.tasks[o.value].cnode| {
      HoldingPut(w.tasks[o.value].cnode, slot, NO_CAP);
    }
  }

  /** A change of user is made exactly for a caller whose process holds root; leaving user 0 strips that
      process of every cap. */
  lemma SetuidExactly(w: World, pid: int, uid: int)
    ensures var v := Setuid(w, pid, uid);
            if Authorized(w, pid) then
              var o := OwnerOf(w, pid).value;
              && pid in v.tasks && v.tasks[pid].uid == uid && o in v.tasks
              && (if uid > 0 then Holding(v.tasks[o].cnode) == multiset{} else v.tasks[o].cnode == w.tasks[o].cnode)
              && v.tasks.Keys == w.tasks.Keys
              && (forall q :: q in w.tasks && q != o ==> v.tasks[q].cnode == w.tasks[q].cnode)
              && (forall q :: q in w.tasks && q != pid ==> v.tasks[q].uid == w.tasks[q].uid)
              && v.policy == w.policy
            else v == w
  {
    EmptyHolds(EmptyCnode());
    var o := OwnerOf(w, pid);
    hide OwnerOf, Holding, HasRoot, EmptyCnode;
  }

  /** A fork that is made gives the child all its owner process holds, or root when the walk finds none. */
  lemma ForkHolds(w: World, parent: int, child: int, main: bool)
    ensures var v := Fork(w, parent, child, main); var o := Owner(w, parent);
            if Alive(w, parent) && child !in w.tasks && !o.Endless? then
              && child in v.tasks && v.tasks[child].father == parent && v.tasks[child].main == main
              && v.tasks[child].uid == w.tasks[parent].uid && Alive(v, child)
              && Holding(v.tasks[child].cnode)
                 == (if o.Found? then Holding(w.tasks[o.pid].cnode) else multiset{ROOT_CAP})
              && (main || v.tasks[child].space == w.tasks[parent].space)
              && (forall q :: q in w.tasks ==> q in v.tasks && v.tasks[q] == w.tasks[q])
            else v == w
  {
    EmptyHolds(EmptyCnode());
    InsertExactly(EmptyCnode(), ROOT_CAP);
    assert EmptyCnode()[0].kind == Invalid;
    hide Walk, Holding, Insert, EmptyCnode;
  }

  // ----- policy

  /** A rule's path without a space matches exactly the command lines whose first word it is. */
  lemma MatchExactly(cmd: string, path: string)
    requires ' ' !in path
    ensures Matches(cmd, path) <==> path != [] && path == FirstWord(cmd)
  {
    FirstWordExact(cmd);
    if Matches(cmd, path) {
      assert forall i :: 0 <= i < |path| ==> cmd[i] == path[i];
      var f := FirstWord(cmd);
      assert cmd[..|f|] == f;
    }
  }

  function FirstWord(cmd: string): string {
    if cmd == [] || cmd[0] == ' ' then [] else [cmd[0]] + FirstWord(cmd[1..])
  }

  lemma {:induction false} FirstWordExact(cmd: string)
    ensures var f := FirstWord(cmd);
            ' ' !in f && |f| <= |cmd| && cmd[..|f|] == f && (|f| < |cmd| ==> cmd[|f|] == ' ')
    decreases |cmd|
  {
    if cmd != [] && cmd[0] != ' ' {
      FirstWordExact(cmd[1..]);
      var f := FirstWord(cmd);
      assert cmd == [cmd[0]] + cmd[1..];
      assert cmd[..|f|] == [cmd[0]] + cmd[1..][..|f| - 1];
    }
  }

  /** The cap an entry yields now. */
  predicate Yields(e: Entry, living: map<int, nat>, c: Cap) {
    ObjectOf(e.kind, e.a, e.b, living) == Some(c.obj) && c.kind == e.kind && c.rights == e.rights
  }

  /** The rule matches the command line and has an entry for the cap. */
  ghost predicate Gives(r: Rule, cmd: string, living: map<int, nat>, c: Cap) {
    Matches(cmd, r.cmd) && exists i :: 0 <= i < |r.entries| && Yields(r.entries[i], living, c)
  }

  ghost function Yield(e: Entry, living: map<int, nat>): multiset<Cap> {
    var o := ObjectOf(e.kind, e.a, e.b, living);
    if o.Some? then multiset{Cap(e.kind, e.rights, o.value)} else multiset{}
  }

  lemma {:induction false} BuildAllExactly(es: seq<Entry>, living: map<int, nat>, c: Cap)
    ensures c in BuildAll(es, living) <==> exists i :: 0 <= i < |es| && Yields(es[i], living, c)
    decreases |es|
  {
    hide ObjectOf;
    if es != [] {
      var n := |es| - 1;
      BuildAllExactly(es[..n], living, c);
      var o := ObjectOf(es[n].kind, es[n].a, es[n].b, living);
      var more := if o.Some? then [Cap(es[n].kind, es[n].rights, o.value)] else [];
      assert c in more <==> Yields(es[n], living, c);
      assert BuildAll(es, living) == BuildAll(es[..n], living) + more;
      if exists i :: 0 <= i < |es| && Yields(es[i], living, c) {
        var i :| 0 <= i < |es| && Yields(es[i], living, c);
        assert i < n ==> Yields(es[..n][i], living, c);
      }
    }
  }

  /** The policy yields a cap for a command line exactly when an entry of a matching rule does. */
  lemma {:induction false} PolicyExactly(rules: seq<Rule>, cmd: string, living: map<int, nat>, c: Cap)
    ensures c in PolicyCaps(rules, cmd, living) <==> exists r :: r in rules && Gives(r, cmd, living, c)
    decreases |rules|
  {
    if rules != [] && cmd != [] {
      var n := |rules| - 1;
      PolicyExactly(rules[..n], cmd, living, c);
      BuildAllExactly(rules[n].entries, living, c);
      assert rules == rules[..n] + [rules[n]];
      assert forall r :: r in rules <==> r in rules[..n] || r == rules[n];
      var more := if Matches(cmd, rules[n].cmd) then BuildAll(rules[n].entries, living) else [];
      assert PolicyCaps(rules, cmd, living) == PolicyCaps(rules[..n], cmd, living) + more;
      hide BuildAll, Yields, ObjectOf, PolicyCaps;
      assert c in more <==> Gives(rules[n], cmd, living, c);
    }
  }

  /** The multiset of caps a command line would get. */
  ghost function Due(rules: seq<Rule>, cmd: string, living: map<int, nat>): multiset<Cap> {
    multiset(PolicyCaps(rules, cmd, living))
  }

  lemma DueStep(rules: seq<Rule>, cmd: string, living: map<int, nat>)
    requires rules != [] && cmd != []
    ensures var n := |rules| - 1;
            Due(rules, cmd, living) == Due(rules[..n], cmd, living)
              + (if Matches(cmd, rules[n].cmd) then multiset(BuildAll(rules[n].entries, living)) else multiset{})
  {
  }

  lemma BuildMore(es: seq<Entry>, e: Entry, living: map<int, nat>)
    ensures multiset(BuildAll(es + [e], living)) == multiset(BuildAll(es, living)) + Yield(e, living)
  {
    hide ObjectOf;
    assert (es + [e])[..|es|] == es;
  }

  /** What a rule yields for a command line. */
  ghost function Share(r: Rule, cmd: string, living: map<int, nat>): multiset<Cap> {
    if cmd != [] && Matches(cmd, r.cmd) then multiset(BuildAll(r.entries, living)) else multiset{}
  }

  lemma DueRule(rules: seq<Rule>, cmd: string, living: map<int, nat>)
    requires rules != []
    ensures Due(rules, cmd, living) == Due(rules[..|rules| - 1], cmd, living) + Share(rules[|rules| - 1], cmd, living)
  {
    if cmd != [] {
      DueStep(rules, cmd, living);
    }
  }

  ghost function Extra(path: string, e: Entry, cmd: string, living: map<int, nat>): multiset<Cap> {
    if Matches(cmd, path) then Yield(e, living) else multiset{}
  }

  lemma ShareMore(r: Rule, e: Entry, cmd: string, living: map<int, nat>)
    ensures Share(Rule(r.cmd, r.entries + [e]), cmd, living) == Share(r, cmd, living) + Extra(r.cmd, e, cmd, living)
  {
    BuildMore(r.entries, e, living);
  }

  lemma {:induction false} DuePut(rules: seq<Rule>, k: nat, e: Entry, cmd: string, living: map<int, nat>)
    requires k < |rules|
    ensures Due(rules[k := Rule(rules[k].cmd, rules[k].entries + [e])], cmd, living)
         == Due(rules, cmd, living) + Extra(rules[k].cmd, e, cmd, living)
    decreases |rules|
  {
    hide Due, Share, Extra;
    var n := |rules| - 1;
    var v := rules[k := Rule(rules[k].cmd, rules[k].entries + [e])];
    DueRule(rules, cmd, living);
    DueRule(v, cmd, living);
    if k < n {
      DuePut(rules[..n], k, e, cmd, living);
      assert v[..n] == rules[..n][k := Rule(rules[k].cmd, rules[k].entries + [e])];
    } else {
      ShareMore(rules[k], e, cmd, living);
      assert v[..n] == rules[..n];
    }
  }

  lemma DueAppend(rules: seq<Rule>, path: string, e: Entry, cmd: string, living: map<int, nat>)
    ensures Due(rules + [Rule(path, [e])], cmd, living)
         == Due(rules, cmd, living) + Extra(path, e, cmd, living)
  {
    var v := rules + [Rule(path, [e])];
    DueRule(v, cmd, living);
    assert v[..|rules|] == rules;
    ShareMore(Rule(path, []), e, cmd, living);
    assert [] + [e] == [e];
  }

  lemma {:induction false} RuleAtFirst(rules: seq<Rule>, cmd: string, i: nat)
    requires i <= |rules|
    ensures forall j :: i <= j < RuleAt(rules, cmd, i) ==> rules[j].cmd != cmd
    decreases |rules| - i
  {
    if i < |rules| && rules[i].cmd != cmd {
      RuleAtFirst(rules, cmd, i + 1);
    }
  }

  ghost predicate HasRule(rules: seq<Rule>, cmd: string) {
    exists k :: 0 <= k < |rules| && rules[k].cmd == cmd
  }

  /** Where an entry for a path goes: the first rule of that path, or a new one. */
  ghost predicate Room(rules: seq<Rule>, cmd: string) {
    if HasRule(rules, cmd) then
      exists k :: 0 <= k < |rules| && rules[k].cmd == cmd && |rules[k].entries| < ENTRY_MAX
                  && forall j :: 0 <= j < k ==> rules[j].cmd != cmd
    else |rules| < RULE_MAX
  }

  lemma RoomAt(rules: seq<Rule>, cmd: string)
    ensures var k := RuleAt(rules, cmd, 0);
            && (HasRule(rules, cmd) <==> k < |rules|)
            && (Room(rules, cmd) <==> if k < |rules| then |rules[k].entries| < ENTRY_MAX else |rules| < RULE_MAX)
  {
    RuleAtFirst(rules, cmd, 0);
    hide RuleAt;
  }

  lemma AddAt(w: World, pid: int, cmd: string, e: Entry)
    ensures var k := RuleAt(w.policy, cmd, 0); var v := PolicyAdd(w, pid, cmd, e);
            if && Authorized(w, pid) && cmd != [] && e.kind != Invalid
               && (if k < |w.policy| then |w.policy[k].entries| < ENTRY_MAX else |w.policy| < RULE_MAX)
            then
              && v.tasks == w.tasks
              && v.policy == if k < |w.policy| then w.policy[k := Rule(w.policy[k].cmd, w.policy[k].entries + [e])]
                             else w.policy + [Rule(Stored(cmd), [e])]
            else v == w
  {
    hide OwnerOf, HasRoot, RuleAt, Stored;
  }

  /** An entry is added exactly for a caller whose process holds root, for a path and a kind, while its rule
      or the table has room. Then every command line the path matches gets the entry's cap on top of what it
      got before, and every other line exactly what it got before. */
  lemma PolicyAddExactly(w: World, pid: int, cmd: string, e: Entry, line: string, living: map<int, nat>)
    ensures var v := PolicyAdd(w, pid, cmd, e);
            if Authorized(w, pid) && cmd != [] && e.kind != Invalid && Room(w.policy, cmd) then
              && v.tasks == w.tasks
              && Due(v.policy, line, living) == Due(w.policy, line, living)
                   + Extra(if HasRule(w.policy, cmd) then cmd else Stored(cmd), e, line, living)
            else v == w
  {
    var k := RuleAt(w.policy, cmd, 0);
    RoomAt(w.policy, cmd);
    AddAt(w, pid, cmd, e);
    hide PolicyAdd, Authorized, Due, Extra, RuleAt, Room, HasRule, Stored;
    if k < |w.policy| {
      DuePut(w.policy, k, e, line, living);
    } else {
      DueAppend(w.policy, Stored(cmd), e, line, living);
    }
  }

  // ----- ends

  /** An exit ends the task and, for a process, the threads it forked itself, and nobody else. */
  lemma ExitExactly(w: World, pid: int, q: int)
    ensures Alive(Exit(w, pid), q) <==>
            Alive(w, q) && !(Alive(w, pid) && (q == pid || (w.tasks[pid].main && !w.tasks[q].main
                                                           && w.tasks[q].father == pid)))
  {
  }
}
