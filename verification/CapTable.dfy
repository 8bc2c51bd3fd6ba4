/** The capability calls as the kernel runs them, loop by loop. */
module CapTable {
  import opened Options
  import opened Caps

  lemma PolicyStep(rules: seq<Rule>, cmd: string, living: map<int, nat>, r: nat)
    requires r < |rules| && cmd != []
    ensures PolicyCaps(rules[..r + 1], cmd, living) == PolicyCaps(rules[..r], cmd, living)
              + (if Matches(cmd, rules[r].cmd) then BuildAll(rules[r].entries, living) else [])
  {
    assert rules[..r + 1][..r] == rules[..r];
  }

  lemma {:induction false} InsertAllConcat(c: Cnode, a: seq<Cap>, b: seq<Cap>)
    ensures InsertAll(c, a + b) == InsertAll(InsertAll(c, a), b)
    decreases |b|
  {
    if b == [] {
      assert a + b == a;
    } else {
      var n := |b| - 1;
      assert (a + b)[..|a + b| - 1] == a + b[..n];
      InsertAllConcat(c, a, b[..n]);
    }
  }

  lemma InsertAllOne(c: Cnode, a: seq<Cap>, x: Cap)
    ensures InsertAll(c, a + [x]) == Insert(InsertAll(c, a), x) && a + [] == a
  {
    assert (a + [x])[..|a|] == a;
  }

  lemma BuildStep(es: seq<Entry>, living: map<int, nat>, e: nat)
    requires e < |es|
    ensures var o := ObjectOf(es[e].kind, es[e].a, es[e].b, living);
            BuildAll(es[..e + 1], living) == BuildAll(es[..e], living)
              + (if o.Some? then [Cap(es[e].kind, es[e].rights, o.value)] else [])
  {
    assert es[..e + 1][..e] == es[..e];
  }

  class Table {
    var tasks: map<int, Task>
    var policy: seq<Rule>
    var lastUuid: nat
    ghost var born: map<nat, int>
    ghost var minted: set<Cap>
    ghost var built: set<Cap>

    ghost function View(): World
      reads this
    {
      World(tasks, policy, lastUuid, born, minted, built)
    }

    constructor ()
      ensures View() == World(map[], [], 0, map[], {}, {})
    {
      tasks, policy, lastUuid, born, minted, built := map[], [], 0, map[], {}, {};
    }

    /** A task gets a fresh identity. */
    method Name(pid: int, t: Task)
      modifies this
      ensures View() == Named(old(View()), pid, t)
    {
      lastUuid := lastUuid + 1;
      tasks := tasks[pid := t.(uuid := lastUuid)];
      born := born[lastUuid := pid];
    }

    /** A process the kernel creates itself. */
    method Boot(pid: int)
      modifies this
      ensures View() == Caps.Boot(old(View()), pid)
    {
      if pid !in tasks {
        var u := lastUuid + 1;
        Name(pid, Task(u, u, u, true, -1, 0, [], ROOT_CNODE));
      }
    }

    /** The capability part of `proc_create` for a fork. */
    method Fork(parent: int, pid: int, main: bool)
      modifies this
      ensures View() == Caps.Fork(old(View()), parent, pid, main)
    {
      var o := FindOwner(parent);
      if parent !in tasks || tasks[parent].uuid == 0 || pid in tasks || o.Endless? {
        return;
      }
      var c := ROOT_CNODE;
      if o.Found? {
        c := tasks[o.pid].cnode;
      }
      var u := lastUuid + 1;
      var t := tasks[parent];
      Name(pid, Task(u, u, if main then u else t.space, main, parent, t.uid, t.cmd, c));
    }

    /** `sys_proc_set_uid`. */
    method SetUid(pid: int, uid: int)
      modifies this
      ensures View() == Setuid(old(View()), pid, uid)
    {
      var o := OwnerFor(pid);
      if o == None {
        return;
      }
      var root := CnodeHasRoot(tasks[o.value].cnode);
      if !root {
        return;
      }
      tasks := tasks[pid := tasks[pid].(uid := uid)];
      if uid > 0 {
        tasks := tasks[o.value := tasks[o.value].(cnode := EmptyCnode())];
      }
    }

    /** `proc_cap_revoke`. */
    method RevokeCap(pid: int, slot: nat)
      modifies this
      ensures View() == Revoke(old(View()), pid, slot)
    {
      var o := OwnerFor(pid);
      if o == None || slot >= |tasks[o.value].cnode| {
        return;
      }
      tasks := tasks[o.value := tasks[o.value].(cnode := tasks[o.value].cnode[slot := NO_CAP])];
    }

    /** The task part of `proc_terminate`, over the table. */
    method ExitTask(pid: int)
      modifies this
      ensures View() == Exit(old(View()), pid)
    {
      if pid !in tasks || tasks[pid].uuid == 0 {
        return;
      }
      var t := tasks[pid];
      ghost var before := tasks;
      ghost var goal := Exit(old(View()), pid).tasks;
      var todo := tasks.Keys;
      while true
        modifies this`tasks
        invariant todo <= tasks.Keys == before.Keys
        invariant forall p :: p in tasks ==> tasks[p] == if p in todo then before[p] else goal[p]
        decreases |todo|
      {
        if p :| p in todo {
          if p == pid || (t.main && !tasks[p].main && tasks[p].father == pid) {
            tasks := tasks[p := Ended(tasks[p])];
          }
          todo := todo - {p};
        } else {
          break;
        }
      }
      assert tasks == goal;
    }

    /** `sys_detach`. */
    method DetachTask(pid: int)
      modifies this
      ensures View() == Detach(old(View()), pid)
    {
      if pid in tasks && tasks[pid].uuid != 0 {
        tasks := tasks[pid := tasks[pid].(father := 0)];
      }
    }

    method BuryTask(pid: int)
      modifies this
      ensures View() == Bury(old(View()), pid)
    {
      if pid in tasks && tasks[pid].uuid == 0 {
        tasks := tasks - {pid};
      }
    }

    /** `cap_cnode_insert`. */
    method CnodeInsert(c: Cnode, cap: Cap) returns (r: Cnode)
      ensures r == Insert(c, cap)
    {
      if cap.kind == Invalid {
        return c;
      }
      var i := 0;
      while i < |c| && c[i].kind != Invalid
        invariant 0 <= i <= |c| && FreeSlot(c, i) == FreeSlot(c, 0)
      {
        i := i + 1;
      }
      if i == |c| {
        return c;
      }
      return c[i := cap];
    }

    /** `cnode_has_root`. */
    method CnodeHasRoot(c: Cnode) returns (found: bool)
      ensures found == HasRoot(c)
    {
      var i := 0;
      while i < |c|
        invariant 0 <= i <= |c| && forall j :: 0 <= j < i ==> c[j].kind != Root
      {
        if c[i].kind == Root {
          return true;
        }
        i := i + 1;
      }
      return false;
    }

    /** `proc_get_proc`. */
    method FindOwner(pid: int) returns (o: Walked)
      ensures o == Owner(View(), pid)
    {
      var p, left := pid, |tasks|;
      while true
        invariant left >= 0 && Walk(View(), p, left) == Owner(View(), pid)
        decreases left
      {
        if p !in tasks || tasks[p].uuid == 0 {
          return Nobody;
        }
        if tasks[p].main {
          return Found(p);
        }
        if left == 0 {
          return Endless;
        }
        p, left := tasks[p].father, left - 1;
      }
    }

    method OwnerFor(pid: int) returns (o: Option<int>)
      ensures o == OwnerOf(View(), pid)
    {
      var f := FindOwner(pid);
      return if f.Found? then Some(f.pid) else None;
    }

    /** One rule's caps go into the cnode. */
    method ApplyRule(c: Cnode, entries: seq<Entry>, living: map<int, nat>) returns (r: Cnode)
      ensures r == InsertAll(c, BuildAll(entries, living))
    {
      r := c;
      var e := 0;
      while e < |entries|
        invariant 0 <= e <= |entries| && r == InsertAll(c, BuildAll(entries[..e], living))
      {
        BuildStep(entries, living, e);
        var o := ObjectOf(entries[e].kind, entries[e].a, entries[e].b, living);
        InsertAllOne(c, BuildAll(entries[..e], living),
            if o.Some? then Cap(entries[e].kind, entries[e].rights, o.value) else NO_CAP);
        if o.Some? {
          r := CnodeInsert(r, Cap(entries[e].kind, entries[e].rights, o.value));
        }
        e := e + 1;
      }
      assert entries[..e] == entries;
    }

    /** `proc_cap_on_exec` with `cap_policy_on_exec`. */
    method OnExec(uid: int, cmd: string, living: map<int, nat>) returns (r: Cnode)
      ensures r == ExecCnode(uid, cmd, policy, living)
    {
      r := EmptyCnode();
      if uid <= 0 {
        r := CnodeInsert(r, ROOT_CAP);
      }
      ghost var reset := r;
      if cmd == [] {
        return;
      }
      var i := 0;
      while i < |policy|
        invariant 0 <= i <= |policy| && r == InsertAll(reset, PolicyCaps(policy[..i], cmd, living))
      {
        PolicyStep(policy, cmd, living, i);
        InsertAllOne(reset, PolicyCaps(policy[..i], cmd, living), NO_CAP);
        if Matches(cmd, policy[i].cmd) {
          InsertAllConcat(reset, PolicyCaps(policy[..i], cmd, living), BuildAll(policy[i].entries, living));
          r := ApplyRule(r, policy[i].entries, living);
        }
        i := i + 1;
      }
      assert policy[..i] == policy;
    }

    method ExecImage(pid: int, cmd: string)
      modifies this
      ensures View() == Exec(old(View()), pid, cmd)
    {
      if pid !in tasks || tasks[pid].uuid == 0 {
        return;
      }
      Name(pid, tasks[pid].(cmd := cmd));
      var living := map p | p in tasks && tasks[p].uuid != 0 :: tasks[p].uuid;
      assert living == Living(View());
      built := built + (set c | c in PolicyCaps(policy, cmd, living));
      var r := OnExec(tasks[pid].uid, cmd, living);
      tasks := tasks[pid := tasks[pid].(cnode := r)];
    }

    /** `proc_cap_mint`. */
    method MintCap(pid: int, kind: Kind, rights: set<Right>, a: nat, b: nat)
      modifies this
      ensures View() == Mint(old(View()), pid, kind, rights, a, b)
    {
      var o := OwnerFor(pid);
      if o == None {
        return;
      }
      var root := CnodeHasRoot(tasks[o.value].cnode);
      if !root || kind == Root || kind == Invalid {
        return;
      }
      var living := map p | p in tasks && tasks[p].uuid != 0 :: tasks[p].uuid;
      assert living == Living(View());
      var obj := ObjectOf(kind, a, b, living);
      if obj == None {
        return;
      }
      var c := Cap(kind, rights, obj.value);
      minted := minted + {c};
      var r := CnodeInsert(tasks[o.value].cnode, c);
      tasks := tasks[o.value := tasks[o.value].(cnode := r)];
    }

    /** `proc_cap_grant`. */
    method GrantCap(pid: int, target: int, slot: nat, mask: Option<set<Right>>)
      modifies this
      ensures View() == Grant(old(View()), pid, target, slot, mask)
    {
      var o := OwnerFor(pid);
      var t := OwnerFor(target);
      if o == None || t == None || slot >= CNODE_SLOTS || slot >= |tasks[o.value].cnode| {
        return;
      }
      var src := tasks[o.value].cnode[slot];
      if src.kind == Invalid {
        return;
      }
      var root := CnodeHasRoot(tasks[o.value].cnode);
      if !root && CanGrant !in src.rights {
        return;
      }
      var c := src.(rights := if mask.Some? then src.rights * mask.value else src.rights);
      if c.rights == {} {
        return;
      }
      var r := CnodeInsert(tasks[t.value].cnode, c);
      tasks := tasks[t.value := tasks[t.value].(cnode := r)];
    }

    /** `proc_cap_policy_add`. */
    method AddPolicy(pid: int, cmd: string, e: Entry)
      modifies this
      ensures View() == PolicyAdd(old(View()), pid, cmd, e)
    {
      var o := OwnerFor(pid);
      if o == None {
        return;
      }
      var root := CnodeHasRoot(tasks[o.value].cnode);
      if !root || cmd == [] || e.kind == Invalid {
        return;
      }
      var k := 0;
      while k < |policy| && policy[k].cmd != cmd
        invariant 0 <= k <= |policy| && RuleAt(policy, cmd, k) == RuleAt(policy, cmd, 0)
      {
        k := k + 1;
      }
      if k == |policy| {
        if k >= RULE_MAX {
          return;
        }
        policy := policy + [Rule(Stored(cmd), [e])];
      } else if |policy[k].entries| < ENTRY_MAX {
        policy := policy[k := Rule(policy[k].cmd, policy[k].entries + [e])];
      }
    }
  }
}
