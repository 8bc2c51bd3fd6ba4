/** What each call on replies answers and does, exactly. */
module IpcReplyExact {
  import opened Options
  import opened IpcReply
  import R = IpcReplyRuns

  // ----- a request is in one slot

  predicate SlotHas(w: World, s: nat, i: int, uid: nat) {
    s in w.servers && 0 <= i < |w.servers[s].slots| && w.servers[s].slots[i].uid == uid
  }

  /** No two slots hold the same request, and none a request not yet made. */
  ghost predicate UidsApart(w: World) {
    && (forall s: nat, i, uid: nat :: SlotHas(w, s, i, uid) ==> uid <= w.lastUid)
    && (forall s: nat, i, t: nat, j, uid: nat ::
          uid != 0 && SlotHas(w, s, i, uid) && SlotHas(w, t, j, uid) ==> s == t && i == j)
  }

  /** Every slot is as it was, but for its handler, or idle. */
  ghost predicate FewerSlots(w: World, v: World) {
    forall s: nat, i, uid: nat :: uid != 0 && SlotHas(v, s, i, uid) ==> SlotHas(w, s, i, uid)
  }

  lemma FewerApart(w: World, v: World)
    requires UidsApart(w) && FewerSlots(w, v) && w.lastUid <= v.lastUid
    ensures UidsApart(v)
  {
    forall s: nat, i, uid: nat | SlotHas(v, s, i, uid) ensures uid <= v.lastUid {
      assert uid != 0 ==> SlotHas(w, s, i, uid);
    }
  }

  lemma CloseFewer(w: World, s: nat, i: nat)
    ensures FewerSlots(w, Close(w, s, i)) && Close(w, s, i).lastUid == w.lastUid
  {
  }

  lemma BlankSame(w: World, r: Request, keep: bool)
    ensures Blank(w, r, keep).servers == w.servers && Blank(w, r, keep).lastUid == w.lastUid
  {
  }

  lemma {:induction false} ClearFewer(w: World, s: nat, n: nat)
    ensures FewerSlots(w, ClearSlots(w, s, n)) && ClearSlots(w, s, n).lastUid == w.lastUid
  {
    if n > 0 {
      ClearFewer(w, s, n - 1);
      var v := ClearSlots(w, s, n - 1);
      if s in v.servers && n - 1 < |v.servers[s].slots| && v.servers[s].slots[n - 1].uid != 0 {
        var r := v.servers[s].slots[n - 1];
        BlankSame(v, r, true);
        var u := if r.noReply then v else Blank(v, r, true);
        hide Blank, ClearSlots;
        CloseFewer(u, s, n - 1);
        assert FewerSlots(v, u);
      }
    }
  }

  lemma AskServers(w: World, pid: int, s: nat, i: nat, noReply: bool)
    ensures var v := Ask(w, pid, s, i, noReply);
            || (v.servers == w.servers && v.lastUid == w.lastUid)
            || (&& SlotHas(w, s, i, 0) && v.servers.Keys == w.servers.Keys && v.lastUid == w.lastUid + 1
                && (forall t :: t in w.servers && t != s ==> v.servers[t] == w.servers[t])
                && v.servers[s].slots == w.servers[s].slots[i := v.servers[s].slots[i]]
                && v.servers[s].slots[i].uid == v.lastUid)
  {
  }

  lemma AskApart(w: World, pid: int, s: nat, i: nat, noReply: bool)
    requires UidsApart(w)
    ensures UidsApart(Ask(w, pid, s, i, noReply))
  {
    var v := Ask(w, pid, s, i, noReply);
    AskServers(w, pid, s, i, noReply);
    hide Ask;
    forall t: nat, j, uid: nat | SlotHas(v, t, j, uid)
      ensures SlotHas(w, t, j, uid) || (t == s && j == i && uid == v.lastUid == w.lastUid + 1)
    {
    }
  }

  lemma NextApart(w: World, e: Event)
    requires UidsApart(w)
    ensures UidsApart(Next(w, e))
  {
    match e
    case EAsk(pid, s, i, noReply) => AskApart(w, pid, s, i, noReply);
    case EClear(s, n) =>
      ClearFewer(w, s, n);
      FewerApart(w, ClearSlots(w, s, n));
    case _ =>
      OthersFewer(w, e);
      hide Next, UidsApart, FewerSlots;
      FewerApart(w, Next(w, e));
  }

  /** Steps that leave every server alone. */
  lemma ServersStand(w: World, e: Event)
    requires !e.EAsk? && !e.EBind? && !e.EClose? && !e.EAbort? && !e.EClear? && !e.EServe? && !e.EAdvance?
    ensures Next(w, e).servers == w.servers && Next(w, e).lastUid == w.lastUid
  {
    match e
    case ESetReturn(pid, s, i, uid, pkg) => SetReturnStands(w, pid, s, i, uid, pkg);
    case EGetReturn(pid, s, uid, room) => hide HasRequest;
    case _ =>
  }

  lemma SetReturnStands(w: World, pid: int, s: nat, i: nat, uid: nat, pkg: Option<Payload>)
    ensures var v := SetReturn(w, pid, s, i, uid, pkg); v.servers == w.servers && v.lastUid == w.lastUid
  {
  }

  lemma AbortFewer(w: World, s: nat, i: nat)
    ensures FewerSlots(w, Abort(w, s, i)) && Abort(w, s, i).lastUid == w.lastUid
  {
    if s in w.servers && i < |w.servers[s].slots| && w.servers[s].slots[i].uid != 0 {
      var u := Blank(w, w.servers[s].slots[i], false);
      BlankSame(w, w.servers[s].slots[i], false);
      hide Blank;
      CloseFewer(u, s, i);
      assert FewerSlots(w, u);
    }
  }

  lemma OthersFewer(w: World, e: Event)
    requires !e.EAsk? && !e.EClear?
    ensures FewerSlots(w, Next(w, e)) && w.lastUid <= Next(w, e).lastUid
  {
    match e
    case EAbort(s, i) =>
      hide Abort;
      AbortFewer(w, s, i);
    case EBind(_, _, _) | EClose(_, _) | EServe(_, _, _) | EAdvance(_, _) =>
    case _ =>
      ServersStand(w, e);
      hide Next;
  }

  lemma {:induction false} RunsApart(es: seq<Event>)
    ensures UidsApart(Runs(START, es))
    decreases |es|
  {
    if es != [] {
      hide Next, UidsApart;
      RunsApart(es[..|es| - 1]);
      NextApart(Runs(START, es[..|es| - 1]), es[|es| - 1]);
    }
  }

  // ----- asking for the reply

  /** Some slot of the server holds this client's request. */
  ghost predicate InFlight(w: World, s: nat, uid: nat, client: Id) {
    exists i :: SlotHas(w, s, i, uid) && w.servers[s].slots[i].client == client
  }

  ghost predicate InFlightAs(w: World, s: nat, uid: nat, client: Id, noReply: bool) {
    exists i :: SlotHas(w, s, i, uid) && w.servers[s].slots[i].client == client
                && w.servers[s].slots[i].noReply == noReply
  }

  lemma HasRequestTells(w: World, s: nat, uid: nat, client: Id, noReply: bool)
    ensures HasRequest(w, s, uid, client, noReply) <==> InFlightAs(w, s, uid, client, noReply)
  {
    if HasRequest(w, s, uid, client, noReply) {
      var i :| 0 <= i < |w.servers[s].slots| && RequestIs(w.servers[s].slots[i], uid, client, noReply);
      assert SlotHas(w, s, i, uid);
    }
    if InFlightAs(w, s, uid, client, noReply) {
      var i :| SlotHas(w, s, i, uid) && w.servers[s].slots[i].client == client
               && w.servers[s].slots[i].noReply == noReply;
      assert RequestIs(w.servers[s].slots[i], uid, client, noReply);
    }
  }

  /** In every reachable state: without a reply in its cell the client must wait if and only if its request
      is in flight and expects one, has nothing due if and only if its request is in flight and expects
      none, and fails if and only if its request is not in flight. With a reply there, it fails if and only
      if that answers another request, is told the size if and only if its room is too small, and otherwise
      takes it, once. Only a reply taken changes anything. */
  lemma GetReturnExactly(es: seq<Event>, pid: int, s: nat, uid: nat, room: Option<nat>)
    requires var w := Runs(START, es); pid in w.tasks && w.tasks[pid].space in w.spaces
    ensures var w := Runs(START, es); var id := Id(pid, w.tasks[pid].uuid); var c := R.Current(w, pid);
            var (v, o) := GetReturn(w, pid, s, uid, room);
            && (uid == 0 ==> o == Failed)
            && (uid != 0 && c.state != Returned ==>
                  && (o == MustWait <==> InFlightAs(w, s, uid, id, false))
                  && (o == NothingDue <==> InFlightAs(w, s, uid, id, true))
                  && (o == Failed <==> !InFlight(w, s, uid, id)))
            && (uid != 0 && c.state == Returned ==>
                  && (o == Failed <==> c.uid != uid)
                  && (o.TooSmall? <==> c.uid == uid && room.Some? && room.value < |c.data|)
                  && (o.TooSmall? ==> o.size == |c.data|)
                  && (o.Delivered? || o.Taken? <==> c.uid == uid && (room.None? || |c.data| <= room.value))
                  && (o.Delivered? ==> o.data == c.data) && (o.Delivered? ==> room.Some?))
            && (if o.Delivered? || o.Taken?
                then pid in v.tasks && v.tasks[pid].space in v.spaces && R.Current(v, pid) == CLEARED
                else v == w)
  {
    RunsApart(es);
    var w := Runs(START, es);
    hide Runs;
    var id := Id(pid, w.tasks[pid].uuid);
    HasRequestTells(w, s, uid, id, false);
    HasRequestTells(w, s, uid, id, true);
    hide HasRequest;
    if uid != 0 {
      OneSlot(w, s, uid, id);
    }
    InFlightEither(w, s, uid, id);
    hide InFlightAs, InFlight, UidsApart;
  }

  lemma OneSlot(w: World, s: nat, uid: nat, id: Id)
    requires UidsApart(w) && uid != 0
    ensures !(InFlightAs(w, s, uid, id, false) && InFlightAs(w, s, uid, id, true))
  {
  }

  lemma InFlightEither(w: World, s: nat, uid: nat, id: Id)
    ensures InFlight(w, s, uid, id) <==> InFlightAs(w, s, uid, id, false) || InFlightAs(w, s, uid, id, true)
  {
    if InFlight(w, s, uid, id) {
      var i :| SlotHas(w, s, i, uid) && w.servers[s].slots[i].client == id;
      assert w.servers[s].slots[i].noReply == false || w.servers[s].slots[i].noReply == true;
    }
  }

  // ----- asking, answering, clearing

  /** A request enters exactly an idle slot of a known server from a live task; it is fresh, in the name of
      that task and its context, whose cell then waits. */
  lemma AskExactly(w: World, pid: int, s: nat, i: nat, noReply: bool)
    ensures var v := Ask(w, pid, s, i, noReply);
            if pid in w.tasks && Alive(w, Id(pid, w.tasks[pid].uuid)) && SlotHas(w, s, i, 0) then
              && v.lastUid == w.lastUid + 1 && s in v.servers && |v.servers[s].slots| == |w.servers[s].slots|
              && v.servers[s].slots[i].uid == v.lastUid
              && v.servers[s].slots[i].client == Id(pid, w.tasks[pid].uuid)
              && v.servers[s].slots[i].noReply == noReply && v.servers[s].slots[i].intr == InHandler(w, pid)
              && pid in v.tasks && v.tasks[pid].space in v.spaces
              && R.Current(v, pid) == R.Current(w, pid).(state := Busy)
            else v == w
  {
  }

  /** The answer of a context that serves the request, to a client that is due one and lives, lands in the
      cell of the context that asked, and nowhere else; any other answer changes nothing. */
  lemma SetReturnExactly(w: World, pid: int, s: nat, i: nat, uid: nat, pkg: Option<Payload>)
    ensures var v := SetReturn(w, pid, s, i, uid, pkg);
            if && Serving(w, pid, s, i, uid) && !w.servers[s].slots[i].noReply
               && Alive(w, w.servers[s].slots[i].client)
            then
              var c, intr := w.servers[s].slots[i].client.pid, w.servers[s].slots[i].intr;
              && c in v.tasks && v.tasks[c].space in v.spaces && v.servers == w.servers
              && CellOf(v, c, intr).uid == uid && CellOf(v, c, intr).state == Returned
              && CellOf(v, c, intr).data == (if pkg.Some? then pkg.value else CellOf(w, c, intr).data)
              && v.tasks.Keys == w.tasks.Keys && v.spaces.Keys == w.spaces.Keys
              && (forall q :: q in w.tasks && (q != c || intr) ==> v.tasks[q] == w.tasks[q])
              && (forall t :: t in w.spaces && (t != w.tasks[c].space || !intr) ==> v.spaces[t] == w.spaces[t])
            else v == w
  {
  }

  /** The cells that hold a published reply. */
  predicate Published(w: World, pid: int, intr: bool) {
    pid in w.tasks && w.tasks[pid].space in w.spaces && CellOf(w, pid, intr).state == Returned
  }

  lemma BlankKeeps(w: World, r: Request, pid: int, intr: bool)
    requires Published(w, pid, intr)
    ensures var v := Blank(w, r, true); Published(v, pid, intr) && CellOf(v, pid, intr) == CellOf(w, pid, intr)
  {
  }

  /** Teardown up to slot `n` empties those slots and leaves the rest and every other server alone. */
  ghost predicate Emptied(w: World, v: World, s: nat, n: nat) {
    && v.servers.Keys == w.servers.Keys
    && (forall t :: t in w.servers && t != s ==> v.servers[t] == w.servers[t])
    && (s in w.servers ==>
          && |v.servers[s].slots| == |w.servers[s].slots|
          && (forall i :: 0 <= i < n && i < |w.servers[s].slots| ==> v.servers[s].slots[i].uid == 0)
          && (forall i :: n <= i < |w.servers[s].slots| ==> v.servers[s].slots[i] == w.servers[s].slots[i]))
  }

  lemma CloseEmpties(w: World, u: World, s: nat, n: nat)
    requires n > 0 && Emptied(w, u, s, n - 1)
    ensures Emptied(w, Close(u, s, n - 1), s, n)
  {
  }

  lemma {:induction false} ClearEmpties(w: World, s: nat, n: nat)
    ensures Emptied(w, ClearSlots(w, s, n), s, n)
  {
    if n > 0 {
      ClearEmpties(w, s, n - 1);
      var v := ClearSlots(w, s, n - 1);
      if s in v.servers && n - 1 < |v.servers[s].slots| && v.servers[s].slots[n - 1].uid != 0 {
        var r := v.servers[s].slots[n - 1];
        BlankSame(v, r, true);
        var u := if r.noReply then v else Blank(v, r, true);
        assert ClearSlots(w, s, n) == Close(u, s, n - 1);
        hide Blank, ClearSlots;
        CloseEmpties(w, u, s, n);
      }
    }
  }

  lemma {:induction false} ClearKeeps(w: World, s: nat, n: nat, pid: int, intr: bool)
    requires Published(w, pid, intr)
    ensures var v := ClearSlots(w, s, n); Published(v, pid, intr) && CellOf(v, pid, intr) == CellOf(w, pid, intr)
  {
    if n > 0 {
      ClearKeeps(w, s, n - 1, pid, intr);
      var v := ClearSlots(w, s, n - 1);
      if s in v.servers && n - 1 < |v.servers[s].slots| && v.servers[s].slots[n - 1].uid != 0 {
        BlankKeeps(v, v.servers[s].slots[n - 1], pid, intr);
        hide Blank;
      }
    }
  }

  /** Teardown empties the slots it goes through and nothing else of any server, and keeps every reply
      already published. */
  lemma ClearExactly(w: World, s: nat, n: nat, pid: int, intr: bool)
    ensures Emptied(w, ClearSlots(w, s, n), s, n)
    ensures Published(w, pid, intr) ==>
              var v := ClearSlots(w, s, n);
              Published(v, pid, intr) && CellOf(v, pid, intr) == CellOf(w, pid, intr)
  {
    ClearEmpties(w, s, n);
    if Published(w, pid, intr) {
      ClearKeeps(w, s, n, pid, intr);
    }
  }

  // ----- who serves, and who asks

  /** Binding a worker of the server to a request in flight makes it, and no other task, serve it. */
  lemma BindExactly(w: World, s: nat, i: nat, worker: Id, pid: int, uid: nat)
    ensures var v := Bind(w, s, i, worker);
            && (s in w.servers && w.servers[s].pool && uid != 0 && SlotHas(w, s, i, uid) ==>
                  (Serving(v, pid, s, i, uid) <==>
                     pid in w.tasks && w.tasks[pid].uuid != 0 && w.tasks[pid].space == s
                     && worker == Id(pid, w.tasks[pid].uuid)))
            && v.tasks == w.tasks && v.spaces == w.spaces
            && (forall t: nat, j, u: nat :: SlotHas(v, t, j, u) <==> SlotHas(w, t, j, u))
  {
  }

  /** A single-task server serves the request at its head, and moving the head moves that. */
  lemma AdvanceExactly(w: World, s: nat, head: nat, pid: int, i: nat, uid: nat)
    requires s in w.servers && !w.servers[s].pool
    ensures Serving(Advance(w, s, head), pid, s, i, uid) <==>
            uid != 0 && i == head && SlotHas(w, s, i, uid)
            && pid in w.tasks && w.tasks[pid].uuid != 0 && w.tasks[pid].space == s
  {
  }

  /** In a handler the main context of the process asks and reads through the interrupt cell, its threads
      through their own. */
  lemma InterruptExactly(w: World, s: nat, on: bool, pid: int)
    requires s in w.spaces && pid in w.tasks && w.tasks[pid].space == s
    ensures var v := Interrupt(w, s, on);
            && pid in v.tasks && v.tasks[pid].space in v.spaces
            && R.Current(v, pid) == (if on && w.tasks[pid].main then w.spaces[s].interruptCell else w.tasks[pid].cell)
  {
  }

  /** After an exit the task asks nothing and is answered nothing; after an exec it asks again, but no
      answer to its earlier identity reaches it. */
  lemma IdentityEnds(es: seq<Event>, pid: int, id: Id)
    requires var w := Runs(START, es); Alive(w, id) && id.pid == pid
    ensures var w := Runs(START, es);
            && !Alive(Exit(w, pid), id) && pid in Exit(w, pid).tasks && Exit(w, pid).tasks[pid].uuid == 0
            && !Alive(Exec(w, pid), id) && pid in Exec(w, pid).tasks
            && Alive(Exec(w, pid), Id(pid, Exec(w, pid).tasks[pid].uuid))
            && Exec(w, pid).tasks[pid].cell == w.tasks[pid].cell
  {
    R.RunsGood(es);
    hide Runs;
    assert TaskOk(Runs(START, es), pid);
  }

  /** A cell copied aside comes back whatever happened to it meanwhile, and the copy is gone. */
  lemma SaveRestore(w: World, pid: int, k: nat, c: Cell)
    requires pid in w.tasks && w.tasks[pid].space in w.spaces
    ensures var v := PutCell(Save(w, pid, k), pid, false, c); var u := Restore(v, pid, k);
            && u.tasks == w.tasks && w.tasks[pid].space in u.spaces
            && k in u.spaces[w.tasks[pid].space].saved && u.spaces[w.tasks[pid].space].saved[k] == CLEARED
  {
    var v := PutCell(Save(w, pid, k), pid, false, c);
    assert Restore(v, pid, k).tasks[pid] == w.tasks[pid];
    assert Restore(v, pid, k).tasks == w.tasks;
  }
}
