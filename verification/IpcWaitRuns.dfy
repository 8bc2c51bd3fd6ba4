/** Whole runs of the wait lists: the linked records stay a picture of plain sequences, and every task
    is on the one list it notes or on none. */
module IpcWaitRuns {
  import opened IpcWaitQueue

  datatype Event =
    | ENewTask(p: int)
    | ENewServer(s: int)
    | EPark(s: int, p: int)
    | ECancel(p: int)
    | EWake(s: int, room: nat, stale: set<int>)
    | EDropServer(s: int)
    | ETerminate(p: int)

  // ----- the records, pointer by pointer

  /** `proc_ipc_cancel_wait`. */
  function Cancelled(r: Records, p: int): Records {
    if p in r.items && p in r.waitingOn && r.waitingOn[p] in r.heads && r.waitingOn[p] in r.tails then
      Unlink(r, r.waitingOn[p], p)
    else r
  }

  /** A client joins the list of `s` once. */
  function Parked(r: Records, s: int, p: int): Records {
    var a := if p in r.waitingOn && r.waitingOn[p] != 0 && r.waitingOn[p] != s then Cancelled(r, p) else r;
    if s in a.heads && s in a.tails && p in a.items && !a.items[p].queued then LinkTail(a, s, p) else a
  }

  /** `proc_ipc_wakeup`, at most `steps` pops of it. */
  function Woken(r: Records, s: int, budget: nat, stale: set<int>, steps: nat): Records
    decreases steps
  {
    if steps == 0 || budget == 0 || s !in r.heads || s !in r.tails || r.heads[s] !in r.items then r
    else
      var p := r.heads[s];
      Woken(Unlink(r, s, p), s, if p in stale then budget else budget - 1, stale, steps - 1)
  }

  function Batch(room: nat): nat {
    if room > WAKE_BATCH_LIMIT then WAKE_BATCH_LIMIT else room
  }

  function Next(r: Records, e: Event): Records {
    match e
    case ENewTask(p) => if p <= 0 || p in r.items then r else WithTask(r, p)
    case ENewServer(s) => if s == 0 || s in r.heads then r else WithServer(r, s)
    case EPark(s, p) => if s in r.heads && p in r.items then Parked(r, s, p) else r
    case ECancel(p) => Cancelled(r, p)
    case EWake(s, room, stale) => Woken(r, s, Batch(room), stale, |r.items|)
    case EDropServer(s) => if s in r.heads then WithoutServer(Woken(r, s, |r.items|, {}, |r.items|), s) else r
    case ETerminate(p) => WithoutTask(Cancelled(r, p), p)
  }

  const NO_RECORDS := Records(map[], map[], map[], map[])

  function Runs(es: seq<Event>): Records {
    if es == [] then NO_RECORDS else Next(Runs(es[..|es| - 1]), es[|es| - 1])
  }

  // ----- the simple picture

  datatype Plain = Plain(w: Waits, tasks: set<int>)

  function Gone(w: Waits, p: int): Waits {
    w.(queues := map s | s in w.queues :: Without(w.queues[s], p))
  }

  function NextPlain(x: Plain, e: Event): Plain {
    match e
    case ENewTask(p) => if p <= 0 then x else x.(tasks := x.tasks + {p})
    case ENewServer(s) => if s == 0 || s in x.w.queues then x else x.(w := x.w.(queues := x.w.queues[s := []]))
    case EPark(s, p) =>
      if s !in x.w.queues || p !in x.tasks || p in x.w.queues[s] then x else x.(w := Join(Gone(x.w, p), s, p))
    case ECancel(p) => x.(w := Gone(x.w, p))
    case EWake(s, room, stale) => if s in x.w.queues then x.(w := WakeSome(x.w, s, Batch(room), stale)) else x
    case EDropServer(s) => x.(w := x.w.(queues := x.w.queues - {s}))
    case ETerminate(p) => Plain(Gone(x.w, p), x.tasks - {p})
  }

  const NO_WAITS := Plain(Waits(map[], map[], 0), {})

  function RunsPlain(es: seq<Event>): Plain {
    if es == [] then NO_WAITS else NextPlain(RunsPlain(es[..|es| - 1]), es[|es| - 1])
  }

  ghost predicate Pictures(r: Records, x: Plain) {
    Shows(r, x.w) && r.items.Keys == x.tasks
  }

  // ----- one step

  lemma GoneNowhere(w: Waits, p: int)
    requires forall s :: !Queued(w, s, p)
    ensures Gone(w, p) == w
  {
    forall s | s in w.queues ensures Without(w.queues[s], p) == w.queues[s] {
      assert !Queued(w, s, p);
      WithoutAbsent(w.queues[s], p);
    }
    assert Gone(w, p).queues == w.queues;
  }

  lemma GoneFrom(w: Waits, s: int, i: nat)
    requires Good(w) && s in w.queues && i < |w.queues[s]|
    ensures Gone(w, w.queues[s][i]) == Cut(w, s, i)
  {
    var p := w.queues[s][i];
    OnceOnly(w, s, i);
    WithoutIndex(w.queues[s], p, i);
    assert Queued(w, s, p);
    forall t | t in w.queues && t != s ensures Without(w.queues[t], p) == w.queues[t] {
      assert !Queued(w, t, p);
      WithoutAbsent(w.queues[t], p);
    }
    assert Gone(w, p).queues == Cut(w, s, i).queues;
  }

  lemma GoneQueued(w: Waits, p: int)
    requires Good(w)
    ensures Good(Gone(w, p)) && forall s, x :: Queued(Gone(w, p), s, x) <==> Queued(w, s, x) && x != p
  {
    if s :| Queued(w, s, p) {
      var i :| 0 <= i < |w.queues[s]| && w.queues[s][i] == p;
      GoneFrom(w, s, i);
      CutGood(w, s, i);
      CutQueued(w, s, i);
    } else {
      GoneNowhere(w, p);
    }
  }

  lemma CancelledPictures(r: Records, w: Waits, p: int)
    requires Shows(r, w)
    ensures Shows(Cancelled(r, p), Gone(w, p)) && Cancelled(r, p).items.Keys == r.items.Keys
    ensures Cancelled(r, p).heads.Keys == r.heads.Keys
    ensures p in r.items ==>
        p in Cancelled(r, p).waitingOn && Cancelled(r, p).waitingOn[p] == 0 && !Cancelled(r, p).items[p].queued
  {
    if p in r.items && r.items[p].queued {
      assert ItemOk(r, w, p);
      var s := r.waitingOn[p];
      var i :| 0 <= i < |w.queues[s]| && w.queues[s][i] == p;
      UnlinkShows(r, w, s, i);
      GoneFrom(w, s, i);
      UnlinkKeys(r, s, p);
    } else {
      assert p in r.items ==> ItemOk(r, w, p);
      assert 0 !in r.heads;
      assert Cancelled(r, p) == r;
      GoneNowhere(w, p);
    }
  }

  lemma ParkedPictures(r: Records, w: Waits, s: int, p: int)
    requires Shows(r, w) && s in r.heads && p in r.items
    ensures Shows(Parked(r, s, p), if p in w.queues[s] then w else Join(Gone(w, p), s, p))
    ensures Parked(r, s, p).items.Keys == r.items.Keys
  {
    assert ItemOk(r, w, p);
    if p in w.queues[s] {
      assert Queued(w, s, p);
      assert r.waitingOn[p] == s;
    } else {
      CancelledPictures(r, w, p);
      var a := Cancelled(r, p);
      assert !r.items[p].queued ==> a == r;
      assert Parked(r, s, p) == LinkTail(a, s, p);
      LinkTailShows(a, Gone(w, p), s, p);
      LinkKeys(a, s, p);
    }
  }

  lemma PopShows(r: Records, w: Waits, s: int)
    requires Shows(r, w) && s in w.queues && w.queues[s] != []
    ensures s in r.heads && s in r.tails && r.heads[s] == w.queues[s][0] && r.heads[s] in r.items
    ensures Shows(Unlink(r, s, w.queues[s][0]), Pop(w, s))
    ensures Unlink(r, s, w.queues[s][0]).items.Keys == r.items.Keys
  {
    assert EndsOk(r, w, s);
    var q := w.queues[s];
    hide Chains, Items, Good;
    UnlinkShows(r, w, s, 0);
    UnlinkKeys(r, s, q[0]);
    assert q[..0] + q[0 + 1..] == q[1..];
  }

  lemma EmptyHead(r: Records, w: Waits, s: int)
    requires Shows(r, w) && s in w.queues && w.queues[s] == []
    ensures s in r.heads && r.heads[s] !in r.items
  {
    assert EndsOk(r, w, s);
  }

  /** Every pop of the linked list is a pop of the queue. */
  lemma {:induction false} WokenPictures(r: Records, w: Waits, s: int, budget: nat, stale: set<int>, steps: nat)
    requires Shows(r, w) && s in w.queues && |w.queues[s]| <= steps
    ensures Shows(Woken(r, s, budget, stale, steps), WakeSome(w, s, budget, stale))
    ensures Woken(r, s, budget, stale, steps).items.Keys == r.items.Keys
    decreases steps
  {
    hide Shows;
    var q := w.queues[s];
    if q == [] {
      EmptyHead(r, w, s);
    } else if budget > 0 {
      PopShows(r, w, s);
      WokenPictures(Unlink(r, s, q[0]), Pop(w, s), s, if q[0] in stale then budget else budget - 1, stale, steps - 1);
    }
  }

  lemma {:induction false} QueueFits(q: seq<int>, all: set<int>)
    requires Distinct(q) && forall i :: 0 <= i < |q| ==> q[i] in all
    ensures |q| <= |all|
    decreases |q|
  {
    if q != [] {
      QueueFits(q[1..], all - {q[0]});
    }
  }

  lemma ListFits(r: Records, w: Waits, s: int)
    requires Shows(r, w) && s in w.queues
    ensures |w.queues[s]| <= |r.items|
  {
    GoodQueue(w, s);
    forall i | 0 <= i < |w.queues[s]| ensures w.queues[s][i] in r.items.Keys {
      assert Queued(w, s, w.queues[s][i]);
    }
    QueueFits(w.queues[s], r.items.Keys);
    assert |r.items.Keys| == |r.items|;
  }

  lemma {:induction false} WakeAllEmpties(w: Waits, s: int, budget: nat)
    requires s in w.queues && |w.queues[s]| <= budget
    ensures WakeSome(w, s, budget, {}) == w.(queues := w.queues[s := []])
    decreases |w.queues[s]|
  {
    if w.queues[s] == [] {
      assert w.queues[s := []] == w.queues;
    } else {
      WakeAllEmpties(Pop(w, s), s, budget - 1);
    }
  }

  lemma DroppedPictures(r: Records, w: Waits, s: int)
    requires Shows(r, w) && s in r.heads
    ensures var a := WithoutServer(Woken(r, s, |r.items|, {}, |r.items|), s);
            Shows(a, w.(queues := w.queues - {s})) && a.items.Keys == r.items.Keys
  {
    ListFits(r, w, s);
    WokenPictures(r, w, s, |r.items|, {}, |r.items|);
    WakeAllEmpties(w, s, |r.items|);
    var v := w.(queues := w.queues[s := []]);
    WithoutServerShows(Woken(r, s, |r.items|, {}, |r.items|), v, s);
    assert v.queues - {s} == w.queues - {s};
  }

  lemma TerminatedPictures(r: Records, w: Waits, p: int)
    requires Shows(r, w)
    ensures var a := WithoutTask(Cancelled(r, p), p);
            Shows(a, Gone(w, p)) && a.items.Keys == r.items.Keys - {p}
  {
    hide Shows, Cancelled, Gone;
    CancelledPictures(r, w, p);
    GoneAnywhere(r, w, p);
    WithoutTaskShows(Cancelled(r, p), Gone(w, p), p);
  }

  lemma WakePictures(r: Records, w: Waits, s: int, room: nat, stale: set<int>)
    requires Shows(r, w)
    ensures var a := Woken(r, s, Batch(room), stale, |r.items|);
            && a.items.Keys == r.items.Keys
            && Shows(a, if s in w.queues then WakeSome(w, s, Batch(room), stale) else w)
  {
    SameServers(r, w);
    hide Shows, Woken, WakeSome;
    if s in r.heads {
      ListFits(r, w, s);
      WokenPictures(r, w, s, Batch(room), stale, |r.items|);
    } else {
      NoServer(r, s, Batch(room), stale);
    }
  }

  lemma TaskPictures(r: Records, x: Plain, e: Event)
    requires Pictures(r, x) && (e.ENewTask? || e.EPark? || e.ECancel? || e.ETerminate?)
    ensures Pictures(Next(r, e), NextPlain(x, e))
  {
    SameServers(r, x.w);
    hide Shows, Cancelled, Parked, Gone, WithoutTask, Join;
    match e
    case ENewTask(p) => if p > 0 && p !in r.items { WithTaskShows(r, x.w, p); }
    case EPark(s, p) => if s in r.heads && p in r.items { ParkedPictures(r, x.w, s, p); }
    case ECancel(p) => CancelledPictures(r, x.w, p);
    case ETerminate(p) => TerminatedPictures(r, x.w, p);
  }

  lemma ServerPictures(r: Records, x: Plain, e: Event)
    requires Pictures(r, x) && (e.ENewServer? || e.EWake? || e.EDropServer?)
    ensures Pictures(Next(r, e), NextPlain(x, e))
  {
    SameServers(r, x.w);
    hide Shows, Woken, WakeSome, WithoutServer, WithServer;
    match e
    case ENewServer(s) =>
      if s != 0 && s !in r.heads {
        WithServerShows(r, x.w, s);
        ServerItems(r, s);
      }
    case EWake(s, room, stale) => WakePictures(r, x.w, s, room, stale);
    case EDropServer(s) =>
      if s in r.heads {
        DroppedPictures(r, x.w, s);
      } else {
        assert x.w.queues - {s} == x.w.queues;
      }
  }

  lemma NextPictures(r: Records, x: Plain, e: Event)
    requires Pictures(r, x)
    ensures Pictures(Next(r, e), NextPlain(x, e))
  {
    hide Pictures, Next, NextPlain;
    if e.ENewServer? || e.EWake? || e.EDropServer? {
      ServerPictures(r, x, e);
    } else {
      TaskPictures(r, x, e);
    }
  }

  lemma ServerItems(r: Records, s: int)
    ensures WithServer(r, s).items == r.items
  {
  }

  lemma SameServers(r: Records, w: Waits)
    requires Shows(r, w)
    ensures r.heads.Keys == w.queues.Keys
  {
  }

  lemma GoneAnywhere(r: Records, w: Waits, p: int)
    requires Shows(r, w)
    ensures forall s :: !Queued(Gone(w, p), s, p)
  {
    GoneQueued(w, p);
  }

  lemma NoServer(r: Records, s: int, budget: nat, stale: set<int>)
    requires s !in r.heads
    ensures Woken(r, s, budget, stale, |r.items|) == r
  {
  }

  // ----- whole runs

  /** After any run the linked records spell out the plain queues. */
  lemma {:induction false} RunsPicture(es: seq<Event>)
    ensures Pictures(Runs(es), RunsPlain(es))
    decreases |es|
  {
    if es != [] {
      hide Next, NextPlain, Pictures;
      RunsPicture(es[..|es| - 1]);
      NextPictures(Runs(es[..|es| - 1]), RunsPlain(es[..|es| - 1]), es[|es| - 1]);
    }
  }

  /** In every reachable state a task is queued on a server exactly when it notes that server; so on at
      most one, and on none once it is gone. */
  lemma OneQueueEach(es: seq<Event>, s: int, p: int)
    ensures var r, w := Runs(es), RunsPlain(es).w;
            Queued(w, s, p) <==> p in r.items && p in r.waitingOn && s != 0 && r.waitingOn[p] == s
  {
    RunsPicture(es);
    var r, w := Runs(es), RunsPlain(es).w;
    hide Runs, RunsPlain;
    if p in r.items {
      assert ItemOk(r, w, p);
    }
  }

  /** A cancelled or terminated task is on no list afterwards; nor is anyone on a dropped server's. */
  lemma OffAfter(es: seq<Event>, s: int, p: int)
    ensures !Queued(NextPlain(RunsPlain(es), ECancel(p)).w, s, p)
    ensures !Queued(NextPlain(RunsPlain(es), ETerminate(p)).w, s, p)
    ensures !Queued(NextPlain(RunsPlain(es), EDropServer(s)).w, s, p)
  {
    RunsPicture(es);
    hide Runs, RunsPlain;
    GoneQueued(RunsPlain(es).w, p);
  }

  /** A wake-up takes the longest-waiting tasks of that server and no others, as many that need waking as
      there is room for up to the limit, or all: whoever it takes is on no list afterwards, and whoever
      stays joined later. */
  lemma WakeTakesFirst(es: seq<Event>, s: int, room: nat, stale: set<int>) returns (n: nat)
    requires s in RunsPlain(es).w.queues
    ensures var q := RunsPlain(es).w.queues[s]; var v := NextPlain(RunsPlain(es), EWake(s, room, stale)).w;
            && n <= |q| && s in v.queues && v.queues[s] == q[n..]
            && NeedWaking(q[..n], stale) <= WAKE_BATCH_LIMIT && NeedWaking(q[..n], stale) <= room
            && (n < |q| ==> NeedWaking(q[..n], stale) == WAKE_BATCH_LIMIT || NeedWaking(q[..n], stale) == room)
            && (forall i, t :: 0 <= i < n ==> !Queued(v, t, q[i]))
            && (forall t :: t != s ==> (t in v.queues <==> t in RunsPlain(es).w.queues)
                                       && (t in v.queues ==> v.queues[t] == RunsPlain(es).w.queues[t]))
  {
    RunsPicture(es);
    var w := RunsPlain(es).w;
    hide Runs, RunsPlain;
    n := WakeTakesOldest(w, s, Batch(room), stale);
    var q, v := w.queues[s], NextPlain(RunsPlain(es), EWake(s, room, stale)).w;
    forall i, t | 0 <= i < n ensures !Queued(v, t, q[i]) {
      OnceOnly(w, s, i);
      assert Queued(w, s, q[i]);
      if t != s {
        assert Queued(v, t, q[i]) ==> Queued(w, t, q[i]);
      }
    }
  }
}
