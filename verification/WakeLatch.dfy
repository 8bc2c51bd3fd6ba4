/** The block/wake latch of a task: `proc_block_by`, `proc_block_by_timeout` and
    `proc_wakeup_by`.  A wake that finds its task not yet blocked is latched in the
    pair (wakePending, wakeBy); the next block consumes it.

    The partner of the latch is the history of wakes since the last consumption: the
    pair always encodes "was there any" and "the first token that was not generic". */
module WakeLatch {

  /** Block/wake token: 0 is generic, anything else names one node or semaphore. */
  type Token = nat
  const GENERIC: Token := 0

  datatype TaskState = Unused | Sleeping | Wait | Block | Ready | Running | Zombie

  /** The scheduling fields of a task.  `signalSaved` and `interruptSaved` are the states
      kept aside while a signal or interrupt handler borrows the context. */
  datatype Task = Task(
    state: TaskState,
    blockBy: Token,
    wakeBy: Token,
    wakePending: bool,
    sleepCounter: int,
    signalSaved: TaskState,
    interruptSaved: TaskState)

  predicate Alive(t: Task) {
    t.state != Unused && t.state != Zombie
  }

  /** `proc_wakeup_all_state`: the task and every saved state become READY. */
  function AllReady(t: Task): Task {
    t.(state := Ready, signalSaved := Ready, interruptSaved := Ready)
  }

  /** `proc_wakeup_by`. */
  function WakeBy(t: Task, token: Token): Task {
    if !Alive(t) then t
    else if t.state == Block then
      if token != GENERIC && t.blockBy != GENERIC && t.blockBy != token then t
      else AllReady(t.(blockBy := GENERIC, sleepCounter := 0, wakeBy := GENERIC, wakePending := false))
    else if !t.wakePending then AllReady(t.(wakeBy := token, wakePending := true))
    else if t.wakeBy == GENERIC then AllReady(t.(wakeBy := token))
    else AllReady(t)
  }

  /** Does a block on `token` return at once?  `timed` selects `proc_block_by_timeout`. */
  predicate RunsNow(t: Task, token: Token, timed: bool) {
    if t.wakePending then
      var compatible := if token == GENERIC then !timed || t.wakeBy != GENERIC else t.wakeBy == token;
      compatible || t.wakeBy != GENERIC
    else
      t.state == Ready
  }

  /** `proc_block_by` (`usec` ignored) and `proc_block_by_timeout`. */
  function BlockBy(t: Task, token: Token, timed: bool, usec: nat): Task {
    var c := if t.wakePending then t.(wakePending := false, wakeBy := GENERIC) else t;
    if RunsNow(t, token, timed) then
      c.(state := if t.state == Ready then Running else t.state, blockBy := GENERIC)
    else
      c.(blockBy := token, sleepCounter := if timed then usec else 0, state := Block)
  }

  /** `proc_ipc_pool_park`'s transition of the worker. */
  function PoolPark(t: Task): Task {
    t.(blockBy := GENERIC, wakeBy := GENERIC, wakePending := false, state := Block)
  }

  /** One table entry's share of `renew_sleep_counter`. */
  function Tick(t: Task, usec: nat): Task {
    if t.state == Sleeping then
      if t.sleepCounter - usec <= 0 then t.(sleepCounter := 0, state := Ready)
      else t.(sleepCounter := t.sleepCounter - usec)
    else if t.state == Block && t.sleepCounter > 0 then
      if t.sleepCounter - usec <= 0 then t.(sleepCounter := 0, blockBy := GENERIC, state := Ready)
      else t.(sleepCounter := t.sleepCounter - usec)
    else t
  }

  // ----- the history the latch refines

  /** The first token of `h` that is not generic, or GENERIC. */
  function FirstNode(h: seq<Token>): Token {
    if h == [] then GENERIC else if h[0] != GENERIC then h[0] else FirstNode(h[1..])
  }

  lemma {:induction false} FirstNodeAppend(h: seq<Token>, x: Token)
    ensures FirstNode(h + [x]) == if FirstNode(h) != GENERIC then FirstNode(h) else x
  {
    if h == [] {
      assert [x][1..] == [];
    } else {
      assert (h + [x])[1..] == h[1..] + [x];
      FirstNodeAppend(h[1..], x);
    }
  }

  /** A node token is found exactly when the history holds one. */
  lemma {:induction false} FirstNodeExists(h: seq<Token>)
    ensures FirstNode(h) != GENERIC <==> exists i :: 0 <= i < |h| && h[i] != GENERIC
  {
    if h != [] {
      FirstNodeExists(h[1..]);
      if i :| 0 <= i < |h| && h[i] != GENERIC && h[0] == GENERIC {
        assert h[1..][i - 1] == h[i];
      }
      if h[0] == GENERIC && FirstNode(h[1..]) != GENERIC {
        var i :| 0 <= i < |h[1..]| && h[1..][i] != GENERIC;
        assert h[i + 1] != GENERIC;
      }
    }
  }

  datatype Event =
    | EvWake(token: Token)
    | EvBlock(token: Token)
    | EvBlockTimeout(token: Token, usec: nat)
    | EvPark
    | EvTick(usec: nat)
    | EvReady
    | EvRun
    | EvSleep(usec: nat)

  function Next(t: Task, e: Event): Task {
    match e
    case EvWake(k) => WakeBy(t, k)
    case EvBlock(k) => BlockBy(t, k, false, 0)
    case EvBlockTimeout(k, usec) => BlockBy(t, k, true, usec)
    case EvPark => PoolPark(t)
    case EvTick(usec) => Tick(t, usec)
    case EvReady => t.(state := Ready)
    case EvRun => t.(state := Running)
    case EvSleep(usec) => t.(state := Sleeping, sleepCounter := usec)
  }

  /** The wakes since the last consumption.  A wake is recorded when it reaches a live task
      that is not blocked; a block or park consumes them all; a wake that releases a block is
      spent on the spot, and one that is aimed at another node leaves no trace. */
  function NextHistory(t: Task, h: seq<Token>, e: Event): seq<Token> {
    match e
    case EvWake(k) =>
      if !Alive(t) then h
      else if t.state != Block then h + [k]
      else if k != GENERIC && t.blockBy != GENERIC && t.blockBy != k then h
      else []
    case EvBlock(_) => []
    case EvBlockTimeout(_, _) => []
    case EvPark => []
    case _ => h
  }

  ghost predicate Encodes(t: Task, h: seq<Token>) {
    && t.wakePending == (h != [])
    && t.wakeBy == FirstNode(h)
  }

  function RunTask(t: Task, es: seq<Event>): Task
    decreases |es|
  {
    if es == [] then t else RunTask(Next(t, es[0]), es[1..])
  }

  function RunHistory(t: Task, h: seq<Token>, es: seq<Event>): seq<Token>
    decreases |es|
  {
    if es == [] then h else RunHistory(Next(t, es[0]), NextHistory(t, h, es[0]), es[1..])
  }

  lemma EncodesStep(t: Task, h: seq<Token>, e: Event)
    requires Encodes(t, h)
    ensures Encodes(Next(t, e), NextHistory(t, h, e))
  {
    if e.EvWake? && Alive(t) && t.state != Block {
      FirstNodeAppend(h, e.token);
    }
  }

  /** Over every run the latch encodes the unconsumed wakes. */
  lemma {:induction false} LatchRefinesHistory(t: Task, h: seq<Token>, es: seq<Event>)
    requires Encodes(t, h)
    ensures Encodes(RunTask(t, es), RunHistory(t, h, es))
    decreases |es|
  {
    if es != [] {
      EncodesStep(t, h, es[0]);
      LatchRefinesHistory(Next(t, es[0]), NextHistory(t, h, es[0]), es[1..]);
    }
  }

  /** With wakes pending, a node block or a timed block returns at once exactly when one of
      them was node-scoped, and an untimed generic block always does; without any, only a
      task already made READY does. */
  lemma BlockReturnsExactly(t: Task, h: seq<Token>, token: Token, timed: bool, usec: nat)
    requires Encodes(t, h)
    ensures h != [] ==>
      (RunsNow(t, token, timed) <==>
        (token == GENERIC && !timed) || exists i :: 0 <= i < |h| && h[i] != GENERIC)
    ensures h == [] ==> (RunsNow(t, token, timed) <==> t.state == Ready)
    ensures RunsNow(t, token, timed) ==>
      (BlockBy(t, token, timed, usec).state == Block <==> t.state == Block)
    ensures !RunsNow(t, token, timed) ==>
      BlockBy(t, token, timed, usec).state == Block && BlockBy(t, token, timed, usec).blockBy == token
  {
    FirstNodeExists(h);
  }

  // ----- what a wake and a deadline release

  /** A wake reaches the task: it does not sleep, or sleeps on this token, or one of the two is generic. */
  predicate Reaches(t: Task, token: Token) {
    t.state == Block ==> token == GENERIC || t.blockBy == GENERIC || t.blockBy == token
  }

  /** A live task that a wake reaches is READY afterwards, its saved contexts too; a task asleep on
      another node, or dead, is as it was. Released from a block it keeps neither token, deadline nor
      latch. */
  lemma WakeExactly(t: Task, token: Token)
    ensures var v := WakeBy(t, token);
      && (Alive(t) && Reaches(t, token) ==> v.state == Ready && v.signalSaved == Ready && v.interruptSaved == Ready)
      && (!Alive(t) || !Reaches(t, token) ==> v == t)
      && (t.state == Block ==> (v.state == Ready <==> Reaches(t, token)))
      && (t.state == Block && Reaches(t, token) ==> v.blockBy == GENERIC && v.sleepCounter == 0 && !v.wakePending)
  {
  }

  /** A parked worker is blocked on no node with no wake pending, so any wake reaches it. */
  lemma ParkExactly(t: Task, token: Token)
    ensures var v := PoolPark(t);
      v.state == Block && v.blockBy == GENERIC && !v.wakePending && WakeBy(v, token).state == Ready
  {
  }

  /** Only ticks, and wakes aimed at other nodes. */
  predicate Undisturbed(es: seq<Event>, token: Token) {
    forall i :: 0 <= i < |es| ==>
      es[i].EvTick? || (es[i].EvWake? && es[i].token != GENERIC && token != GENERIC && es[i].token != token)
  }

  /** The time the ticks of a run add up to. */
  function Elapsed(es: seq<Event>): nat {
    if es == [] then 0 else (if es[0].EvTick? then es[0].usec else 0) + Elapsed(es[1..])
  }

  lemma {:induction false} StaysReady(t: Task, es: seq<Event>, token: Token)
    requires t.state == Ready && Undisturbed(es, token)
    ensures RunTask(t, es).state == Ready
    decreases |es|
  {
    if es != [] {
      StaysReady(Next(t, es[0]), es[1..], token);
    }
  }

  /** A block with a deadline, left alone, ends exactly when the time is up; until then what remains of
      the time is on its counter. A block without one does not end. */
  lemma {:induction false} DeadlineExactly(t: Task, es: seq<Event>, token: Token)
    requires t.state == Block && t.blockBy == token && t.sleepCounter >= 0 && Undisturbed(es, token)
    ensures var v := RunTask(t, es);
      && (0 < t.sleepCounter <= Elapsed(es) ==> v.state == Ready)
      && (t.sleepCounter == 0 || Elapsed(es) < t.sleepCounter ==>
            v.state == Block && v.blockBy == token
            && v.sleepCounter == if t.sleepCounter == 0 then 0 else t.sleepCounter - Elapsed(es))
    decreases |es|
  {
    if es != [] {
      var u := Next(t, es[0]);
      if u.state == Block {
        DeadlineExactly(u, es[1..], token);
      } else {
        StaysReady(u, es[1..], token);
      }
    }
  }

  /** A task that goes to sleep in a timed block with `usec` to run is READY after ticks exactly when they
      add up to `usec`. */
  lemma TimedBlockEnds(t: Task, token: Token, usec: nat, es: seq<Event>)
    requires !RunsNow(t, token, true) && usec > 0 && Undisturbed(es, token)
    ensures var v := RunTask(BlockBy(t, token, true, usec), es);
      v.state == (if usec <= Elapsed(es) then Ready else Block)
  {
    DeadlineExactly(BlockBy(t, token, true, usec), es, token);
  }

  /** And one in an untimed block stays there. */
  lemma UntimedBlockStays(t: Task, token: Token, es: seq<Event>)
    requires !RunsNow(t, token, false) && Undisturbed(es, token)
    ensures RunTask(BlockBy(t, token, false, 0), es).state == Block
  {
    DeadlineExactly(BlockBy(t, token, false, 0), es, token);
  }

  /** A sleep ends with the time too. */
  lemma {:induction false} SleepEnds(t: Task, es: seq<Event>)
    requires t.state == Sleeping && t.sleepCounter > 0 && forall i :: 0 <= i < |es| ==> es[i].EvTick?
    ensures RunTask(t, es).state == if t.sleepCounter <= Elapsed(es) then Ready else Sleeping
    decreases |es|
  {
    if es != [] {
      var u := Next(t, es[0]);
      if u.state == Sleeping {
        SleepEnds(u, es[1..]);
      } else {
        assert Undisturbed(es[1..], GENERIC);
        StaysReady(u, es[1..], GENERIC);
      }
    }
  }

  /** Everything that may happen to a task between two blocks of its own. */
  predicate Awake(es: seq<Event>) {
    forall i :: 0 <= i < |es| ==> !es[i].EvBlock? && !es[i].EvBlockTimeout? && !es[i].EvPark?
  }

  /** The tokens of the wakes among `es`. */
  function Tokens(es: seq<Event>): seq<Token> {
    if es == [] then [] else (if es[0].EvWake? then [es[0].token] else []) + Tokens(es[1..])
  }

  /** No node edge is lost: if, since a live task last ran unblocked, any wake carried a node token,
      whatever ticks, sleeps and rescheduling came between, its next node or timed block does not put
      it to sleep. */
  lemma {:induction false} NoLostNodeEdge(t: Task, h: seq<Token>, es: seq<Event>, i: nat, token: Token, timed: bool)
    requires Encodes(t, h) && Alive(t) && t.state != Block
    requires Awake(es) && i < |es| && es[i].EvWake? && es[i].token != GENERIC
    ensures RunsNow(RunTask(t, es), token, timed)
    decreases |es|
  {
    WakesAccumulate(t, h, es);
    LatchRefinesHistory(t, h, es);
    TokensHas(es, i);
    var j :| 0 <= j < |Tokens(es)| && Tokens(es)[j] == es[i].token;
    var g := RunHistory(t, h, es);
    assert g[|h| + j] == es[i].token;
    BlockReturnsExactly(RunTask(t, es), g, token, timed, 0);
  }

  lemma {:induction false} TokensHas(es: seq<Event>, i: nat)
    requires i < |es| && es[i].EvWake?
    ensures es[i].token in Tokens(es)
    decreases |es|
  {
    if i > 0 {
      TokensHas(es[1..], i - 1);
    }
  }

  lemma AwakeStep(t: Task, h: seq<Token>, e: Event)
    requires Alive(t) && t.state != Block && !e.EvBlock? && !e.EvBlockTimeout? && !e.EvPark?
    ensures Alive(Next(t, e)) && Next(t, e).state != Block
    ensures NextHistory(t, h, e) == h + (if e.EvWake? then [e.token] else [])
  {
  }

  /** Between blocks the pending history grows by exactly the wakes that arrive. */
  lemma {:induction false} WakesAccumulate(t: Task, h: seq<Token>, es: seq<Event>)
    requires Alive(t) && t.state != Block && Awake(es)
    ensures RunHistory(t, h, es) == h + Tokens(es)
    decreases |es|
  {
    if es == [] {
      assert h + [] == h;
    } else {
      AwakeStep(t, h, es[0]);
      var t1, h1 := Next(t, es[0]), NextHistory(t, h, es[0]);
      var x := if es[0].EvWake? then [es[0].token] else [];
      WakesUnfold(t, h, es);
      hide Next, NextHistory, RunHistory, Tokens;
      WakesAccumulate(t1, h1, es[1..]);
      Regroup(h, x, Tokens(es[1..]));
    }
  }

  lemma WakesUnfold(t: Task, h: seq<Token>, es: seq<Event>)
    requires es != []
    ensures RunHistory(t, h, es) == RunHistory(Next(t, es[0]), NextHistory(t, h, es[0]), es[1..])
    ensures Tokens(es) == (if es[0].EvWake? then [es[0].token] else []) + Tokens(es[1..])
  {
  }

  lemma Regroup(a: seq<Token>, b: seq<Token>, c: seq<Token>)
    ensures (a + b) + c == a + (b + c)
  {
  }

  /** The latch as the kernel keeps it: fields of a process record, updated in place. */
  class Process {
    var state: TaskState
    var blockBy: Token
    var wakeBy: Token
    var wakePending: bool
    var sleepCounter: int
    var signalSaved: TaskState
    var interruptSaved: TaskState

    function Value(): Task
      reads this
    {
      Task(state, blockBy, wakeBy, wakePending, sleepCounter, signalSaved, interruptSaved)
    }

    constructor (initial: TaskState)
      ensures Value() == Task(initial, GENERIC, GENERIC, false, 0, Ready, Ready)
    {
      state, blockBy, wakeBy, wakePending, sleepCounter := initial, GENERIC, GENERIC, false, 0;
      signalSaved, interruptSaved := Ready, Ready;
    }

    method WakeupAllState()
      modifies this
      ensures Value() == AllReady(old(Value()))
    {
      state := Ready;
      signalSaved := Ready;
      interruptSaved := Ready;
    }

    method WakeupBy(token: Token)
      modifies this
      ensures Value() == WakeBy(old(Value()), token)
    {
      if state == Unused || state == Zombie {
        return;
      }
      if state == Block {
        if token != GENERIC && blockBy != GENERIC && blockBy != token {
          return;
        }
        blockBy := GENERIC;
        sleepCounter := 0;
        wakeBy := GENERIC;
        wakePending := false;
        WakeupAllState();
      } else {
        WakeupAllState();
        if !wakePending {
          wakeBy := token;
          wakePending := true;
        } else if wakeBy == GENERIC && token != GENERIC {
          wakeBy := token;
        }
      }
    }

    method BlockOn(token: Token, timed: bool, usec: nat) returns (slept: bool)
      modifies this
      ensures Value() == BlockBy(old(Value()), token, timed, usec)
      ensures slept == !RunsNow(old(Value()), token, timed)
    {
      var runNow := false;
      if wakePending {
        var compatible := if token != GENERIC then wakeBy == token else !timed || wakeBy != GENERIC;
        var foreign := !compatible && wakeBy != GENERIC;
        wakePending := false;
        wakeBy := GENERIC;
        runNow := compatible || foreign;
      } else if state == Ready {
        runNow := true;
      }
      if runNow {
        if state == Ready {
          state := Running;
        }
        blockBy := GENERIC;
        return false;
      }
      blockBy := token;
      sleepCounter := if timed then usec else 0;
      state := Block;
      return true;
    }
  }
}
