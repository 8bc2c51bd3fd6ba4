/** Clients parked for server capacity: each task embeds one queue item, linked into at most one
    server's doubly linked list. The lists refine plain sequences kept in arrival order. */
module IpcWaitQueue {
  const WAKE_BATCH_LIMIT: nat := 2

  // ----- the simple picture: a sequence of tasks per server

  /** `queues` has a key for every live server; `since` tells when a queued task joined. */
  datatype Waits = Waits(queues: map<int, seq<int>>, since: map<int, nat>, clock: nat)

  predicate Queued(w: Waits, s: int, p: int) {
    s in w.queues && p in w.queues[s]
  }

  predicate Older(w: Waits, s: int, i: int, j: int)
    requires s in w.queues && 0 <= i < |w.queues[s]| && 0 <= j < |w.queues[s]|
  {
    w.queues[s][i] in w.since && w.queues[s][j] in w.since && w.since[w.queues[s][i]] < w.since[w.queues[s][j]]
  }

  /** No task waits twice, and every queue is in arrival order. */
  ghost predicate Good(w: Waits) {
    && (forall s, t, p :: Queued(w, s, p) && Queued(w, t, p) ==> s == t)
    && (forall s, i, j :: s in w.queues && 0 <= i < j < |w.queues[s]| ==> Older(w, s, i, j))
    && (forall s, i :: s in w.queues && 0 <= i < |w.queues[s]| ==>
          w.queues[s][i] in w.since && w.since[w.queues[s][i]] < w.clock)
    && (forall s, i :: s in w.queues && 0 <= i < |w.queues[s]| ==> w.queues[s][i] > 0)
  }

  /** The queue without task `p`. */
  function Without(q: seq<int>, p: int): seq<int> {
    if q == [] then []
    else if q[0] == p then q[1..]
    else [q[0]] + Without(q[1..], p)
  }

  function Join(w: Waits, s: int, p: int): Waits
    requires s in w.queues
  {
    Waits(w.queues[s := w.queues[s] + [p]], w.since[p := w.clock], w.clock + 1)
  }

  function Leave(w: Waits, s: int, p: int): Waits
    requires s in w.queues
  {
    w.(queues := w.queues[s := Without(w.queues[s], p)])
  }

  function Pop(w: Waits, s: int): Waits
    requires s in w.queues && w.queues[s] != []
  {
    w.(queues := w.queues[s := w.queues[s][1..]])
  }

  lemma {:induction false} WithoutIndex(q: seq<int>, p: int, i: nat)
    requires i < |q| && q[i] == p && forall j :: 0 <= j < i ==> q[j] != p
    ensures Without(q, p) == q[..i] + q[i + 1..]
    decreases |q|
  {
    if i > 0 {
      WithoutIndex(q[1..], p, i - 1);
      assert q[..i] == [q[0]] + q[1..][..i - 1];
      assert q[1..][i..] == q[i + 1..];
    }
  }

  lemma {:induction false} WithoutAbsent(q: seq<int>, p: int)
    requires p !in q
    ensures Without(q, p) == q
    decreases |q|
  {
    if q != [] {
      WithoutAbsent(q[1..], p);
    }
  }

  lemma JoinGood(w: Waits, s: int, p: int)
    requires Good(w) && s in w.queues && p > 0 && forall t :: !Queued(w, t, p)
    ensures Good(Join(w, s, p))
  {
    var a := Join(w, s, p);
    forall t, u, x | Queued(a, t, x) && Queued(a, u, x) ensures t == u {
      if x != p {
        assert Queued(w, t, x) && Queued(w, u, x);
      } else {
        assert !Queued(w, t, p) && !Queued(w, u, p);
      }
    }
    forall t, i | t in a.queues && 0 <= i < |a.queues[t]| && !(t == s && i == |w.queues[s]|)
      ensures a.queues[t][i] == w.queues[t][i] && a.queues[t][i] != p
    {
      assert !Queued(w, t, p);
    }
    forall t, i, j | t in a.queues && 0 <= i < j < |a.queues[t]| ensures Older(a, t, i, j) {
      if !(t == s && j == |w.queues[s]|) {
        assert Older(w, t, i, j);
      }
    }
  }

  /** Any queue may lose elements, the others keeping their order. */
  lemma CutGood(w: Waits, s: int, i: nat)
    requires Good(w) && s in w.queues && i < |w.queues[s]|
    ensures Good(w.(queues := w.queues[s := w.queues[s][..i] + w.queues[s][i + 1..]]))
  {
    var q := w.queues[s];
    var a := w.(queues := w.queues[s := q[..i] + q[i + 1..]]);
    forall t, u, x | Queued(a, t, x) && Queued(a, u, x) ensures t == u {
      assert Queued(w, t, x) && Queued(w, u, x);
    }
    forall t, j, k | t in a.queues && 0 <= j < k < |a.queues[t]| ensures Older(a, t, j, k) {
      if t == s {
        assert Older(w, s, if j < i then j else j + 1, if k < i then k else k + 1);
      } else {
        assert Older(w, t, j, k);
      }
    }
  }

  lemma OnceOnly(w: Waits, s: int, i: nat)
    requires Good(w) && s in w.queues && i < |w.queues[s]|
    ensures forall j :: 0 <= j < |w.queues[s]| && j != i ==> w.queues[s][j] != w.queues[s][i]
  {
    forall j | 0 <= j < |w.queues[s]| && j != i ensures w.queues[s][j] != w.queues[s][i] {
      if j < i {
        assert Older(w, s, j, i);
      } else {
        assert Older(w, s, i, j);
      }
    }
  }

  lemma LeaveGood(w: Waits, s: int, p: int)
    requires Good(w) && s in w.queues
    ensures Good(Leave(w, s, p))
    ensures forall t :: !Queued(Leave(w, s, p), t, p) || (t != s && Queued(w, t, p))
  {
    var q := w.queues[s];
    if p in q {
      var i :| 0 <= i < |q| && q[i] == p;
      OnceOnly(w, s, i);
      WithoutIndex(q, p, i);
      CutGood(w, s, i);
    } else {
      WithoutAbsent(q, p);
      assert w.queues[s := q] == w.queues;
    }
  }

  lemma PopGood(w: Waits, s: int)
    requires Good(w) && s in w.queues && w.queues[s] != []
    ensures Good(Pop(w, s)) && forall t :: !Queued(Pop(w, s), t, w.queues[s][0])
    ensures forall i :: 0 < i < |w.queues[s]| ==> Older(w, s, 0, i)
  {
    var q := w.queues[s];
    assert q[1..] == q[..0] + q[0 + 1..];
    CutGood(w, s, 0);
    OnceOnly(w, s, 0);
    assert Queued(w, s, q[0]);
    forall t ensures !Queued(Pop(w, s), t, q[0]) {
      if t != s {
        assert Queued(Pop(w, s), t, q[0]) ==> Queued(w, t, q[0]);
      }
    }
    forall i | 0 < i < |q| ensures Older(w, s, 0, i) {
    }
  }

  /** Pops until `budget` waiters really needed waking; stale ones are dropped for free. */
  function WakeSome(w: Waits, s: int, budget: nat, stale: set<int>): Waits
    requires s in w.queues
    decreases |w.queues[s]|
  {
    if budget == 0 || w.queues[s] == [] then w
    else WakeSome(Pop(w, s), s, if w.queues[s][0] in stale then budget else budget - 1, stale)
  }

  function NeedWaking(q: seq<int>, stale: set<int>): nat {
    if q == [] then 0 else (if q[0] in stale then 0 else 1) + NeedWaking(q[1..], stale)
  }

  /** A wake-up removes a prefix of the queue: the oldest waiters, at most `budget` of them live, and
      exactly `budget` unless it empties the queue. No other queue changes. */
  lemma {:induction false} WakeTakesOldest(w: Waits, s: int, budget: nat, stale: set<int>) returns (n: nat)
    requires Good(w) && s in w.queues
    ensures Good(WakeSome(w, s, budget, stale)) && n <= |w.queues[s]|
    ensures WakeSome(w, s, budget, stale) == w.(queues := w.queues[s := w.queues[s][n..]])
    ensures NeedWaking(w.queues[s][..n], stale) <= budget
    ensures n < |w.queues[s]| ==> NeedWaking(w.queues[s][..n], stale) == budget
    decreases |w.queues[s]|
  {
    var q := w.queues[s];
    if budget == 0 || q == [] {
      n := 0;
      assert w.queues[s := q[0..]] == w.queues;
    } else {
      PopGood(w, s);
      var k := WakeTakesOldest(Pop(w, s), s, if q[0] in stale then budget else budget - 1, stale);
      n := k + 1;
      assert q[1..][k..] == q[n..];
      assert q[..n][1..] == q[1..][..k];
    }
  }

  // ----- the embedded list items

  /** Task 0 is the null pointer. */
  datatype Item = Item(next: int, prev: int, queued: bool)

  function At(q: seq<int>, i: int): int {
    if 0 <= i < |q| then q[i] else 0
  }

  predicate Linked(items: map<int, Item>, q: seq<int>, i: int)
    requires 0 <= i < |q|
  {
    q[i] in items && items[q[i]] == Item(At(q, i + 1), At(q, i - 1), true)
  }

  predicate Chain(items: map<int, Item>, q: seq<int>) {
    forall i :: 0 <= i < |q| ==> Linked(items, q, i)
  }

  predicate Distinct(q: seq<int>) {
    forall i, j :: 0 <= i < j < |q| ==> q[i] != q[j]
  }

  function Appended(items: map<int, Item>, last: int, p: int): map<int, Item> {
    var m := items[p := Item(0, last, true)];
    if last in m && last != 0 then m[last := m[last].(next := p)] else m
  }

  lemma AppendChain(items: map<int, Item>, q: seq<int>, p: int)
    requires Chain(items, q) && Distinct(q) && p !in q && p != 0 && forall i :: 0 <= i < |q| ==> q[i] > 0
    ensures Chain(Appended(items, At(q, |q| - 1), p), q + [p])
  {
    var m := Appended(items, At(q, |q| - 1), p);
    var r := q + [p];
    forall i | 0 <= i < |r| ensures Linked(m, r, i) {
      if i < |q| {
        assert Linked(items, q, i);
      }
    }
  }

  function Unlinked(items: map<int, Item>, p: int): map<int, Item>
    requires p in items
  {
    var it := items[p];
    var m := if it.prev in items && it.prev != 0 then items[it.prev := items[it.prev].(next := it.next)] else items;
    var n := if it.next in m && it.next != 0 then m[it.next := m[it.next].(prev := it.prev)] else m;
    n[p := Item(0, 0, false)]
  }

  lemma UnlinkedAt(items: map<int, Item>, q: seq<int>, i: nat, j: nat)
    requires Chain(items, q) && Distinct(q) && i < |q| && j < |q| - 1 && q[i] in items
    requires forall k :: 0 <= k < |q| ==> q[k] > 0
    ensures Linked(Unlinked(items, q[i]), q[..i] + q[i + 1..], j)
  {
    var r := q[..i] + q[i + 1..];
    var k := if j < i then j else j + 1;
    assert Linked(items, q, i) && Linked(items, q, k);
    assert r[j] == q[k] && q[k] != q[i];
    assert At(r, j + 1) == if k == i - 1 then At(q, i + 1) else At(q, k + 1);
    assert At(r, j - 1) == if k == i + 1 then At(q, i - 1) else At(q, k - 1);
  }

  lemma UnlinkChain(items: map<int, Item>, q: seq<int>, i: nat)
    requires Chain(items, q) && Distinct(q) && i < |q| && forall j :: 0 <= j < |q| ==> q[j] > 0
    ensures q[i] in items
    ensures Chain(Unlinked(items, q[i]), q[..i] + q[i + 1..])
  {
    assert Linked(items, q, i);
    var m := Unlinked(items, q[i]);
    var r := q[..i] + q[i + 1..];
    hide Unlinked;
    forall j | 0 <= j < |r| ensures Linked(m, r, j) {
      UnlinkedAt(items, q, i, j);
    }
  }

  /** Edits touch only the items of the list concerned. */
  lemma OtherChain(items: map<int, Item>, m: map<int, Item>, q: seq<int>)
    requires Chain(items, q) && forall i :: 0 <= i < |q| ==> q[i] in m && q[i] in items && m[q[i]] == items[q[i]]
    ensures Chain(m, q)
  {
    forall i | 0 <= i < |q| ensures Linked(m, q, i) {
      assert Linked(items, q, i);
    }
  }

  lemma GoodQueue(w: Waits, s: int)
    requires Good(w) && s in w.queues
    ensures Distinct(w.queues[s]) && forall i :: 0 <= i < |w.queues[s]| ==> w.queues[s][i] > 0
  {
    forall i, j | 0 <= i < j < |w.queues[s]| ensures w.queues[s][i] != w.queues[s][j] {
      assert Older(w, s, i, j);
    }
  }

  lemma JoinLists(w: Waits, s: int, p: int, items: map<int, Item>, m: map<int, Item>)
    requires Good(w) && s in w.queues && m == Appended(items, At(w.queues[s], |w.queues[s]| - 1), p)
    requires forall t :: !Queued(w, t, p)
    requires forall t :: t in w.queues ==> Chain(items, w.queues[t])
    ensures forall t :: t in w.queues && t != s ==> Chain(m, w.queues[t])
  {
    forall t | t in w.queues && t != s ensures Chain(m, w.queues[t]) {
      forall i | 0 <= i < |w.queues[t]|
        ensures w.queues[t][i] in m && w.queues[t][i] in items && m[w.queues[t][i]] == items[w.queues[t][i]]
      {
        assert Linked(items, w.queues[t], i);
        assert Queued(w, t, w.queues[t][i]);
        if w.queues[s] != [] {
          assert Queued(w, s, w.queues[s][|w.queues[s]| - 1]);
        }
      }
      OtherChain(items, m, w.queues[t]);
    }
  }

  // ----- all lists together

  /** The kernel's records: each task's item and the server it notes, each server's two ends. */
  datatype Records = Records(
    items: map<int, Item>,
    waitingOn: map<int, int>,
    heads: map<int, int>,
    tails: map<int, int>)

  /** Task `p`'s item is on the list of the server it notes, or on no list and it notes none. */
  ghost predicate ItemOk(r: Records, w: Waits, p: int)
    requires p in r.items && p in r.waitingOn
  {
    if r.items[p].queued then r.waitingOn[p] != 0 && Queued(w, r.waitingOn[p], p)
    else r.waitingOn[p] == 0 && forall s :: !Queued(w, s, p)
  }

  predicate EndsOk(r: Records, w: Waits, s: int)
    requires s in w.queues
  {
    s in r.heads && s in r.tails && r.heads[s] == At(w.queues[s], 0) && r.tails[s] == At(w.queues[s], |w.queues[s]| - 1)
  }

  ghost predicate Chains(r: Records, w: Waits) {
    forall s :: s in w.queues ==> Chain(r.items, w.queues[s]) && EndsOk(r, w, s)
  }

  ghost predicate Items(r: Records, w: Waits) {
    && r.items.Keys == r.waitingOn.Keys
    && (forall p :: p in r.items ==> p > 0 && ItemOk(r, w, p))
    && (forall s, p :: Queued(w, s, p) ==> p in r.items)
  }

  /** The records spell out the queues. */
  ghost predicate Shows(r: Records, w: Waits) {
    Good(w) && 0 !in w.queues && r.heads.Keys == w.queues.Keys && r.tails.Keys == w.queues.Keys && Chains(r, w)
        && Items(r, w)
  }

  function LinkTail(r: Records, s: int, p: int): Records
    requires s in r.heads && s in r.tails
  {
    Records(Appended(r.items, r.tails[s], p),
            r.waitingOn[p := s],
            if r.tails[s] == 0 then r.heads[s := p] else r.heads,
            r.tails[s := p])
  }

  lemma LinkTailShows(r: Records, w: Waits, s: int, p: int)
    requires Shows(r, w) && s in w.queues && p in r.items && !r.items[p].queued
    ensures Shows(LinkTail(r, s, p), Join(w, s, p))
  {
    var q := w.queues[s];
    assert ItemOk(r, w, p) && EndsOk(r, w, s);
    assert !Queued(w, s, p);
    JoinGood(w, s, p);
    GoodQueue(w, s);
    AppendChain(r.items, q, p);
    var a, v := LinkTail(r, s, p), Join(w, s, p);
    JoinLists(w, s, p, r.items, a.items);
    assert Chains(a, v) by {
      forall t | t in v.queues ensures Chain(a.items, v.queues[t]) && EndsOk(a, v, t) {
        assert EndsOk(r, w, t);
      }
    }
    JoinItems(r, w, s, p);
  }

  lemma JoinItems(r: Records, w: Waits, s: int, p: int)
    requires Items(r, w) && s in w.queues && s != 0 && p in r.items && s in r.heads && s in r.tails && EndsOk(r, w, s)
    ensures Items(LinkTail(r, s, p), Join(w, s, p))
  {
    var a, v := LinkTail(r, s, p), Join(w, s, p);
    var q := w.queues[s];
    forall t, x ensures Queued(v, t, x) <==> Queued(w, t, x) || (t == s && x == p) {
      if t == s && x == p {
        assert v.queues[s][|q|] == p;
      } else if t == s && x in q {
        var i :| 0 <= i < |q| && q[i] == x;
        assert v.queues[s][i] == x;
      }
    }
    if q != [] {
      assert Queued(w, s, q[|q| - 1]);
    }
    forall x | x in a.items ensures x > 0 && ItemOk(a, v, x) {
      assert x in r.items && ItemOk(r, w, x);
    }
  }

  function Unlink(r: Records, s: int, p: int): Records
    requires p in r.items && s in r.heads && s in r.tails
  {
    var it := r.items[p];
    Records(Unlinked(r.items, p),
            r.waitingOn[p := 0],
            if it.prev == 0 then r.heads[s := it.next] else r.heads,
            if it.next == 0 then r.tails[s := it.prev] else r.tails)
  }

  lemma UnlinkLists(r: Records, w: Waits, s: int, i: nat)
    requires Good(w) && Chains(r, w) && s in w.queues && i < |w.queues[s]| && w.queues[s][i] in r.items
    ensures forall t :: t in w.queues && t != s ==> Chain(Unlinked(r.items, w.queues[s][i]), w.queues[t])
  {
    var q := w.queues[s];
    var m := Unlinked(r.items, q[i]);
    assert Linked(r.items, q, i);
    forall t | t in w.queues && t != s ensures Chain(m, w.queues[t]) {
      forall j | 0 <= j < |w.queues[t]|
        ensures w.queues[t][j] in m && w.queues[t][j] in r.items && m[w.queues[t][j]] == r.items[w.queues[t][j]]
      {
        assert Linked(r.items, w.queues[t], j);
        assert Queued(w, t, w.queues[t][j]);
        assert Queued(w, s, q[i]);
        assert i > 0 ==> Queued(w, s, q[i - 1]);
        assert i + 1 < |q| ==> Queued(w, s, q[i + 1]);
      }
      OtherChain(r.items, m, w.queues[t]);
    }
  }

  function Cut(w: Waits, s: int, i: nat): Waits
    requires s in w.queues && i < |w.queues[s]|
  {
    w.(queues := w.queues[s := w.queues[s][..i] + w.queues[s][i + 1..]])
  }

  lemma CutQueued(w: Waits, s: int, i: nat)
    requires Good(w) && s in w.queues && i < |w.queues[s]|
    ensures forall t, x :: Queued(Cut(w, s, i), t, x) <==> Queued(w, t, x) && x != w.queues[s][i]
  {
    var q := w.queues[s];
    OnceOnly(w, s, i);
    assert Queued(w, s, q[i]);
    forall t, x ensures Queued(Cut(w, s, i), t, x) <==> Queued(w, t, x) && x != q[i] {
      if Queued(w, s, x) && x != q[i] && t == s {
        var j :| 0 <= j < |q| && q[j] == x;
        assert (q[..i] + q[i + 1..])[if j < i then j else j - 1] == x;
      }
      if Queued(Cut(w, s, i), t, x) {
        if t == s {
          var c := q[..i] + q[i + 1..];
          var j :| 0 <= j < |c| && c[j] == x;
          assert q[if j < i then j else j + 1] == x;
        } else {
          assert Queued(w, t, x);
        }
      }
    }
  }

  lemma UnlinkEnds(r: Records, w: Waits, s: int, i: nat)
    requires s in w.queues && Distinct(w.queues[s]) && i < |w.queues[s]| && EndsOk(r, w, s)
    requires Chain(r.items, w.queues[s]) && w.queues[s][i] in r.items
    requires forall j :: 0 <= j < |w.queues[s]| ==> w.queues[s][j] > 0
    ensures EndsOk(Unlink(r, s, w.queues[s][i]), Cut(w, s, i), s)
  {
    assert Linked(r.items, w.queues[s], i);
  }

  lemma UnlinkChains(r: Records, w: Waits, s: int, i: nat)
    requires Good(w) && Chains(r, w) && s in w.queues && i < |w.queues[s]| && w.queues[s][i] in r.items
    requires s in r.heads && s in r.tails
    ensures Chains(Unlink(r, s, w.queues[s][i]), Cut(w, s, i))
  {
    GoodQueue(w, s);
    UnlinkChain(r.items, w.queues[s], i);
    UnlinkLists(r, w, s, i);
    assert EndsOk(r, w, s);
    UnlinkEnds(r, w, s, i);
    var a, v := Unlink(r, s, w.queues[s][i]), Cut(w, s, i);
    hide Good, Chain;
    forall t | t in v.queues ensures Chain(a.items, v.queues[t]) && EndsOk(a, v, t) {
      assert EndsOk(r, w, t);
    }
  }

  lemma UnlinkShows(r: Records, w: Waits, s: int, i: nat)
    requires Shows(r, w) && s in w.queues && i < |w.queues[s]|
    ensures w.queues[s][i] in r.items
    ensures Shows(Unlink(r, s, w.queues[s][i]), Cut(w, s, i))
  {
    assert Linked(r.items, w.queues[s], i) && EndsOk(r, w, s);
    hide Good, Chains, Items;
    CutGood(w, s, i);
    UnlinkChains(r, w, s, i);
    UnlinkItems(r, w, s, i);
  }

  lemma UnlinkItems(r: Records, w: Waits, s: int, i: nat)
    requires Good(w) && Items(r, w) && Chains(r, w) && s in w.queues && i < |w.queues[s]| && w.queues[s][i] in r.items
    requires s in r.heads && s in r.tails
    ensures Items(Unlink(r, s, w.queues[s][i]), Cut(w, s, i))
  {
    var q := w.queues[s];
    var a, v := Unlink(r, s, q[i]), Cut(w, s, i);
    CutQueued(w, s, i);
    forall x | x in a.items ensures x > 0 && ItemOk(a, v, x) {
      assert x in r.items && ItemOk(r, w, x);
    }
  }

  // ----- tasks and servers come and go

  function WithTask(r: Records, p: int): Records {
    r.(items := r.items[p := Item(0, 0, false)], waitingOn := r.waitingOn[p := 0])
  }

  function WithoutTask(r: Records, p: int): Records {
    r.(items := r.items - {p}, waitingOn := r.waitingOn - {p})
  }

  function WithServer(r: Records, s: int): Records {
    r.(heads := r.heads[s := 0], tails := r.tails[s := 0])
  }

  function WithoutServer(r: Records, s: int): Records {
    r.(heads := r.heads - {s}, tails := r.tails - {s})
  }

  lemma WithTaskShows(r: Records, w: Waits, p: int)
    requires Shows(r, w) && p !in r.items && p > 0
    ensures Shows(WithTask(r, p), w)
  {
    var a := WithTask(r, p);
    forall s | s in w.queues ensures Chain(a.items, w.queues[s]) && EndsOk(a, w, s) {
      assert EndsOk(r, w, s);
      forall i | 0 <= i < |w.queues[s]| ensures Linked(a.items, w.queues[s], i) {
        assert Linked(r.items, w.queues[s], i);
        assert Queued(w, s, w.queues[s][i]);
      }
    }
    forall x | x in a.items ensures x > 0 && ItemOk(a, w, x) {
      assert x != p ==> ItemOk(r, w, x);
    }
  }

  lemma WithoutTaskShows(r: Records, w: Waits, p: int)
    requires Shows(r, w) && forall s :: !Queued(w, s, p)
    ensures Shows(WithoutTask(r, p), w)
  {
    var a := WithoutTask(r, p);
    forall s | s in w.queues ensures Chain(a.items, w.queues[s]) && EndsOk(a, w, s) {
      assert EndsOk(r, w, s);
      forall i | 0 <= i < |w.queues[s]| ensures Linked(a.items, w.queues[s], i) {
        assert Linked(r.items, w.queues[s], i);
        assert Queued(w, s, w.queues[s][i]);
      }
    }
    forall x | x in a.items ensures x > 0 && ItemOk(a, w, x) {
      assert ItemOk(r, w, x);
    }
  }

  lemma WithServerShows(r: Records, w: Waits, s: int)
    requires Shows(r, w) && s !in w.queues && s != 0
    ensures Shows(WithServer(r, s), w.(queues := w.queues[s := []]))
  {
    var a, v := WithServer(r, s), w.(queues := w.queues[s := []]);
    assert forall t, p :: Queued(v, t, p) <==> Queued(w, t, p);
    forall t, i, j | t in v.queues && 0 <= i < j < |v.queues[t]| ensures Older(v, t, i, j) {
      assert Older(w, t, i, j);
    }
    forall t | t in v.queues ensures Chain(a.items, v.queues[t]) && EndsOk(a, v, t) {
      assert t != s ==> EndsOk(r, w, t);
    }
    forall x | x in a.items ensures x > 0 && ItemOk(a, v, x) {
      assert ItemOk(r, w, x);
    }
  }

  lemma WithoutServerShows(r: Records, w: Waits, s: int)
    requires Shows(r, w) && s in w.queues && w.queues[s] == []
    ensures Shows(WithoutServer(r, s), w.(queues := w.queues - {s}))
  {
    var a, v := WithoutServer(r, s), w.(queues := w.queues - {s});
    assert forall t, p :: Queued(v, t, p) <==> Queued(w, t, p);
    forall t, i, j | t in v.queues && 0 <= i < j < |v.queues[t]| ensures Older(v, t, i, j) {
      assert Older(w, t, i, j);
    }
    forall t | t in v.queues ensures Chain(a.items, v.queues[t]) && EndsOk(a, v, t) {
      assert EndsOk(r, w, t);
    }
    forall x | x in a.items ensures x > 0 && ItemOk(a, v, x) {
      assert ItemOk(r, w, x);
    }
  }

  // ----- the kernel's operations

  class WaitLists {
    var items: map<int, Item>
    var waitingOn: map<int, int>
    var heads: map<int, int>
    var tails: map<int, int>
    ghost var w: Waits

    ghost function R(): Records
      reads this
    {
      Records(items, waitingOn, heads, tails)
    }

    ghost predicate Valid()
      reads this
    {
      Shows(R(), w)
    }

    constructor ()
      ensures Valid() && w == Waits(map[], map[], 0)
    {
      items, waitingOn, heads, tails := map[], map[], map[], map[];
      w := Waits(map[], map[], 0);
    }

    /** Append task `p` to the list of server `s`. */
    method Enqueue(s: int, p: int)
      requires Valid() && s in heads && p in items && !items[p].queued
      modifies this
      ensures Valid() && w == Join(old(w), s, p) && R() == LinkTail(old(R()), s, p)
    {
      hide Good, Items, Join;
      LinkTailShows(R(), w, s, p);
      ghost var q := w.queues[s];
      assert EndsOk(R(), w, s);
      assert q != [] ==> Linked(items, q, |q| - 1);
      var last := tails[s];
      items := items[p := Item(0, last, true)];
      if last != 0 {
        items := items[last := items[last].(next := p)];
      } else {
        heads := heads[s := p];
      }
      tails := tails[s := p];
      waitingOn := waitingOn[p := s];
      w := Join(w, s, p);
    }

    /** Take task `p`, wherever it stands in the list of `s`, out of it. */
    method Dequeue(s: int, p: int, ghost i: nat)
      requires Valid() && s in heads && i < |w.queues[s]| && p == w.queues[s][i]
      modifies this
      ensures Valid() && w == Cut(old(w), s, i) && p in old(items) && R() == Unlink(old(R()), s, p)
    {
      hide Good, Items, Cut;
      UnlinkShows(R(), w, s, i);
      ghost var q := w.queues[s];
      assert EndsOk(R(), w, s) && Linked(items, q, i);
      assert i > 0 ==> Linked(items, q, i - 1);
      assert i + 1 < |q| ==> Linked(items, q, i + 1);
      var it := items[p];
      if it.prev != 0 {
        items := items[it.prev := items[it.prev].(next := it.next)];
      } else {
        heads := heads[s := it.next];
      }
      if it.next != 0 {
        items := items[it.next := items[it.next].(prev := it.prev)];
      } else {
        tails := tails[s := it.prev];
      }
      items := items[p := Item(0, 0, false)];
      waitingOn := waitingOn[p := 0];
      w := Cut(w, s, i);
    }

    /** `proc_ipc_cancel_wait`: afterwards the task is on no list. */
    method CancelWait(p: int)
      requires Valid() && p in items
      modifies this
      ensures Valid() && items.Keys == old(items.Keys) && p in waitingOn && waitingOn[p] == 0
      ensures forall s :: !Queued(w, s, p)
      ensures w == if old(waitingOn[p]) in old(w).queues then Leave(old(w), old(waitingOn[p]), p) else old(w)
    {
      assert ItemOk(R(), w, p);
      var s := waitingOn[p];
      if s == 0 {
        return;
      }
      ghost var q := w.queues[s];
      ghost var i :| 0 <= i < |q| && q[i] == p;
      LeaveGood(w, s, p);
      OnceOnly(w, s, i);
      WithoutIndex(q, p, i);
      CutQueued(w, s, i);
      UnlinkKeys(R(), s, p);
      Dequeue(s, p, i);
    }

    /** `proc_ipc_wait` and its siblings, past the recheck: the client joins the queue of `s` once. */
    method Park(s: int, p: int)
      requires Valid() && s in heads && p in items
      modifies this
      ensures Valid() && p in waitingOn && waitingOn[p] == s && Queued(w, s, p)
      ensures old(waitingOn[p]) == s ==> w == old(w)
      ensures old(waitingOn[p]) != s ==> w.queues[s] == old(w).queues[s] + [p]
    {
      assert ItemOk(R(), w, p);
      ghost var w0 := w;
      if waitingOn[p] != 0 && waitingOn[p] != s {
        CancelWait(p);
        assert ItemOk(R(), w, p);
      }
      if !items[p].queued {
        LinkKeys(R(), s, p);
        Enqueue(s, p);
        assert w.queues[s][|w.queues[s]| - 1] == p;
      }
    }

    /** `ipc_waitq_pop` and `ipc_wait_item_clear_server`: the longest-waiting task, or 0. */
    method PopHead(s: int) returns (p: int)
      requires Valid() && s in heads
      modifies this
      ensures Valid() && heads.Keys == old(heads.Keys) && items.Keys == old(items.Keys)
      ensures p == At(old(w).queues[s], 0)
      ensures if p == 0 then w == old(w) else old(w).queues[s] != [] && w == Pop(old(w), s)
      ensures p != 0 ==> p in waitingOn && waitingOn[p] == 0 && forall t :: !Queued(w, t, p)
    {
      assert EndsOk(R(), w, s);
      p := heads[s];
      if p == 0 {
        GoodQueue(w, s);
        return;
      }
      ghost var q := w.queues[s];
      PopGood(w, s);
      assert q[1..] == q[..0] + q[0 + 1..];
      assert Linked(items, q, 0);
      UnlinkKeys(R(), s, p);
      Dequeue(s, p, 0);
    }

    /** `proc_ipc_wakeup`: `stale` are the tasks it finds already running or re-born. */
    method Wakeup(s: int, room: nat, stale: set<int>)
      requires Valid() && s in heads
      modifies this
      ensures Valid() && w == WakeSome(old(w), s, if room > WAKE_BATCH_LIMIT then WAKE_BATCH_LIMIT else room, stale)
    {
      var budget: nat := if room > WAKE_BATCH_LIMIT then WAKE_BATCH_LIMIT else room;
      ghost var goal := WakeSome(w, s, budget, stale);
      var done := false;
      while budget > 0 && !done
        invariant Valid() && s in heads && s in w.queues
        invariant done ==> w.queues[s] == []
        invariant goal == WakeSome(w, s, budget, stale)
        decreases !done, |w.queues[s]|
      {
        GoodQueue(w, s);
        var p := PopHead(s);
        if p == 0 {
          done := true;
        } else if p !in stale {
          budget := budget - 1;
        }
      }
    }

    /** `proc_ipc_wakeup_all`, when the server goes away: nobody waits on it any more. */
    method WakeAll(s: int)
      requires Valid() && s in heads
      modifies this
      ensures Valid() && w == old(w).(queues := old(w).queues[s := []])
      ensures forall p :: p in waitingOn ==> waitingOn[p] != s
    {
      ghost var w0 := w;
      var p := 1;
      assert w.queues[s := w.queues[s]] == w.queues;
      while p != 0
        invariant Valid() && s in heads && s in w.queues
        invariant w == w0.(queues := w0.queues[s := w.queues[s]])
        invariant p == 0 ==> w.queues[s] == []
        decreases p != 0, |w.queues[s]|
      {
        GoodQueue(w, s);
        p := PopHead(s);
      }
      forall x | x in waitingOn ensures waitingOn[x] != s {
        assert ItemOk(R(), w, x);
      }
    }

    /** A task is created with its item off every list. */
    method NewTask(p: int)
      requires Valid() && p !in items && p > 0
      modifies this
      ensures Valid() && w == old(w) && R() == WithTask(old(R()), p)
    {
      WithTaskShows(R(), w, p);
      items := items[p := Item(0, 0, false)];
      waitingOn := waitingOn[p := 0];
    }

    /** A terminated task leaves whatever list it was on, so its memory may be reused. */
    method Terminate(p: int)
      requires Valid() && p in items
      modifies this
      ensures Valid() && items.Keys == old(items.Keys) - {p}
      ensures forall s :: !Queued(w, s, p)
    {
      CancelWait(p);
      WithoutTaskShows(R(), w, p);
      items := items - {p};
      waitingOn := waitingOn - {p};
    }

    /** A server starts with an empty list. */
    method NewServer(s: int)
      requires Valid() && s !in heads && s != 0
      modifies this
      ensures Valid() && w == old(w).(queues := old(w).queues[s := []]) && R() == WithServer(old(R()), s)
    {
      WithServerShows(R(), w, s);
      heads, tails := heads[s := 0], tails[s := 0];
      w := w.(queues := w.queues[s := []]);
    }

    /** A server goes: its waiters are woken first. */
    method DropServer(s: int)
      requires Valid() && s in heads
      modifies this
      ensures Valid() && w == old(w).(queues := old(w).queues - {s}) && s !in heads
      ensures forall p :: p in waitingOn ==> waitingOn[p] != s
    {
      ghost var before := w;
      WakeAll(s);
      WithoutServerShows(R(), w, s);
      heads, tails := heads - {s}, tails - {s};
      w := w.(queues := w.queues - {s});
      assert w.queues == before.queues - {s};
    }
  }

  lemma UnlinkKeys(r: Records, s: int, p: int)
    requires p in r.items && s in r.heads && s in r.tails
    ensures Unlink(r, s, p).items.Keys == r.items.Keys && Unlink(r, s, p).heads.Keys == r.heads.Keys
    ensures Unlink(r, s, p).waitingOn == r.waitingOn[p := 0]
  {
  }

  lemma LinkKeys(r: Records, s: int, p: int)
    requires p in r.items && s in r.heads && s in r.tails
    ensures LinkTail(r, s, p).items.Keys == r.items.Keys && LinkTail(r, s, p).heads.Keys == r.heads.Keys
    ensures LinkTail(r, s, p).waitingOn == r.waitingOn[p := s]
  {
  }
}
