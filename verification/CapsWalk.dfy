/** The walk from a thread to its process: how long it can be, and that it need not end. */
module CapsWalk {
  import opened Options
  import opened Caps

  predicate Thread(w: World, pid: int) {
    Alive(w, pid) && !w.tasks[pid].main
  }

  /** The `k`-th father. */
  function At(w: World, pid: int, k: nat): int {
    if k == 0 then pid
    else
      var p := At(w, pid, k - 1);
      if p in w.tasks then w.tasks[p].father else p
  }

  lemma {:induction false} AtShift(w: World, pid: int, k: nat)
    requires pid in w.tasks
    ensures At(w, w.tasks[pid].father, k) == At(w, pid, k + 1)
  {
    if k > 0 {
      AtShift(w, pid, k - 1);
    }
  }

  predicate ThreadAt(w: World, pid: int, k: nat) {
    Thread(w, At(w, pid, k))
  }

  /** A walk runs out of steps exactly when every father so far is a live thread. */
  lemma {:induction false} EndlessExactly(w: World, pid: int, fuel: nat)
    ensures Walk(w, pid, fuel).Endless? <==> forall k :: 0 <= k <= fuel ==> ThreadAt(w, pid, k)
    decreases fuel
  {
    assert ThreadAt(w, pid, 0) <==> Thread(w, pid);
    if Thread(w, pid) && fuel > 0 {
      var f := w.tasks[pid].father;
      EndlessExactly(w, f, fuel - 1);
      forall k: nat ensures ThreadAt(w, f, k) <==> ThreadAt(w, pid, k + 1) {
        AtShift(w, pid, k);
      }
      hide ThreadAt;
      if Walk(w, f, fuel - 1).Endless? {
        forall k | 0 <= k <= fuel ensures ThreadAt(w, pid, k) {
          assert k > 0 ==> ThreadAt(w, f, k - 1);
        }
      }
    }
  }

  /** More values than there are to choose from: two are equal. */
  lemma {:induction false} Repeats(s: seq<int>, all: set<int>) returns (i: nat, j: nat)
    requires |s| > |all| && forall k :: 0 <= k < |s| ==> s[k] in all
    ensures i < j < |s| && s[i] == s[j]
    decreases |s|
  {
    var n := |s| - 1;
    if k :| 0 <= k < n && s[k] == s[n] {
      i, j := k, n;
    } else {
      assert |all - {s[n]}| == |all| - 1;
      i, j := Repeats(s[..n], all - {s[n]});
    }
  }

  lemma {:induction false} AtPeriod(w: World, pid: int, i: nat, j: nat, m: nat)
    requires At(w, pid, i) == At(w, pid, j)
    ensures At(w, pid, i + m) == At(w, pid, j + m)
  {
    if m > 0 {
      AtPeriod(w, pid, i, j, m - 1);
    }
  }

  lemma {:induction false} StillThread(w: World, pid: int, i: nat, j: nat, n: nat)
    requires i < j && At(w, pid, i) == At(w, pid, j) && forall k :: 0 <= k < j ==> ThreadAt(w, pid, k)
    ensures ThreadAt(w, pid, n)
    decreases n
  {
    if n >= j {
      AtPeriod(w, pid, i, j, n - j);
      StillThread(w, pid, i, j, n - j + i);
    }
  }

  /** A walk that has not ended after as many steps as there are tasks never ends. */
  lemma EndlessForever(w: World, pid: int, n: nat)
    requires Owner(w, pid).Endless?
    ensures Walk(w, pid, n).Endless?
  {
    var size := |w.tasks|;
    EndlessExactly(w, pid, size);
    var s := seq(size + 1, k requires 0 <= k => At(w, pid, k));
    forall k | 0 <= k < |s| ensures s[k] in w.tasks.Keys {
      assert ThreadAt(w, pid, k);
    }
    assert |w.tasks.Keys| == size;
    var i, j := Repeats(s, w.tasks.Keys);
    forall k | 0 <= k <= n ensures ThreadAt(w, pid, k) {
      StillThread(w, pid, i, j, k);
    }
    EndlessExactly(w, pid, n);
  }

  /** More steps change the answer of no walk that ends. */
  lemma {:induction false} FoundForever(w: World, pid: int, fuel: nat, n: nat)
    requires !Walk(w, pid, fuel).Endless? && n >= fuel
    ensures Walk(w, pid, n) == Walk(w, pid, fuel)
    decreases fuel
  {
    if Thread(w, pid) {
      FoundForever(w, w.tasks[pid].father, fuel - 1, n - 1);
    }
  }
}
