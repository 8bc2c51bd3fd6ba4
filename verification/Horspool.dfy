/** The kernel's `strstr`: Boyer-Moore-Horspool search, proved equal to the naive one. */
module Horspool {
  import opened Options

  type Byte = x: int | 0 <= x < 256

  /** A C string's bytes, terminator excluded. */
  type Text = seq<Byte>

  predicate MatchAt(h: Text, n: Text, k: nat) {
    k + |n| <= |h| && h[k..k + |n|] == n
  }

  /** Naive search from position `k` on. */
  function Naive(h: Text, n: Text, k: nat): (r: Option<nat>)
    ensures r.Some? ==> r.value >= k && MatchAt(h, n, r.value)
    ensures forall j: nat :: k <= j && (r.None? || j < r.value) ==> !MatchAt(h, n, j)
    decreases |h| - k
  {
    if k + |n| > |h| then None
    else if MatchAt(h, n, k) then Some(k)
    else Naive(h, n, k + 1)
  }

  /** The shift for byte `c`: its distance from the end of the needle, last place not counted. */
  function Shift(n: Text, c: Byte, m: nat): (d: nat)
    requires 0 < m <= |n|
    ensures 1 <= d <= |n|
    decreases m
  {
    if m == 1 then |n|
    else if n[m - 2] == c then |n| - 1 - (m - 2)
    else Shift(n, c, m - 1)
  }

  /** Between the place a match could next line `c` up and here, the needle does not hold `c`. */
  lemma {:induction false} ShiftSkips(n: Text, c: Byte, m: nat, i: nat)
    requires 0 < m <= |n| && |n| - 1 - Shift(n, c, m) < i < m - 1
    ensures n[i] != c
    decreases m
  {
    if m > 1 && n[m - 2] != c && i < m - 2 {
      ShiftSkips(n, c, m - 1, i);
    }
  }

  /** No match starts strictly between `k` and the shifted position. */
  lemma NoMatchSkipped(h: Text, n: Text, k: nat, j: nat)
    requires n != [] && k + |n| <= |h|
    requires k < j < k + Shift(n, h[k + |n| - 1], |n|)
    ensures !MatchAt(h, n, j)
  {
    if MatchAt(h, n, j) {
      var i := k + |n| - 1 - j;
      assert h[j..j + |n|][i] == h[k + |n| - 1];
      ShiftSkips(n, h[k + |n| - 1], |n|, i);
    }
  }

  lemma {:induction false} NaiveSkip(h: Text, n: Text, k: nat, j: nat)
    requires k <= j && forall i :: k <= i < j ==> !MatchAt(h, n, i)
    ensures Naive(h, n, k) == Naive(h, n, j)
    decreases j - k
  {
    if k < j {
      NaiveSkip(h, n, k + 1, j);
      if k + |n| > |h| {
        assert Naive(h, n, j) == None;
      }
    }
  }

  /** Fill the bad-character table. */
  method ShiftTable(n: Text) returns (table: array<int>)
    requires n != []
    ensures fresh(table) && table.Length == 256
    ensures forall c :: 0 <= c < 256 ==> table[c] == Shift(n, c, |n|)
  {
    table := new int[256];
    var i := 0;
    while i < 256
      invariant 0 <= i <= 256 && forall c :: 0 <= c < i ==> table[c] == |n|
    {
      table[i] := |n|;
      i := i + 1;
    }
    i := 0;
    while i < |n| - 1
      invariant 0 <= i <= |n| - 1
      invariant forall c :: 0 <= c < 256 ==> table[c] == Shift(n, c, i + 1)
    {
      table[n[i]] := |n| - 1 - i;
      i := i + 1;
    }
  }

  /** A mismatch at `k` lets the search move on by the shift of the byte under the needle's end. */
  lemma ShiftIsSafe(h: Text, n: Text, k: nat)
    requires n != [] && k + |n| <= |h| && !MatchAt(h, n, k)
    ensures Naive(h, n, k) == Naive(h, n, k + Shift(n, h[k + |n| - 1], |n|))
  {
    var d := Shift(n, h[k + |n| - 1], |n|);
    forall j | k <= j < k + d ensures !MatchAt(h, n, j) {
      if j > k {
        NoMatchSkipped(h, n, k, j);
      }
    }
    NaiveSkip(h, n, k, k + d);
  }

  /** Compare right to left. */
  method Compare(h: Text, n: Text, k: nat) returns (equal: bool)
    requires n != [] && k + |n| <= |h|
    ensures equal == MatchAt(h, n, k)
  {
    var i := |n| - 1;
    while n[i] == h[k + i]
      invariant 0 <= i < |n| && forall j :: i < j < |n| ==> n[j] == h[k + j]
      decreases i
    {
      if i == 0 {
        assert h[k..k + |n|] == n;
        return true;
      }
      i := i - 1;
    }
    assert h[k..k + |n|][i] != n[i];
    return false;
  }

  /** The first occurrence, or none exactly when there is none; every index stays in bounds and every
      shift moves on by at least one. */
  method Search(h: Text, n: Text) returns (r: Option<nat>)
    ensures r == Naive(h, n, 0)
  {
    if n == [] {
      assert MatchAt(h, n, 0);
      return Some(0);
    }
    var table := ShiftTable(n);
    var start: nat := 0;
    var left: int := |h|;
    while left >= |n|
      invariant start + left == |h| && table.Length == 256
      invariant Naive(h, n, start) == Naive(h, n, 0)
      invariant forall c :: 0 <= c < 256 ==> table[c] == Shift(n, c, |n|)
      decreases left
    {
      var equal := Compare(h, n, start);
      if equal {
        return Some(start);
      }
      ShiftIsSafe(h, n, start);
      var d := table[h[start + |n| - 1]];
      left := left - d;
      start := start + d;
    }
    return None;
  }
}
