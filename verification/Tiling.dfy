/** Runs that tile an address range, and the simple map of addresses to owners they stand for.
    The kernel heap, the DMA block and the shared-memory slab are all kept this way. */
module Tiling {
  import opened Options

  datatype Run<T> = Run(start: nat, size: nat, tag: T)

  function End<T>(r: Run<T>): nat {
    r.start + r.size
  }

  /** `rs` covers [lo, hi) from left to right without gap or overlap. */
  predicate Tiles<T>(rs: seq<Run<T>>, lo: nat, hi: nat)
    decreases |rs|
  {
    if rs == [] then lo == hi
    else rs[0].start == lo && rs[0].size > 0 && Tiles(rs[1..], End(rs[0]), hi)
  }

  function Total<T>(rs: seq<Run<T>>): nat
    decreases |rs|
  {
    if rs == [] then 0 else rs[0].size + Total(rs[1..])
  }

  /** Who owns address `a`. */
  function OwnerAt<T>(rs: seq<Run<T>>, a: int): Option<T>
    decreases |rs|
  {
    if rs == [] then None
    else if rs[0].start <= a < End(rs[0]) then Some(rs[0].tag)
    else OwnerAt(rs[1..], a)
  }

  lemma {:induction false} TilesConcat<T>(a: seq<Run<T>>, b: seq<Run<T>>, lo: nat, hi: nat)
    ensures Tiles(a + b, lo, hi) <==> Tiles(a, lo, lo + Total(a)) && Tiles(b, lo + Total(a), hi)
    decreases |a|
  {
    if a == [] {
      assert a + b == b;
    } else {
      assert (a + b)[1..] == a[1..] + b;
      TilesConcat(a[1..], b, End(a[0]), hi);
    }
  }

  lemma {:induction false} TotalConcat<T>(a: seq<Run<T>>, b: seq<Run<T>>)
    ensures Total(a + b) == Total(a) + Total(b)
    decreases |a|
  {
    if a == [] {
      assert a + b == b;
    } else {
      assert (a + b)[1..] == a[1..] + b;
      TotalConcat(a[1..], b);
    }
  }

  lemma {:induction false} TilesTotal<T>(rs: seq<Run<T>>, lo: nat, hi: nat)
    requires Tiles(rs, lo, hi)
    ensures hi == lo + Total(rs)
    decreases |rs|
  {
    if rs != [] {
      TilesTotal(rs[1..], End(rs[0]), hi);
    }
  }

  lemma {:induction false} OwnerConcat<T>(a: seq<Run<T>>, b: seq<Run<T>>, x: int)
    ensures OwnerAt(a + b, x) == if OwnerAt(a, x).Some? then OwnerAt(a, x) else OwnerAt(b, x)
    decreases |a|
  {
    if a == [] {
      assert a + b == b;
    } else {
      assert (a + b)[1..] == a[1..] + b;
      OwnerConcat(a[1..], b, x);
    }
  }

  /** Exactly the addresses of [lo, hi) have an owner. */
  lemma {:induction false} OwnerInside<T>(rs: seq<Run<T>>, lo: nat, hi: nat, x: int)
    requires Tiles(rs, lo, hi)
    ensures OwnerAt(rs, x).Some? <==> lo <= x < hi
    ensures lo <= hi
    decreases |rs|
  {
    if rs != [] {
      OwnerInside(rs[1..], End(rs[0]), hi, x);
    }
  }

  lemma TilesStep<T>(rs: seq<Run<T>>, lo: nat, hi: nat)
    requires rs != []
    ensures Tiles(rs, lo, hi) <==> rs[0].start == lo && rs[0].size > 0 && Tiles(rs[1..], End(rs[0]), hi)
  {
  }

  lemma NoTotal<T>(rs: seq<Run<T>>)
    ensures Total(rs[..0]) == 0
  {
  }

  /** The run at `i` cuts the range in three. */
  lemma SplitAt<T>(rs: seq<Run<T>>, lo: nat, hi: nat, i: nat)
    requires Tiles(rs, lo, hi) && i < |rs|
    ensures rs == rs[..i] + ([rs[i]] + rs[i + 1..])
    ensures rs[i].start == lo + Total(rs[..i]) && rs[i].size > 0
    ensures Tiles(rs[..i], lo, rs[i].start) && Tiles(rs[i + 1..], End(rs[i]), hi)
    ensures lo <= rs[i].start && End(rs[i]) <= hi
  {
    hide Tiles, Total;
    var tail := [rs[i]] + rs[i + 1..];
    assert rs == rs[..i] + tail;
    TilesConcat(rs[..i], tail, lo, hi);
    assert tail[0] == rs[i] && tail[1..] == rs[i + 1..];
    TilesStep(tail, lo + Total(rs[..i]), hi);
    OwnerInside(rs[i + 1..], End(rs[i]), hi, 0);
  }

  lemma RunBounds<T>(rs: seq<Run<T>>, lo: nat, hi: nat, i: nat)
    requires Tiles(rs, lo, hi) && i < |rs|
    ensures lo <= rs[i].start && End(rs[i]) <= hi && rs[i].size > 0
    ensures i == 0 ==> rs[i].start == lo
  {
    SplitAt(rs, lo, hi, i);
    NoTotal(rs);
  }

  lemma RunNext<T>(rs: seq<Run<T>>, lo: nat, hi: nat, i: nat)
    requires Tiles(rs, lo, hi) && i + 1 < |rs|
    ensures End(rs[i]) == rs[i + 1].start
  {
    hide Tiles;
    SplitAt(rs, lo, hi, i);
    RunBounds(rs[i + 1..], End(rs[i]), hi, 0);
  }

  /** Distinct runs are disjoint and in order. */
  lemma RunsOrdered<T>(rs: seq<Run<T>>, lo: nat, hi: nat, i: nat, j: nat)
    requires Tiles(rs, lo, hi) && i < j < |rs|
    ensures End(rs[i]) <= rs[j].start
  {
    SplitAt(rs, lo, hi, i);
    SplitAt(rs[i + 1..], End(rs[i]), hi, j - i - 1);
    assert rs[i + 1..][j - i - 1] == rs[j];
  }

  // ----- replacing runs in the middle

  predicate Spliced<T(==)>(pre: seq<Run<T>>, mid: seq<Run<T>>, mid': seq<Run<T>>, post: seq<Run<T>>, a: nat, b: nat,
      x: int) {
    OwnerAt(pre + mid' + post, x) == if a <= x < b then OwnerAt(mid', x) else OwnerAt(pre + mid + post, x)
  }

  lemma SpliceOwner<T>(pre: seq<Run<T>>, mid: seq<Run<T>>, mid': seq<Run<T>>, post: seq<Run<T>>,
                       lo: nat, hi: nat, a: nat, b: nat, x: int)
    requires Tiles(pre, lo, a) && Tiles(mid, a, b) && Tiles(mid', a, b) && Tiles(post, b, hi)
    ensures Spliced(pre, mid, mid', post, a, b, x)
  {
    hide Tiles, OwnerAt;
    OwnerConcat(pre, mid, x);
    OwnerConcat(pre + mid, post, x);
    OwnerConcat(pre, mid', x);
    OwnerConcat(pre + mid', post, x);
    OwnerInside(pre, lo, a, x);
    OwnerInside(mid, a, b, x);
    OwnerInside(mid', a, b, x);
    OwnerInside(post, b, hi, x);
  }

  /** Swap `mid` for `mid'` over the same range: still a tiling, and owners change only there. */
  lemma Splice<T>(pre: seq<Run<T>>, mid: seq<Run<T>>, mid': seq<Run<T>>, post: seq<Run<T>>, lo: nat, hi: nat, a: nat,
      b: nat)
    requires Tiles(pre, lo, a) && Tiles(mid, a, b) && Tiles(mid', a, b) && Tiles(post, b, hi)
    ensures Tiles(pre + mid' + post, lo, hi)
    ensures forall x :: Spliced(pre, mid, mid', post, a, b, x)
  {
    hide Tiles, OwnerAt, Total, Spliced;
    TilesTotal(pre, lo, a);
    TilesTotal(mid', a, b);
    TilesConcat(pre, mid', lo, b);
    TotalConcat(pre, mid');
    TilesConcat(pre + mid', post, lo, hi);
    forall x ensures Spliced(pre, mid, mid', post, a, b, x) {
      SpliceOwner(pre, mid, mid', post, lo, hi, a, b, x);
    }
  }

  lemma OwnerOfOne<T>(r: Run<T>, x: int)
    ensures OwnerAt([r], x) == if r.start <= x < End(r) then Some(r.tag) else None
  {
    assert [r][1..] == [];
  }

  lemma TilesTwo<T>(a: Run<T>, b: Run<T>)
    requires a.size > 0 && b.size > 0 && b.start == End(a)
    ensures Tiles([a, b], a.start, End(b))
  {
    assert [a, b][1..] == [b] && [b][1..] == [];
  }

  /** Cut run `i` after `n` units and tag the halves. */
  function Cut<T>(rs: seq<Run<T>>, i: nat, n: nat, t1: T, t2: T): seq<Run<T>>
    requires i < |rs| && 0 < n < rs[i].size
  {
    rs[..i] + [Run(rs[i].start, n, t1), Run(rs[i].start + n, rs[i].size - n, t2)] + rs[i + 1..]
  }

  lemma CutOwners<T>(rs: seq<Run<T>>, lo: nat, hi: nat, i: nat, n: nat, t1: T, t2: T)
    requires Tiles(rs, lo, hi) && i < |rs| && 0 < n < rs[i].size
    ensures Tiles(Cut(rs, i, n, t1, t2), lo, hi)
    ensures forall x :: OwnerAt(Cut(rs, i, n, t1, t2), x) == (
              if rs[i].start <= x < rs[i].start + n then Some(t1)
              else if rs[i].start <= x < End(rs[i]) then Some(t2)
              else OwnerAt(rs, x))
  {
    SplitAt(rs, lo, hi, i);
    var a, b := Run(rs[i].start, n, t1), Run(rs[i].start + n, rs[i].size - n, t2);
    assert rs == rs[..i] + [rs[i]] + rs[i + 1..];
    assert [a, b][1..] == [b];
    assert [rs[i]][1..] == [];
    TilesTwo(a, b);
    Splice(rs[..i], [rs[i]], [a, b], rs[i + 1..], lo, hi, rs[i].start, End(rs[i]));
    var r := Cut(rs, i, n, t1, t2);
    assert r == rs[..i] + [a, b] + rs[i + 1..];
    forall x ensures OwnerAt(r, x) == (
              if rs[i].start <= x < rs[i].start + n then Some(t1)
              else if rs[i].start <= x < End(rs[i]) then Some(t2)
              else OwnerAt(rs, x))
    {
      assert Spliced(rs[..i], [rs[i]], [a, b], rs[i + 1..], rs[i].start, End(rs[i]), x);
      OwnerOfOne(b, x);
    }
  }

  /** Make one run of `i` and `i + 1`. */
  function Join<T>(rs: seq<Run<T>>, i: nat, t: T): seq<Run<T>>
    requires i + 1 < |rs|
  {
    rs[..i] + [Run(rs[i].start, rs[i].size + rs[i + 1].size, t)] + rs[i + 2..]
  }

  lemma SplitAtPair<T>(rs: seq<Run<T>>, lo: nat, hi: nat, i: nat)
    requires Tiles(rs, lo, hi) && i + 1 < |rs|
    ensures rs == rs[..i] + [rs[i], rs[i + 1]] + rs[i + 2..]
    ensures End(rs[i]) == rs[i + 1].start && rs[i].size > 0 && rs[i + 1].size > 0
    ensures Tiles(rs[..i], lo, rs[i].start) && Tiles(rs[i + 2..], End(rs[i + 1]), hi)
    ensures Tiles([rs[i], rs[i + 1]], rs[i].start, End(rs[i + 1]))
  {
    hide Tiles, Total;
    SplitAt(rs, lo, hi, i);
    var rest := rs[i + 1..];
    SplitAt(rest, End(rs[i]), hi, 0);
    assert rest[0] == rs[i + 1] && rest[0 + 1..] == rs[i + 2..] && Total(rest[..0]) == 0 by { NoTotal(rest); }
    assert rs == rs[..i] + [rs[i], rs[i + 1]] + rs[i + 2..];
    TilesTwo(rs[i], rs[i + 1]);
  }

  lemma JoinOwners<T>(rs: seq<Run<T>>, lo: nat, hi: nat, i: nat, t: T)
    requires Tiles(rs, lo, hi) && i + 1 < |rs|
    ensures Tiles(Join(rs, i, t), lo, hi)
    ensures End(rs[i]) == rs[i + 1].start
    ensures forall x :: OwnerAt(Join(rs, i, t), x) == (
              if rs[i].start <= x < End(rs[i + 1]) then Some(t) else OwnerAt(rs, x))
  {
    SplitAtPair(rs, lo, hi, i);
    var m := Run(rs[i].start, rs[i].size + rs[i + 1].size, t);
    assert Tiles([m], m.start, End(m)) by { assert [m][1..] == []; }
    hide Tiles, OwnerAt;
    Splice(rs[..i], [rs[i], rs[i + 1]], [m], rs[i + 2..], lo, hi, rs[i].start, End(rs[i + 1]));
    forall x ensures OwnerAt(Join(rs, i, t), x) == (
              if rs[i].start <= x < End(rs[i + 1]) then Some(t) else OwnerAt(rs, x))
    {
      assert Spliced(rs[..i], [rs[i], rs[i + 1]], [m], rs[i + 2..], rs[i].start, End(rs[i + 1]), x);
      OwnerOfOne(m, x);
    }
  }

  function Retag<T>(rs: seq<Run<T>>, i: nat, t: T): seq<Run<T>>
    requires i < |rs|
  {
    rs[i := rs[i].(tag := t)]
  }

  lemma RetagOwners<T>(rs: seq<Run<T>>, lo: nat, hi: nat, i: nat, t: T)
    requires Tiles(rs, lo, hi) && i < |rs|
    ensures Tiles(Retag(rs, i, t), lo, hi)
    ensures forall x :: OwnerAt(Retag(rs, i, t), x) == (
              if rs[i].start <= x < End(rs[i]) then Some(t) else OwnerAt(rs, x))
  {
    SplitAt(rs, lo, hi, i);
    var m := rs[i].(tag := t);
    assert rs == rs[..i] + [rs[i]] + rs[i + 1..];
    assert Retag(rs, i, t) == rs[..i] + [m] + rs[i + 1..];
    assert [rs[i]][1..] == [] && [m][1..] == [];
    Splice(rs[..i], [rs[i]], [m], rs[i + 1..], lo, hi, rs[i].start, End(rs[i]));
    forall x ensures OwnerAt(Retag(rs, i, t), x) == (
              if rs[i].start <= x < End(rs[i]) then Some(t) else OwnerAt(rs, x))
    {
      assert Spliced(rs[..i], [rs[i]], [m], rs[i + 1..], rs[i].start, End(rs[i]), x);
      OwnerOfOne(m, x);
    }
  }

  lemma AppendTiles<T>(rs: seq<Run<T>>, lo: nat, hi: nat, r: Run<T>)
    requires Tiles(rs, lo, hi) && r.start == hi && r.size > 0
    ensures Tiles(rs + [r], lo, End(r))
    ensures forall x :: OwnerAt(rs + [r], x) == if hi <= x < End(r) then Some(r.tag) else OwnerAt(rs, x)
  {
    TilesTotal(rs, lo, hi);
    assert [r][1..] == [];
    TilesConcat(rs, [r], lo, End(r));
    forall x ensures OwnerAt(rs + [r], x) == if hi <= x < End(r) then Some(r.tag) else OwnerAt(rs, x) {
      OwnerConcat(rs, [r], x);
      OwnerInside(rs, lo, hi, x);
    }
  }

  lemma DropLastTiles<T>(rs: seq<Run<T>>, lo: nat, hi: nat)
    requires Tiles(rs, lo, hi) && rs != []
    ensures var n := |rs| - 1; Tiles(rs[..n], lo, rs[n].start) && End(rs[n]) == hi
    ensures forall x :: OwnerAt(rs[..|rs| - 1], x) == if rs[|rs| - 1].start <= x then None else OwnerAt(rs, x)
  {
    var n := |rs| - 1;
    SplitAt(rs, lo, hi, n);
    assert rs[n + 1..] == [];
    forall x ensures OwnerAt(rs[..n], x) == if rs[n].start <= x then None else OwnerAt(rs, x) {
      OwnerConcat(rs[..n], [rs[n]] + rs[n + 1..], x);
      OwnerInside(rs[..n], lo, rs[n].start, x);
      OwnerInside(rs, lo, hi, x);
    }
  }

  // ----- no two neighbours both spare

  predicate PairOk<T>(rs: seq<Run<T>>, spare: T -> bool, i: int)
    requires 0 <= i < |rs| - 1
  {
    !spare(rs[i].tag) || !spare(rs[i + 1].tag)
  }

  predicate Apart<T>(rs: seq<Run<T>>, spare: T -> bool) {
    forall i :: 0 <= i < |rs| - 1 ==> PairOk(rs, spare, i)
  }

  /** Replacing the runs [i, i + m) by `mid`: only the pairs inside and at the seams count. */
  lemma ApartSplice<T>(rs: seq<Run<T>>, spare: T -> bool, i: nat, m: nat, mid: seq<Run<T>>)
    requires Apart(rs, spare) && i + m <= |rs| && mid != [] && Apart(mid, spare)
    requires i > 0 ==> !spare(rs[i - 1].tag) || !spare(mid[0].tag)
    requires i + m < |rs| ==> !spare(mid[|mid| - 1].tag) || !spare(rs[i + m].tag)
    ensures Apart(rs[..i] + mid + rs[i + m..], spare)
  {
    var r := rs[..i] + mid + rs[i + m..];
    forall j | 0 <= j < |r| - 1 ensures PairOk(r, spare, j) {
      if j + 1 < i {
        assert PairOk(rs, spare, j);
      } else if i <= j && j + 1 < i + |mid| {
        assert PairOk(mid, spare, j - i);
      } else if j >= i + |mid| {
        assert PairOk(rs, spare, j - |mid| + m);
      }
    }
  }
}
