/** The heap as the kernel keeps it: headers in memory, linked by address, changed in place. */
module TrunkLinks {
  import opened Tiling
  import opened TrunkHeap

  /** Address 0 is the null pointer. */
  datatype Header = Header(next: nat, prev: nat, size: nat, used: bool, mem: nat)

  type Memory = map<nat, Header>

  function HeaderOf(bs: seq<Block>, i: nat): Header
    requires i < |bs| && BlocksOk(bs)
  {
    Header(StartAt(bs, i + 1), if i > 0 then bs[i - 1].start else 0, Payload(bs[i]), bs[i].tag, bs[i].start + HEADER)
  }

  predicate Shown(m: Memory, bs: seq<Block>, i: nat)
    requires i < |bs| && BlocksOk(bs)
  {
    bs[i].start in m && m[bs[i].start] == HeaderOf(bs, i)
  }

  /** The headers in `m` spell out exactly the blocks `bs`. */
  predicate Represents(m: Memory, bs: seq<Block>)
    requires BlocksOk(bs)
  {
    forall i :: 0 <= i < |bs| ==> Shown(m, bs, i)
  }

  predicate InHeap(lo: nat, hi: nat, p: nat) {
    lo != 0 && hi != 0 && p != 0 && lo <= p < hi
  }

  /** The structural check the kernel makes before trusting a block. */
  predicate BlockSane(m: Memory, lo: nat, hi: nat, prev: nat, b: nat)
  {
    && b != 0 && InHeap(lo, hi, b) && b % 8 == 0
    && b in m
    && m[b].mem == b + HEADER && m[b].mem <= hi
    && m[b].mem + m[b].size <= hi
    && m[b].prev == prev
    && (prev != 0 ==> prev in m && m[prev].next == b)
    && (m[b].next != 0 ==>
          && InHeap(lo, hi, m[b].next) && m[b].next % 8 == 0
          && m[b].next > b && m[b].next >= m[b].mem + m[b].size
          && m[b].next in m && m[m[b].next].prev == b)
  }

  lemma SaneAlways(m: Memory, bs: seq<Block>, base: nat, tail: nat, i: nat)
    requires 0 < base && Tiles(bs, base, tail) && BlocksOk(bs) && Represents(m, bs) && i < |bs|
    ensures BlockSane(m, bs[0].start, tail, if i > 0 then bs[i - 1].start else 0, bs[i].start)
  {
    hide Tiles, Aligned;
    RunBounds(bs, base, tail, 0);
    RunBounds(bs, base, tail, i);
    assert Shown(m, bs, i);
    WordAligned(bs[i].start);
    if i > 0 {
      RunBounds(bs, base, tail, i - 1);
      assert Shown(m, bs, i - 1);
    }
    if i + 1 < |bs| {
      RunNext(bs, base, tail, i);
      RunBounds(bs, base, tail, i + 1);
      WordAligned(bs[i + 1].start);
      assert Shown(m, bs, i + 1);
    }
  }

  lemma WordAligned(x: nat)
    requires Aligned(x)
    ensures x % 8 == 0
  {
  }

  // ----- in-place edits of the headers

  lemma StartsDiffer(bs: seq<Block>, base: nat, tail: nat)
    requires Tiles(bs, base, tail)
    ensures forall i, j :: 0 <= i < j < |bs| ==> bs[i].start < bs[j].start
  {
    forall i, j | 0 <= i < j < |bs| ensures bs[i].start < bs[j].start {
      RunsOrdered(bs, base, tail, i, j);
      RunBounds(bs, base, tail, i);
    }
  }

  lemma RetagShown(m: Memory, bs: seq<Block>, base: nat, tail: nat, i: nat, t: bool)
    requires Tiles(bs, base, tail) && BlocksOk(bs) && Represents(m, bs) && i < |bs|
    requires bs[i].start in m
    ensures BlocksOk(Retag(bs, i, t))
    ensures Represents(m[bs[i].start := m[bs[i].start].(used := t)], Retag(bs, i, t))
  {
    hide Tiles, Aligned;
    StartsDiffer(bs, base, tail);
    var r := Retag(bs, i, t);
    var m' := m[bs[i].start := m[bs[i].start].(used := t)];
    forall j | 0 <= j < |r| ensures Shown(m', r, j) {
      assert Shown(m, bs, j);
    }
  }

  /** `try_break`, header by header: `p` is the address of the new block. */
  function BreakMem(m: Memory, b: nat, n: nat): Memory
    requires b in m && m[b].size >= n + HEADER
  {
    var p := b + HEADER + n;
    var m1 := m[p := Header(m[b].next, b, m[b].size - n - HEADER, false, p + HEADER)];
    var m2 := m1[b := m[b].(size := n, next := p)];
    if m[b].next != 0 && m[b].next in m2 then m2[m[b].next := m2[m[b].next].(prev := p)] else m2
  }

  function Break(bs: seq<Block>, i: nat, n: nat): seq<Block>
    requires i < |bs|
  {
    if Splits(bs[i], n) then Cut(bs, i, HEADER + n, bs[i].tag, false) else bs
  }

  lemma BreakBlocksOk(bs: seq<Block>, i: nat, n: nat)
    requires BlocksOk(bs) && i < |bs| && Aligned(n)
    ensures BlocksOk(Break(bs, i, n))
  {
    hide Aligned;
    AlignedParts(bs[i].start, n);
    AlignedParts(bs[i].size, n);
  }

  lemma BreakAt(bs: seq<Block>, i: nat, n: nat)
    requires i < |bs| && Splits(bs[i], n)
    ensures var r := Break(bs, i, n); |r| == |bs| + 1
    ensures var r := Break(bs, i, n);
            && (forall j :: 0 <= j < i ==> r[j] == bs[j])
            && r[i] == Run(bs[i].start, HEADER + n, bs[i].tag)
            && r[i + 1] == Run(bs[i].start + (HEADER + n), bs[i].size - (HEADER + n), false)
            && (forall j :: i + 1 < j < |r| ==> r[j] == bs[j - 1])
  {
  }

  /** What each header becomes. */
  lemma BreakMemAt(m: Memory, b: nat, n: nat, q: nat)
    requires b in m && m[b].size >= n + HEADER && (m[b].next != 0 ==> m[b].next > b + HEADER + n)
    ensures var m' := BreakMem(m, b, n); var p := b + HEADER + n;
            && b in m' && m'[b] == m[b].(size := n, next := p)
            && p in m' && m'[p] == Header(m[b].next, b, m[b].size - n - HEADER, false, p + HEADER)
            && (q in m && q != b && q != p ==>
                  q in m' && m'[q] == if q == m[b].next && q != 0 then m[q].(prev := p) else m[q])
  {
  }

  lemma BreakShownLeft(m: Memory, bs: seq<Block>, base: nat, tail: nat, i: nat, n: nat, j: nat)
    requires 0 < base && Tiles(bs, base, tail) && BlocksOk(bs) && Represents(m, bs) && i < |bs|
    requires Splits(bs[i], n) && BlocksOk(Break(bs, i, n)) && |Break(bs, i, n)| == |bs| + 1
    requires j < i
    ensures Shown(m, bs, i) && m[bs[i].start].size >= n + HEADER
    ensures Shown(BreakMem(m, bs[i].start, n), Break(bs, i, n), j)
  {
    BreakAt(bs, i, n);
    assert Shown(m, bs, i);
    assert bs[i].size > HEADER + n + HEADER;
    assert Shown(m, bs, j);
    hide Tiles, Aligned, BlocksOk, Represents, Break, BreakMem, Splits;
    StartsDiffer(bs, base, tail);
    if i + 1 < |bs| {
      RunNext(bs, base, tail, i);
    }
    BreakMemAt(m, bs[i].start, n, bs[j].start);
  }

  lemma BreakShownMid(m: Memory, bs: seq<Block>, base: nat, tail: nat, i: nat, n: nat)
    requires 0 < base && Tiles(bs, base, tail) && BlocksOk(bs) && Represents(m, bs) && i < |bs|
    requires Splits(bs[i], n) && BlocksOk(Break(bs, i, n)) && |Break(bs, i, n)| == |bs| + 1
    ensures Shown(m, bs, i) && m[bs[i].start].size >= n + HEADER
    ensures var m' := BreakMem(m, bs[i].start, n); var r := Break(bs, i, n); Shown(m', r, i) && Shown(m', r, i + 1)
  {
    BreakAt(bs, i, n);
    assert Shown(m, bs, i);
    assert bs[i].size > HEADER + n + HEADER;
    hide Tiles, Aligned, BlocksOk, Represents, Break, BreakMem, Splits;
    if i + 1 < |bs| {
      RunNext(bs, base, tail, i);
    }
    BreakMemAt(m, bs[i].start, n, 0);
  }

  lemma BreakShownRight(m: Memory, bs: seq<Block>, base: nat, tail: nat, i: nat, n: nat, j: nat)
    requires 0 < base && Tiles(bs, base, tail) && BlocksOk(bs) && Represents(m, bs) && i < |bs|
    requires Splits(bs[i], n) && BlocksOk(Break(bs, i, n)) && |Break(bs, i, n)| == |bs| + 1
    requires i < j < |bs|
    ensures Shown(m, bs, i) && m[bs[i].start].size >= n + HEADER
    ensures Shown(BreakMem(m, bs[i].start, n), Break(bs, i, n), j + 1)
  {
    BreakAt(bs, i, n);
    assert Shown(m, bs, i);
    assert bs[i].size > HEADER + n + HEADER;
    assert Shown(m, bs, j);
    hide Tiles, Aligned, BlocksOk, Represents, Break, BreakMem, Splits;
    StartsDiffer(bs, base, tail);
    RunNext(bs, base, tail, i);
    RunBounds(bs, base, tail, j);
    BreakMemAt(m, bs[i].start, n, bs[j].start);
  }

  lemma BreakShown(m: Memory, bs: seq<Block>, base: nat, tail: nat, i: nat, n: nat)
    requires 0 < base && Tiles(bs, base, tail) && BlocksOk(bs) && Represents(m, bs) && i < |bs|
    requires Aligned(n) && Splits(bs[i], n)
    ensures Shown(m, bs, i) && m[bs[i].start].size >= n + HEADER
    ensures BlocksOk(Break(bs, i, n))
    ensures Represents(BreakMem(m, bs[i].start, n), Break(bs, i, n))
  {
    hide Tiles, Aligned, BlocksOk, Break, BreakMem;
    BreakBlocksOk(bs, i, n);
    assert Shown(m, bs, i);
    BreakAt(bs, i, n);
    BreakShownMid(m, bs, base, tail, i, n);
    var m', r := BreakMem(m, bs[i].start, n), Break(bs, i, n);
    forall j | 0 <= j < |r| ensures Shown(m', r, j) {
      if j < i {
        BreakShownLeft(m, bs, base, tail, i, n, j);
      } else if j > i + 1 {
        BreakShownRight(m, bs, base, tail, i, n, j - 1);
      }
    }
  }

  /** Merging block `b` into its left neighbour `a`. */
  function JoinMem(m: Memory, a: nat, b: nat): Memory
    requires a in m && b in m
  {
    var m1 := m[a := m[a].(size := m[a].size + m[b].size + HEADER, next := m[b].next)];
    if m[b].next != 0 && m[b].next in m1 then m1[m[b].next := m1[m[b].next].(prev := a)] else m1
  }

  lemma JoinMemAt(m: Memory, a: nat, b: nat, q: nat)
    requires a in m && b in m && (m[b].next != 0 ==> m[b].next != a)
    ensures var m' := JoinMem(m, a, b);
            && a in m' && m'[a] == m[a].(size := m[a].size + m[b].size + HEADER, next := m[b].next)
            && (q in m && q != a ==>
                  q in m' && m'[q] == if q == m[b].next && q != 0 then m[q].(prev := a) else m[q])
  {
  }

  lemma JoinAt(bs: seq<Block>, i: nat)
    requires i + 1 < |bs|
    ensures var r := Join(bs, i, false); |r| == |bs| - 1
    ensures var r := Join(bs, i, false);
            && (forall j :: 0 <= j < i ==> r[j] == bs[j])
            && r[i] == Run(bs[i].start, bs[i].size + bs[i + 1].size, false)
            && (forall j :: i < j < |r| ==> r[j] == bs[j + 1])
  {
  }

  lemma JoinShownAt(m: Memory, bs: seq<Block>, base: nat, tail: nat, i: nat, j: nat)
    requires 0 < base && Tiles(bs, base, tail) && BlocksOk(bs) && Represents(m, bs) && i + 1 < |bs| && !bs[i].tag
    requires BlocksOk(Join(bs, i, false)) && j < |Join(bs, i, false)|
    ensures Shown(m, bs, i) && Shown(m, bs, i + 1)
    ensures Shown(JoinMem(m, bs[i].start, bs[i + 1].start), Join(bs, i, false), j)
  {
    JoinAt(bs, i);
    assert Shown(m, bs, i) && Shown(m, bs, i + 1);
    assert j < i ==> Shown(m, bs, j);
    assert j > i ==> Shown(m, bs, j + 1);
    assert bs[i].size >= HEADER && bs[i + 1].size >= HEADER;
    hide Tiles, Aligned, BlocksOk, Represents, Join, JoinMem;
    StartsDiffer(bs, base, tail);
    if j < i {
      JoinMemAt(m, bs[i].start, bs[i + 1].start, bs[j].start);
    } else if j > i {
      RunBounds(bs, base, tail, j + 1);
      JoinMemAt(m, bs[i].start, bs[i + 1].start, bs[j + 1].start);
    } else {
      JoinMemAt(m, bs[i].start, bs[i + 1].start, 0);
    }
  }

  lemma JoinShown(m: Memory, bs: seq<Block>, base: nat, tail: nat, i: nat)
    requires 0 < base && Tiles(bs, base, tail) && BlocksOk(bs) && Represents(m, bs) && i + 1 < |bs| && !bs[i].tag
    ensures Shown(m, bs, i) && Shown(m, bs, i + 1)
    ensures BlocksOk(Join(bs, i, false))
    ensures Represents(JoinMem(m, bs[i].start, bs[i + 1].start), Join(bs, i, false))
  {
    hide Tiles, Aligned, JoinMem;
    assert Shown(m, bs, i) && Shown(m, bs, i + 1);
    AlignedParts(bs[i].size, bs[i + 1].size);
    var m', r := JoinMem(m, bs[i].start, bs[i + 1].start), Join(bs, i, false);
    forall j | 0 <= j < |r| ensures Shown(m', r, j) {
      JoinShownAt(m, bs, base, tail, i, j);
    }
  }

  function TailOf(bs: seq<Block>): nat {
    if bs == [] then 0 else bs[|bs| - 1].start
  }

  /** A fresh used block after the last one. */
  function AppendMem(m: Memory, last: nat, p: nat, size: nat): Memory {
    var m1 := m[p := Header(0, last, size, true, p + HEADER)];
    if last != 0 && last in m1 then m1[last := m1[last].(next := p)] else m1
  }

  lemma AppendShown(m: Memory, bs: seq<Block>, base: nat, tail: nat, b: Block)
    requires 0 < base && Tiles(bs, base, tail) && BlocksOk(bs) && Represents(m, bs)
    requires BlockOk(b) && b.tag && b.start == tail
    ensures BlocksOk(bs + [b])
    ensures Represents(AppendMem(m, TailOf(bs), b.start, b.size - HEADER), bs + [b])
  {
    hide Tiles, Aligned;
    StartsDiffer(bs, base, tail);
    var r := bs + [b];
    var m' := AppendMem(m, TailOf(bs), b.start, b.size - HEADER);
    if bs != [] {
      RunBounds(bs, base, tail, |bs| - 1);
      assert Shown(m, bs, |bs| - 1);
    }
    forall j | 0 <= j < |r| ensures Shown(m', r, j) {
      if j < |bs| {
        assert Shown(m, bs, j);
        RunBounds(bs, base, tail, j);
      }
    }
  }

  lemma DropShown(m: Memory, bs: seq<Block>, base: nat, tail: nat)
    requires 0 < base && Tiles(bs, base, tail) && BlocksOk(bs) && Represents(m, bs) && bs != []
    ensures var n := |bs| - 1; n > 0 ==> bs[n - 1].start in m
    ensures var n := |bs| - 1;
            Represents(if n > 0 then m[bs[n - 1].start := m[bs[n - 1].start].(next := 0)] else m, bs[..n])
  {
    hide Tiles, Aligned;
    StartsDiffer(bs, base, tail);
    var n := |bs| - 1;
    var r := bs[..n];
    if n > 0 {
      assert Shown(m, bs, n - 1);
    }
    var m' := if n > 0 then m[bs[n - 1].start := m[bs[n - 1].start].(next := 0)] else m;
    forall j | 0 <= j < |r| ensures Shown(m', r, j) {
      assert Shown(m, bs, j);
    }
  }
}
