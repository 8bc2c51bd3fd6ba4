/** The kernel heap: address-ordered blocks, each a header and a payload, first fit from a moving
    start, split on allocation, merge on free, whole pages given back at the tail. */
module TrunkHeap {
  import opened Tiling

  const HEADER: nat := 32
  const PAGE_SIZE: nat := 4096
  const PAGE_COUNT_WRAP: nat := 0x1_0000_0000
  const INT_MAX: nat := 0x7fff_ffff
  const WORD: nat := 0x1_0000_0000_0000_0000

  /** Where the kernel's heap may end: growth by less than 2 GiB stays inside a 64-bit address. */
  const TOP_MAX: nat := WORD - INT_MAX - 1

  /** The size argument of `kmalloc`: 32 bits. */
  type Size = x: int | 0 <= x < 0x1_0000_0000

  /** A block is a run (header included) tagged with its `used` bit. */
  type Block = Run<bool>

  /** `tail` is the end of the pages the heap has; `start` is the address of the block the next
      search begins at, or 0. */
  datatype Heap = Heap(blocks: seq<Block>, start: nat, tail: nat)

  function Payload(b: Block): int {
    b.size - HEADER
  }

  predicate Spare(used: bool) {
    !used
  }

  predicate Aligned(x: int) {
    x % 16 == 0
  }

  predicate PageAligned(x: int) {
    x % PAGE_SIZE == 0
  }

  lemma AlignedParts(a: nat, n: nat)
    requires Aligned(a) && Aligned(n)
    ensures Aligned(a + n) && Aligned(a - n) && Aligned(HEADER) && Aligned(HEADER + n) && Aligned(a + (HEADER + n))
    ensures Aligned(a - (HEADER + n)) && Aligned(a + HEADER)
  {
  }

  lemma PagesAligned(a: nat, n: nat)
    requires PageAligned(a)
    ensures Aligned(a) && PageAligned(n * PAGE_SIZE) && PageAligned(a + n * PAGE_SIZE) && Aligned(n * PAGE_SIZE)
  {
  }

  predicate BlockOk(b: Block) {
    b.size >= HEADER && Aligned(b.start) && Aligned(b.size)
  }

  /** The position of the block at `addr`; the length when there is none. */
  function Index(bs: seq<Block>, addr: nat): (i: nat)
    ensures i <= |bs|
    ensures i < |bs| ==> bs[i].start == addr
    ensures forall j :: 0 <= j < i ==> bs[j].start != addr
    decreases |bs|
  {
    if bs == [] || bs[0].start == addr then 0 else 1 + Index(bs[1..], addr)
  }

  predicate IsBlock(bs: seq<Block>, addr: nat) {
    Index(bs, addr) < |bs|
  }

  predicate BlocksOk(bs: seq<Block>) {
    forall i :: 0 <= i < |bs| ==> BlockOk(bs[i])
  }

  /** What every call keeps. */
  predicate Good(h: Heap, base: nat, top: nat) {
    && 0 < base && PageAligned(base) && PageAligned(h.tail)
    && Tiles(h.blocks, base, h.tail)
    && BlocksOk(h.blocks)
    && Apart(h.blocks, Spare)
    && (h.start != 0 ==> IsBlock(h.blocks, h.start))
    && base <= h.tail <= top <= TOP_MAX
  }

  /** The live allocations. */
  ghost function Live(bs: seq<Block>): set<Block> {
    set i | 0 <= i < |bs| && bs[i].tag :: bs[i]
  }

  // ----- allocation

  function Align16(size: nat): (n: nat)
    ensures n >= size && Aligned(n) && n < size + 16
  {
    (size + 15) / 16 * 16
  }

  /** The page count is kept in 32 bits. */
  function PagesFor(n: nat): nat {
    ((n + HEADER + PAGE_SIZE - 1) / PAGE_SIZE) % PAGE_COUNT_WRAP
  }

  predicate Countable(n: nat) {
    n + HEADER <= (PAGE_COUNT_WRAP - 1) * PAGE_SIZE
  }

  /** The counted pages hold the block exactly for the requests whose page count fits 32 bits. */
  lemma PagesSuffice(n: nat)
    ensures PagesFor(n) * PAGE_SIZE >= n + HEADER <==> Countable(n)
    ensures Countable(n) ==> PagesFor(n) >= 1 && (PagesFor(n) - 1) * PAGE_SIZE < n + HEADER
  {
    var p := (n + HEADER + PAGE_SIZE - 1) / PAGE_SIZE;
    assert p * PAGE_SIZE >= n + HEADER > (p - 1) * PAGE_SIZE;
    if Countable(n) {
      assert p < PAGE_COUNT_WRAP;
    } else {
      assert p >= PAGE_COUNT_WRAP;
    }
  }

  /** The byte count `km_expand` and `km_shrink` work with: a 32-bit signed product. */
  function Product(pages: nat): int {
    var x := pages * PAGE_SIZE % 0x1_0000_0000;
    if x <= INT_MAX then x else x - 0x1_0000_0000
  }

  predicate InRange(pages: nat) {
    pages < 0x8_0000
  }

  /** The product is the byte count exactly below 2 GiB. */
  lemma ProductExact(pages: nat)
    ensures Product(pages) == pages * PAGE_SIZE <==> InRange(pages)
    ensures -(INT_MAX + 1) <= Product(pages) <= INT_MAX
  {
  }

  function GrownTo(tail: nat, pages: nat): nat {
    (tail + Product(pages)) % WORD
  }

  lemma GrownToExact(tail: nat, pages: nat)
    requires tail <= TOP_MAX && InRange(pages)
    ensures GrownTo(tail, pages) == tail + pages * PAGE_SIZE
  {
    ProductExact(pages);
  }

  /** First fit from position `i` on; the search does not come back to the head. */
  function FirstFit(bs: seq<Block>, i: nat, n: nat): (k: nat)
    requires i <= |bs|
    ensures i <= k <= |bs|
    ensures k < |bs| ==> !bs[k].tag && Payload(bs[k]) >= n
    ensures forall j :: i <= j < k ==> bs[j].tag || Payload(bs[j]) < n
    decreases |bs| - i
  {
    if i == |bs| then i
    else if bs[i].tag || Payload(bs[i]) < n then FirstFit(bs, i + 1, n)
    else i
  }

  /** Splitting is worth it only when the request takes at most half of the payload. */
  predicate Splits(b: Block, n: nat) {
    HEADER + n <= Payload(b) / 2
  }

  /** Block `i` becomes used; its rest becomes a free block when it splits. */
  function Take(bs: seq<Block>, i: nat, n: nat): seq<Block>
    requires i < |bs|
  {
    if Splits(bs[i], n) then Cut(bs, i, HEADER + n, true, false) else Retag(bs, i, true)
  }

  function StartAt(bs: seq<Block>, i: nat): nat {
    if i < |bs| then bs[i].start else 0
  }

  function SearchFrom(h: Heap): (i: nat)
    ensures i <= |h.blocks|
  {
    if h.start == 0 then 0
    else if IsBlock(h.blocks, h.start) then Index(h.blocks, h.start)
    else 0
  }

  /** Some block from the start on is free and big enough. */
  predicate Fits(h: Heap, n: nat) {
    FirstFit(h.blocks, SearchFrom(h), n) < |h.blocks|
  }

  /** `km_expand` finds the new tail above the top. */
  predicate Refused(h: Heap, n: nat, top: nat) {
    GrownTo(h.tail, PagesFor(n)) > top
  }

  /** The heap after `trunk_malloc`, and the payload address (0 when it fails). */
  function Malloc(h: Heap, size: Size, top: nat): (Heap, nat) {
    var n := Align16(size);
    var i := FirstFit(h.blocks, SearchFrom(h), n);
    if i < |h.blocks| then
      var bs := Take(h.blocks, i, n);
      (Heap(bs, StartAt(bs, i + 1), h.tail), h.blocks[i].start + HEADER)
    else if Refused(h, n, top) then (h, 0)
    else
      var bs := Take(h.blocks + [Run(h.tail, PagesFor(n) * PAGE_SIZE, true)], |h.blocks|, n);
      (Heap(bs, StartAt(bs, |h.blocks| + 1), GrownTo(h.tail, PagesFor(n))), h.tail + HEADER)
  }

  // ----- release

  function MergeNext(bs: seq<Block>, i: nat): seq<Block>
    requires i < |bs|
  {
    if i + 1 < |bs| && !bs[i + 1].tag then Join(bs, i, false) else bs
  }

  function MergePrev(bs: seq<Block>, i: nat): (seq<Block>, nat)
    requires i < |bs|
  {
    if i > 0 && !bs[i - 1].tag then (Join(bs, i - 1, false), i - 1) else (bs, i)
  }

  /** Block `i` becomes free and swallows its free neighbours; the position of the result. */
  function Freed(bs: seq<Block>, i: nat): (seq<Block>, nat)
    requires i < |bs|
  {
    MergePrev(MergeNext(Retag(bs, i, false), i), i)
  }

  /** A start at or past the freed block moves to the block before it. */
  function Restart(start: nat, bs: seq<Block>, i: nat): nat
    requires i < |bs|
  {
    if start == 0 || start >= bs[i].start then (if i > 0 then bs[i - 1].start else 0) else start
  }

  predicate Droppable(bs: seq<Block>) {
    bs != [] && !bs[|bs| - 1].tag && PageAligned(bs[|bs| - 1].start)
  }

  function Shrunk(h: Heap): Heap {
    if Droppable(h.blocks) then
      var n := |h.blocks| - 1;
      var pages := h.blocks[n].size / PAGE_SIZE % PAGE_COUNT_WRAP;
      Heap(h.blocks[..n], h.start, (h.tail - Product(pages)) % WORD)
    else h
  }

  /** `trunk_free` of payload address `p`. */
  function Free(h: Heap, p: nat): Heap {
    if p < HEADER || !IsBlock(h.blocks, p - HEADER) then h
    else
      var i := Index(h.blocks, p - HEADER);
      if !h.blocks[i].tag then h
      else
        var (bs, k) := Freed(h.blocks, i);
        if k < |bs| then Shrunk(Heap(bs, Restart(h.start, bs, k), h.tail)) else h
  }

  // ----- proofs

  lemma IndexOf(bs: seq<Block>, base: nat, tail: nat, i: nat)
    requires Tiles(bs, base, tail) && i < |bs|
    ensures Index(bs, bs[i].start) == i
  {
    var k := Index(bs, bs[i].start);
    assert k <= i;
    if k < i {
      RunsOrdered(bs, base, tail, k, i);
      SplitAt(bs, base, tail, k);
    }
  }

  lemma StartAtIsBlock(bs: seq<Block>, base: nat, tail: nat, i: nat)
    requires Tiles(bs, base, tail)
    ensures StartAt(bs, i) != 0 ==> IsBlock(bs, StartAt(bs, i))
  {
    if i < |bs| {
      IndexOf(bs, base, tail, i);
    }
  }

  lemma TakeKeeps(bs: seq<Block>, base: nat, tail: nat, i: nat, n: nat)
    requires Tiles(bs, base, tail) && BlocksOk(bs) && i < |bs| && Aligned(n) && n <= Payload(bs[i])
    requires Apart(Retag(bs, i, false), Spare) || (Apart(bs, Spare) && i == |bs| - 1)
    ensures var r := Take(bs, i, n); Tiles(r, base, tail) && BlocksOk(r) && Apart(r, Spare)
    ensures var r := Take(bs, i, n);
            |r| > i && r[i].start == bs[i].start && r[i].tag && Payload(r[i]) >= n
  {
    hide Tiles, OwnerAt, Apart, Aligned;
    var b := bs[i];
    AlignedParts(b.start, n);
    AlignedParts(b.size, n);
    if Splits(b, n) {
      CutOwners(bs, base, tail, i, HEADER + n, true, false);
      var mid := [Run(b.start, HEADER + n, true), Run(b.start + (HEADER + n), b.size - (HEADER + n), false)];
      CutApart(bs, i, mid);
      assert Take(bs, i, n) == bs[..i] + mid + bs[i + 1..];
    } else {
      RetagOwners(bs, base, tail, i, true);
      assert Retag(bs, i, true) == bs[..i] + [b.(tag := true)] + bs[i + 1..];
      CutApart(bs, i, [b.(tag := true)]);
    }
  }

  lemma CutApart(bs: seq<Block>, i: nat, mid: seq<Block>)
    requires i < |bs| && mid != [] && mid[0].tag && |mid| <= 2
    requires Apart(Retag(bs, i, false), Spare) || (Apart(bs, Spare) && i == |bs| - 1)
    ensures Apart(bs[..i] + mid + bs[i + 1..], Spare)
  {
    var r := bs[..i] + mid + bs[i + 1..];
    forall j | 0 <= j < |r| - 1 ensures PairOk(r, Spare, j) {
      if j + 1 < i {
        assert PairOk(bs, Spare, j) || PairOk(Retag(bs, i, false), Spare, j);
      } else if j >= i + |mid| {
        assert PairOk(Retag(bs, i, false), Spare, j - |mid| + 1);
      } else if j == i + |mid| - 1 {
        assert PairOk(Retag(bs, i, false), Spare, i);
      }
    }
  }

  // ----- live allocations

  lemma LiveConcat(a: seq<Block>, b: seq<Block>)
    ensures Live(a + b) == Live(a) + Live(b)
  {
    forall r ensures r in Live(a + b) <==> r in Live(a) + Live(b) {
      if r in Live(a) {
        var i :| 0 <= i < |a| && a[i].tag && a[i] == r;
        assert (a + b)[i] == r;
      }
      if r in Live(b) {
        var i :| 0 <= i < |b| && b[i].tag && b[i] == r;
        assert (a + b)[|a| + i] == r;
      }
    }
  }

  lemma LiveMiddle(bs: seq<Block>, i: nat, j: nat, mid: seq<Block>)
    requires i <= j <= |bs|
    ensures Live(bs) == Live(bs[..i]) + Live(bs[i..j]) + Live(bs[j..])
    ensures Live(bs[..i] + mid + bs[j..]) == Live(bs[..i]) + Live(mid) + Live(bs[j..])
  {
    hide Live;
    assert bs == bs[..i] + bs[i..j] + bs[j..];
    LiveConcat(bs[..i], bs[i..j]);
    LiveConcat(bs[..i] + bs[i..j], bs[j..]);
    LiveConcat(bs[..i], mid);
    LiveConcat(bs[..i] + mid, bs[j..]);
  }

  lemma LiveOne(b: Block)
    ensures Live([b]) == if b.tag then {b} else {}
  {
    if b.tag {
      assert [b][0] == b;
    }
  }

  lemma LiveTwo(a: Block, b: Block)
    ensures Live([a, b]) == Live([a]) + Live([b])
  {
    assert [a, b] == [a] + [b];
    LiveConcat([a], [b]);
  }

  predicate Disjoint(a: Block, b: Block) {
    End(a) <= b.start || End(b) <= a.start
  }

  lemma LiveDisjoint(bs: seq<Block>, base: nat, tail: nat, a: Block, b: Block)
    requires Tiles(bs, base, tail) && a in Live(bs) && b in Live(bs)
    ensures a == b || Disjoint(a, b)
    ensures base <= a.start && End(a) <= tail
  {
    var i :| 0 <= i < |bs| && bs[i].tag && bs[i] == a;
    var j :| 0 <= j < |bs| && bs[j].tag && bs[j] == b;
    SplitAt(bs, base, tail, i);
    if i < j {
      RunsOrdered(bs, base, tail, i, j);
    } else if j < i {
      RunsOrdered(bs, base, tail, j, i);
    }
  }

  lemma TakeLive(bs: seq<Block>, i: nat, n: nat)
    requires i < |bs|
    ensures Live(Take(bs, i, n)) == Live(bs[..i]) + {Take(bs, i, n)[i]} + Live(bs[i + 1..])
    ensures Live(bs) == Live(bs[..i]) + Live([bs[i]]) + Live(bs[i + 1..])
  {
    hide Live;
    var b := bs[i];
    assert bs[i..i + 1] == [b];
    if Splits(b, n) {
      var x, y := Run(b.start, HEADER + n, true), Run(b.start + (HEADER + n), b.size - (HEADER + n), false);
      LiveMiddle(bs, i, i + 1, [x, y]);
      assert Take(bs, i, n) == bs[..i] + [x, y] + bs[i + 1..];
      LiveTwo(x, y);
      LiveOne(x);
      LiveOne(y);
    } else {
      var x := b.(tag := true);
      LiveMiddle(bs, i, i + 1, [x]);
      assert Take(bs, i, n) == bs[..i] + [x] + bs[i + 1..];
      LiveOne(x);
    }
  }

  /** The block an allocation returned. */
  function BlockOf(h: Heap, p: nat): Block
    requires p >= HEADER && IsBlock(h.blocks, p - HEADER)
  {
    h.blocks[Index(h.blocks, p - HEADER)]
  }

  lemma ApartRetagFree(bs: seq<Block>, i: nat)
    requires Apart(bs, Spare) && i < |bs| && !bs[i].tag
    ensures Apart(Retag(bs, i, false), Spare)
  {
    assert Retag(bs, i, false) == bs;
  }

  lemma ApartAppendUsed(bs: seq<Block>, b: Block)
    requires Apart(bs, Spare) && b.tag
    ensures Apart(bs + [b], Spare)
  {
    var r := bs + [b];
    forall j | 0 <= j < |r| - 1 ensures PairOk(r, Spare, j) {
      if j + 1 < |bs| {
        assert PairOk(bs, Spare, j);
      }
    }
  }

  ghost predicate Adds(h: Heap, h': Heap, p: nat, size: nat) {
    && Aligned(p) && p >= HEADER && IsBlock(h'.blocks, p - HEADER)
    && BlockOf(h', p).tag && Payload(BlockOf(h', p)) >= size
    && Live(h'.blocks) == Live(h.blocks) + {BlockOf(h', p)}
    && BlockOf(h', p) !in Live(h.blocks)
  }

  lemma MallocTakes(h: Heap, size: Size, base: nat, top: nat)
    requires Good(h, base, top) && FirstFit(h.blocks, SearchFrom(h), Align16(size)) < |h.blocks|
    ensures Good(Malloc(h, size, top).0, base, top)
    ensures Adds(h, Malloc(h, size, top).0, Malloc(h, size, top).1, size)
  {
    hide Tiles, Apart, Live, Index, Aligned, PageAligned;
    var n := Align16(size);
    var bs := h.blocks;
    var i := FirstFit(bs, SearchFrom(h), n);
    ApartRetagFree(bs, i);
    TakeKeeps(bs, base, h.tail, i, n);
    var r := Take(bs, i, n);
    AlignedParts(bs[i].start, n);
    StartAtIsBlock(r, base, h.tail, i + 1);
    IndexOf(r, base, h.tail, i);
    TakeLive(bs, i, n);
    LiveOne(bs[i]);
    NotLive(bs, base, h.tail, i, r[i]);
  }

  lemma NotLive(bs: seq<Block>, base: nat, tail: nat, i: nat, b: Block)
    requires Tiles(bs, base, tail) && i < |bs| && !bs[i].tag && b.start == bs[i].start
    ensures b !in Live(bs)
  {
    if b in Live(bs) {
      var j :| 0 <= j < |bs| && bs[j].tag && bs[j] == b;
      IndexOf(bs, base, tail, i);
      IndexOf(bs, base, tail, j);
    }
  }

  lemma GrownKeeps(bs: seq<Block>, base: nat, tail: nat, g: nat)
    requires Tiles(bs, base, tail) && BlocksOk(bs) && Apart(bs, Spare)
    requires PageAligned(tail) && PageAligned(g) && g >= HEADER
    ensures var r := bs + [Run(tail, g, true)]; Tiles(r, base, tail + g) && BlocksOk(r) && Apart(r, Spare)
    ensures Aligned(tail)
  {
    hide Tiles, Apart, OwnerAt, Aligned, PageAligned;
    var b: Block := Run(tail, g, true);
    AppendTiles(bs, base, tail, b);
    ApartAppendUsed(bs, b);
    PagesAligned(tail, 0);
    PagesAligned(g, 0);
  }

  lemma GrownLive(bs: seq<Block>, base: nat, tail: nat, g: nat, n: nat)
    requires Tiles(bs, base, tail) && g >= n + HEADER
    ensures var r := Take(bs + [Run(tail, g, true)], |bs|, n);
            |r| > |bs| && Live(r) == Live(bs) + {r[|bs|]}
                && (r[|bs|].start == tail ==> r[|bs|] !in Live(bs) || r[|bs|].size == 0)
  {
    hide Tiles, Live;
    var all := bs + [Run(tail, g, true)];
    TakeLive(all, |bs|, n);
    assert all[..|bs|] == bs && all[|bs| + 1..] == [];
    LiveEmpty();
    var r := Take(all, |bs|, n);
    if r[|bs|] in Live(bs) {
      LiveDisjoint(bs, base, tail, r[|bs|], r[|bs|]);
    }
  }

  lemma GrownTake(bs: seq<Block>, base: nat, tail: nat, g: nat, n: nat)
    requires Tiles(bs, base, tail) && BlocksOk(bs) && Apart(bs, Spare)
    requires PageAligned(tail) && PageAligned(g) && g >= n + HEADER && Aligned(n)
    ensures var r := Take(bs + [Run(tail, g, true)], |bs|, n);
            && Tiles(r, base, tail + g) && BlocksOk(r) && Apart(r, Spare)
            && |r| > |bs| && r[|bs|].start == tail && r[|bs|].tag && Payload(r[|bs|]) >= n && Aligned(tail)
            && Live(r) == Live(bs) + {r[|bs|]} && r[|bs|] !in Live(bs)
  {
    hide Tiles, Apart, Live, BlocksOk, Take, Retag, Cut, Aligned, PageAligned;
    var all := bs + [Run(tail, g, true)];
    GrownKeeps(bs, base, tail, g);
    TakeKeeps(all, base, tail + g, |bs|, n);
    GrownLive(bs, base, tail, g, n);
  }

  /** A 32-bit size never reaches the cut of the page count. */
  lemma SizeCountable(size: Size)
    ensures Countable(Align16(size))
  {
  }

  /** The blocks after growth end where the counted pages end, whatever the tail became. */
  lemma GrownBlocks(h: Heap, size: Size, base: nat, top: nat)
    requires Good(h, base, top) && !Fits(h, Align16(size)) && !Refused(h, Align16(size), top)
    ensures Tiles(Malloc(h, size, top).0.blocks, base, h.tail + PagesFor(Align16(size)) * PAGE_SIZE)
  {
    hide Tiles, Apart, Live, Index, PagesFor, BlocksOk, Take, Countable, Aligned, PageAligned, GrownTo;
    var n := Align16(size);
    SizeCountable(size);
    PagesSuffice(n);
    PagesAligned(h.tail, PagesFor(n));
    GrownTake(h.blocks, base, h.tail, PagesFor(n) * PAGE_SIZE, n);
  }

  lemma MallocGrows(h: Heap, size: Size, base: nat, top: nat)
    requires Good(h, base, top) && !Fits(h, Align16(size)) && !Refused(h, Align16(size), top)
    requires InRange(PagesFor(Align16(size)))
    ensures Good(Malloc(h, size, top).0, base, top)
    ensures Adds(h, Malloc(h, size, top).0, Malloc(h, size, top).1, size)
  {
    hide Tiles, Apart, Live, Index, PagesFor, BlocksOk, Take, Countable, Aligned, PageAligned, GrownTo;
    var n := Align16(size);
    SizeCountable(size);
    PagesSuffice(n);
    PagesAligned(h.tail, PagesFor(n));
    AlignedParts(h.tail, n);
    GrownToExact(h.tail, PagesFor(n));
    var g := PagesFor(n) * PAGE_SIZE;
    var i := |h.blocks|;
    GrownTake(h.blocks, base, h.tail, g, n);
    var r := Take(h.blocks + [Run(h.tail, g, true)], i, n);
    StartAtIsBlock(r, base, h.tail + g, i + 1);
    IndexOf(r, base, h.tail + g, i);
  }

  /** From 2 GiB on the tail does not follow the blocks. */
  lemma MallocLoses(h: Heap, size: Size, base: nat, top: nat)
    requires Good(h, base, top) && !Fits(h, Align16(size)) && !Refused(h, Align16(size), top)
    requires !InRange(PagesFor(Align16(size)))
    ensures !Good(Malloc(h, size, top).0, base, top)
  {
    hide Tiles, Apart, Live, Index, PagesFor, BlocksOk, Take, Aligned, PageAligned, Product;
    var pages := PagesFor(Align16(size));
    var h' := Malloc(h, size, top).0;
    ProductExact(pages);
    GrownBlocks(h, size, base, top);
    TilesTotal(h'.blocks, base, h.tail + pages * PAGE_SIZE);
    if Good(h', base, top) {
      TilesTotal(h'.blocks, base, h'.tail);
    }
  }

  lemma LiveEmpty()
    ensures Live([]) == {}
  {
  }

  /** What an allocation promises: the heap stays good; success adds exactly one live block, aligned
      and big enough, and failure changes nothing. */
  ghost predicate Correct(h: Heap, size: Size, base: nat, top: nat) {
    var (h', p) := Malloc(h, size, top);
    Good(h', base, top) && if p == 0 then h' == h else Adds(h, h', p, size)
  }

  /** The call finds a block, is refused, or asks for less than 2 GiB of pages. */
  predicate SafeAlloc(h: Heap, size: Size, top: nat) {
    Fits(h, Align16(size)) || Refused(h, Align16(size), top) || InRange(PagesFor(Align16(size)))
  }

  /** An allocation does what it promises exactly when it is safe. */
  lemma MallocExact(h: Heap, size: Size, base: nat, top: nat)
    requires Good(h, base, top)
    ensures Correct(h, size, base, top) <==> SafeAlloc(h, size, top)
    ensures Good(Malloc(h, size, top).0, base, top) <==> SafeAlloc(h, size, top)
    ensures Malloc(h, size, top).1 == 0 <==> !Fits(h, Align16(size)) && Refused(h, Align16(size), top)
  {
    hide Good, Fits, Refused, PagesFor, Take, Live, Index;
    if Fits(h, Align16(size)) {
      TakesHere(h, size, base, top);
    } else if !Refused(h, Align16(size), top) {
      if InRange(PagesFor(Align16(size))) {
        MallocGrows(h, size, base, top);
      } else {
        MallocLoses(h, size, base, top);
      }
    }
    SearchEnds(h, Align16(size));
  }

  lemma SearchEnds(h: Heap, n: nat)
    ensures Fits(h, n) <==> FirstFit(h.blocks, SearchFrom(h), n) < |h.blocks|
    ensures Fits(h, n) <==> exists j :: SearchFrom(h) <= j < |h.blocks| && !h.blocks[j].tag && Payload(h.blocks[j]) >= n
  {
  }

  lemma TakesHere(h: Heap, size: Size, base: nat, top: nat)
    requires Good(h, base, top) && Fits(h, Align16(size))
    ensures Correct(h, size, base, top) && Malloc(h, size, top).1 != 0
  {
    hide Good, Take, Live, Index;
    MallocTakes(h, size, base, top);
  }

  /** The block of a correct allocation is clear of every other live one. */
  lemma MallocApart(h: Heap, size: Size, base: nat, top: nat)
    requires Good(h, base, top) && SafeAlloc(h, size, top) && Malloc(h, size, top).1 != 0
    ensures Correct(h, size, base, top)
    ensures var (h', p) := Malloc(h, size, top); forall b :: b in Live(h.blocks) ==> Disjoint(b, BlockOf(h', p))
  {
    hide Malloc, SafeAlloc, Tiles, Apart, Live, Index;
    MallocExact(h, size, base, top);
    var (h', p) := Malloc(h, size, top);
    forall b | b in Live(h.blocks) ensures Disjoint(b, BlockOf(h', p)) {
      LiveDisjoint(h'.blocks, base, h'.tail, b, BlockOf(h', p));
    }
  }

  /** The failing input: 2 GiB, header included, moves the tail back by 2 GiB and reports success. */
  lemma TwoGiBMovesBack(h: Heap, base: nat, top: nat)
    requires Good(h, base, top) && !Fits(h, 0x7fff_ffe0) && h.tail >= 0x8000_0000
    ensures var (h', p) := Malloc(h, 0x7fff_ffe0, top);
            p == h.tail + HEADER && h'.tail == h.tail - 0x8000_0000 && !Correct(h, 0x7fff_ffe0, base, top)
  {
    hide Good, Fits, Take;
    assert Align16(0x7fff_ffe0) == 0x7fff_ffe0 && PagesFor(0x7fff_ffe0) == 0x8_0000;
    assert GrownTo(h.tail, 0x8_0000) == h.tail - 0x8000_0000 by {
      assert Product(0x8_0000) == -0x8000_0000;
      TailInside(h, base, top);
    }
    TailInside(h, base, top);
    SearchEnds(h, 0x7fff_ffe0);
    MallocExact(h, 0x7fff_ffe0, base, top);
  }

  lemma TailInside(h: Heap, base: nat, top: nat)
    requires Good(h, base, top)
    ensures base <= h.tail <= top <= TOP_MAX
  {
  }

  // ----- what a release does

  /** The merged block spans positions [First, Last] of the old list. */
  function First(bs: seq<Block>, i: nat): nat
    requires i < |bs|
  {
    if i > 0 && !bs[i - 1].tag then i - 1 else i
  }

  function Last(bs: seq<Block>, i: nat): (j: nat)
    requires i < |bs|
    ensures i <= j < |bs|
  {
    if i + 1 < |bs| && !bs[i + 1].tag then i + 1 else i
  }

  function Merged(bs: seq<Block>, i: nat): Block
    requires i < |bs|
  {
    var l, k := First(bs, i), Last(bs, i);
    Run(bs[l].start,
        (if l < i then bs[l].size else 0) + bs[i].size + (if k > i then bs[k].size else 0),
        false)
  }

  lemma FreedShape(bs: seq<Block>, i: nat)
    requires i < |bs|
    ensures Freed(bs, i).1 == First(bs, i)
    ensures Freed(bs, i).0 == bs[..First(bs, i)] + [Merged(bs, i)] + bs[Last(bs, i) + 1..]
  {
    var r := MergeNext(Retag(bs, i, false), i);
    var m := Run(bs[i].start, bs[i].size + (if Last(bs, i) > i then bs[i + 1].size else 0), false);
    assert r == bs[..i] + [m] + bs[Last(bs, i) + 1..];
    if First(bs, i) < i {
      assert r[..i - 1] == bs[..i - 1] && r[i + 1..] == bs[Last(bs, i) + 1..];
    }
  }

  lemma FreedTiles(bs: seq<Block>, base: nat, tail: nat, i: nat)
    requires Tiles(bs, base, tail) && i < |bs|
    ensures Tiles(Freed(bs, i).0, base, tail)
  {
    hide Tiles, OwnerAt;
    var a := Retag(bs, i, false);
    RetagOwners(bs, base, tail, i, false);
    if i + 1 < |a| {
      JoinOwners(a, base, tail, i, false);
    }
    var b := MergeNext(a, i);
    if i > 0 {
      JoinOwners(b, base, tail, i - 1, false);
    }
  }

  lemma FreedKeeps(bs: seq<Block>, i: nat)
    requires BlocksOk(bs) && Apart(bs, Spare) && i < |bs| && bs[i].tag
    ensures var r := Freed(bs, i).0; BlocksOk(r) && Apart(r, Spare)
  {
    hide Freed, Aligned;
    FreedShape(bs, i);
    var l, k := First(bs, i), Last(bs, i);
    AlignedParts(bs[l].size, bs[i].size);
    AlignedParts(bs[l].size + bs[i].size, bs[k].size);
    AlignedParts(bs[i].size, bs[k].size);
    if l > 0 && l < i {
      assert PairOk(bs, Spare, l - 1);
    }
    if k > i && k + 1 < |bs| {
      assert PairOk(bs, Spare, k);
    }
    ApartSplice(bs, Spare, l, k + 1 - l, [Merged(bs, i)]);
    assert BlockOk(Merged(bs, i));
  }

  lemma LiveSpan(bs: seq<Block>, i: nat)
    requires i < |bs| && bs[i].tag
    ensures Live(bs[First(bs, i)..Last(bs, i) + 1]) == {bs[i]}
  {
    hide Live;
    var l, k := First(bs, i), Last(bs, i);
    var s := bs[l..k + 1];
    LiveMiddle(s, i - l, i - l + 1, []);
    assert s[i - l] == bs[i];
    assert s[i - l..i - l + 1] == [s[i - l]];
    LiveOne(bs[i]);
    LiveEmpty();
    if l < i {
      assert s[..i - l] == [bs[l]];
      LiveOne(bs[l]);
    } else {
      assert s[..i - l] == [];
    }
    if k > i {
      assert s[i - l + 1..] == [bs[k]];
      LiveOne(bs[k]);
    } else {
      assert s[i - l + 1..] == [];
    }
  }

  lemma LiveElsewhere(bs: seq<Block>, base: nat, tail: nat, i: nat)
    requires Tiles(bs, base, tail) && i < |bs|
    ensures forall j :: 0 <= j <= i ==> bs[i] !in Live(bs[..j])
    ensures forall j :: i < j <= |bs| ==> bs[i] !in Live(bs[j..])
  {
    hide Tiles;
    IndexOf(bs, base, tail, i);
    forall x | 0 <= x < |bs| && x != i ensures bs[x] != bs[i] {
      IndexOf(bs, base, tail, x);
    }
  }

  lemma FreedLive(bs: seq<Block>, base: nat, tail: nat, i: nat)
    requires Tiles(bs, base, tail) && i < |bs| && bs[i].tag
    ensures Live(Freed(bs, i).0) == Live(bs) - {bs[i]}
  {
    hide Tiles, Live, Freed;
    FreedShape(bs, i);
    var l, k := First(bs, i), Last(bs, i);
    LiveMiddle(bs, l, k + 1, [Merged(bs, i)]);
    LiveSpan(bs, i);
    LiveOne(Merged(bs, i));
    LiveElsewhere(bs, base, tail, i);
  }

  /** The start stays a block: it lies before the merged block, or is moved just before it. */
  lemma RestartIsBlock(bs: seq<Block>, base: nat, tail: nat, i: nat, start: nat)
    requires Tiles(bs, base, tail) && i < |bs|
    requires start != 0 ==> IsBlock(bs, start)
    ensures var (r, k) := Freed(bs, i); k < |r| && var s := Restart(start, r, k);
            s != 0 ==> IsBlock(r, s) && Index(r, s) < k
  {
    hide Tiles, Freed;
    FreedShape(bs, i);
    FreedTiles(bs, base, tail, i);
    var (r, k) := Freed(bs, i);
    var s := Restart(start, r, k);
    if start == 0 || start >= r[k].start {
      if k > 0 {
        IndexOf(r, base, tail, k - 1);
      }
    } else {
      var j := Index(bs, start);
      if j < k {
        assert r[j] == bs[j];
        IndexOf(r, base, tail, j);
      } else if j > k {
        RunsOrdered(bs, base, tail, k, j);
      }
    }
  }

  lemma IndexPrefix(bs: seq<Block>, n: nat, a: nat)
    requires n <= |bs| && Index(bs, a) < n
    ensures Index(bs[..n], a) == Index(bs, a)
  {
    var i, j := Index(bs[..n], a), Index(bs, a);
    assert bs[..n][j] == bs[j];
  }

  /** Giving back a droppable tail leaves the memory ending where the dropped header was, exactly when
      the tail is shorter than 2 GiB. */
  lemma ShrunkExact(h: Heap, base: nat)
    requires Tiles(h.blocks, base, h.tail) && PageAligned(h.tail) && Droppable(h.blocks) && 0 < base
        && h.tail <= TOP_MAX
    ensures Shrunk(h).tail == h.blocks[|h.blocks| - 1].start <==> h.blocks[|h.blocks| - 1].size <= INT_MAX
    ensures Shrunk(h).blocks == h.blocks[..|h.blocks| - 1] && Live(Shrunk(h).blocks) == Live(h.blocks)
    ensures Tiles(Shrunk(h).blocks, base, h.blocks[|h.blocks| - 1].start)
    ensures base <= h.blocks[|h.blocks| - 1].start < h.tail
  {
    hide OwnerAt, Live;
    var n := |h.blocks| - 1;
    DropLastTiles(h.blocks, base, h.tail);
    SplitAt(h.blocks, base, h.tail, n);
    LiveMiddle(h.blocks, n, n + 1, []);
    assert h.blocks[n..n + 1] == [h.blocks[n]] && h.blocks[n + 1..] == [];
    LiveOne(h.blocks[n]);
    LiveEmpty();
    hide Tiles;
    ShrunkTail(h.tail, h.blocks[n].start, h.blocks[n].size);
  }

  lemma ShrunkTail(tail: nat, start: nat, size: nat)
    requires PageAligned(tail) && PageAligned(start) && start + size == tail <= TOP_MAX && 0 < start
    ensures (tail - Product(size / PAGE_SIZE % PAGE_COUNT_WRAP)) % WORD == start <==> size <= INT_MAX
  {
    var pages := size / PAGE_SIZE;
    assert pages * PAGE_SIZE == size;
    var s := Product(pages % PAGE_COUNT_WRAP);
    ProductExact(pages % PAGE_COUNT_WRAP);
    hide Product;
    if size <= INT_MAX {
      assert InRange(pages) && s == size;
    } else {
      assert start < tail - s <= WORD;
      assert tail - s == WORD ==> (tail - s) % WORD == 0;
    }
  }

  /** Releasing `p` drops a tail of 2 GiB or more. */
  predicate TooLong(h: Heap, p: nat) {
    && p >= HEADER && IsBlock(h.blocks, p - HEADER) && BlockOf(h, p).tag
    && var bs := Freed(h.blocks, Index(h.blocks, p - HEADER)).0;
       Droppable(bs) && bs[|bs| - 1].size > INT_MAX
  }

  /** The heap stays good exactly when no tail of 2 GiB is dropped. Then releasing a live payload
      address removes exactly its block from the live set, and any other address changes nothing. */
  lemma FreeExact(h: Heap, p: nat, base: nat, top: nat)
    requires Good(h, base, top)
    ensures Good(Free(h, p), base, top) <==> !TooLong(h, p)
    ensures if p >= HEADER && IsBlock(h.blocks, p - HEADER) && BlockOf(h, p).tag
            then Live(Free(h, p).blocks) == Live(h.blocks) - {BlockOf(h, p)}
                && (!TooLong(h, p) ==> Free(h, p).tail <= h.tail)
            else Free(h, p) == h
  {
    hide Tiles, Live, Apart, Index, Freed, BlocksOk, Aligned, PageAligned, Shrunk, Droppable;
    if p >= HEADER && IsBlock(h.blocks, p - HEADER) && BlockOf(h, p).tag {
      var i := Index(h.blocks, p - HEADER);
      FreedTiles(h.blocks, base, h.tail, i);
      FreedKeeps(h.blocks, i);
      FreedLive(h.blocks, base, h.tail, i);
      RestartIsBlock(h.blocks, base, h.tail, i, h.start);
      var (bs, k) := Freed(h.blocks, i);
      var g := Heap(bs, Restart(h.start, bs, k), h.tail);
      ShrinkGood(g, base, top, k);
    }
  }

  lemma ShrinkGood(h: Heap, base: nat, top: nat, k: nat)
    requires Good(h, base, top) && k < |h.blocks|
    requires h.start != 0 ==> Index(h.blocks, h.start) < k
    ensures Good(Shrunk(h), base, top) <==> !(Droppable(h.blocks) && h.blocks[|h.blocks| - 1].size > INT_MAX)
    ensures Live(Shrunk(h).blocks) == Live(h.blocks)
    ensures Good(Shrunk(h), base, top) ==> Shrunk(h).tail <= h.tail
  {
    assert !Droppable(h.blocks) ==> Shrunk(h) == h;
    hide Tiles, Live, Index, Shrunk;
    if Droppable(h.blocks) {
      ShrunkExact(h, base);
      var n := |h.blocks| - 1;
      TilesTotal(h.blocks[..n], base, h.blocks[n].start);
      if Good(Shrunk(h), base, top) {
        TilesTotal(h.blocks[..n], base, Shrunk(h).tail);
      } else if h.blocks[n].size <= INT_MAX {
        ShrunkRest(h, base, top, k);
      }
    }
  }

  lemma ShrunkRest(h: Heap, base: nat, top: nat, k: nat)
    requires Good(h, base, top) && k < |h.blocks| && (h.start != 0 ==> Index(h.blocks, h.start) < k)
    requires Droppable(h.blocks) && h.blocks[|h.blocks| - 1].size <= INT_MAX
    ensures Good(Shrunk(h), base, top)
  {
    hide Tiles, Live, Index;
    ShrunkExact(h, base);
    var n := |h.blocks| - 1;
    assert Shrunk(h).start == h.start;
    hide Shrunk;
    if h.start != 0 {
      IndexPrefix(h.blocks, n, h.start);
    }
    assert Apart(h.blocks[..n], Spare) by {
      forall j | 0 <= j < n - 1 ensures PairOk(h.blocks[..n], Spare, j) {
        assert PairOk(h.blocks, Spare, j);
      }
    }
  }

  // ----- accounting

  function FreePayload(bs: seq<Block>): int {
    if bs == [] then 0 else (if bs[0].tag then 0 else Payload(bs[0])) + FreePayload(bs[1..])
  }

  function UsedPayload(bs: seq<Block>): int {
    if bs == [] then 0 else (if bs[0].tag then Payload(bs[0]) else 0) + UsedPayload(bs[1..])
  }

  /** What `trunk_free_size` reports. */
  function FreeSize(h: Heap, top: nat): int {
    if top < h.tail then 0 else top - h.tail + FreePayload(h.blocks)
  }

  lemma {:induction false} PayloadsAdd(bs: seq<Block>)
    ensures FreePayload(bs) + UsedPayload(bs) + HEADER * |bs| == Total(bs)
  {
    if bs != [] {
      PayloadsAdd(bs[1..]);
    }
  }

  /** Every byte of the heap's range is reported free, allocated, or a header. */
  lemma BytesConserved(h: Heap, base: nat, top: nat)
    requires Good(h, base, top)
    ensures FreeSize(h, top) + UsedPayload(h.blocks) + HEADER * |h.blocks| == top - base
  {
    PayloadsAdd(h.blocks);
    TilesTotal(h.blocks, base, h.tail);
  }

  // ----- whole runs

  datatype Call = Alloc(size: Size) | Release(p: nat)

  function Apply(h: Heap, c: Call, top: nat): Heap {
    match c
    case Alloc(size) => Malloc(h, size, top).0
    case Release(p) => Free(h, p)
  }

  function After(h: Heap, calls: seq<Call>, top: nat): Heap {
    if calls == [] then h
    else Apply(After(h, calls[..|calls| - 1], top), calls[|calls| - 1], top)
  }

  /** The client's own record: every address it was given and has not released. */
  function Handed(h: Heap, calls: seq<Call>, top: nat): set<nat> {
    if calls == [] then {}
    else
      var n := |calls| - 1;
      var before := Handed(h, calls[..n], top);
      match calls[n]
      case Alloc(size) =>
        var p := Malloc(After(h, calls[..n], top), size, top).1;
        if p == 0 then before else before + {p}
      case Release(p) => before - {p}
  }

  ghost function Addresses(bs: seq<Block>): set<nat> {
    set b | b in Live(bs) :: b.start + HEADER
  }

  /** The call keeps its promise on this heap. */
  predicate Safe(h: Heap, c: Call, top: nat) {
    match c
    case Alloc(size) => SafeAlloc(h, size, top)
    case Release(p) => !TooLong(h, p)
  }

  predicate SafeRun(h: Heap, calls: seq<Call>, top: nat) {
    calls == [] ||
    (SafeRun(h, calls[..|calls| - 1], top) && Safe(After(h, calls[..|calls| - 1], top), calls[|calls| - 1], top))
  }

  lemma LiveAt(h: Heap, base: nat, p: nat)
    requires Tiles(h.blocks, base, h.tail)
    ensures p in Addresses(h.blocks) <==> p >= HEADER && IsBlock(h.blocks, p - HEADER) && BlockOf(h, p).tag
    ensures p in Addresses(h.blocks) ==> BlockOf(h, p) in Live(h.blocks)
    ensures p in Addresses(h.blocks) ==> forall b :: b in Live(h.blocks) && b.start + HEADER == p ==> b == BlockOf(h, p)
  {
    forall b | b in Live(h.blocks) && b.start + HEADER == p
      ensures IsBlock(h.blocks, p - HEADER) && b == BlockOf(h, p)
    {
      var i :| 0 <= i < |h.blocks| && h.blocks[i].tag && h.blocks[i] == b;
      IndexOf(h.blocks, base, h.tail, i);
    }
  }

  lemma ApplyExact(h: Heap, c: Call, base: nat, top: nat)
    requires Good(h, base, top) && Safe(h, c, top)
    ensures Good(Apply(h, c, top), base, top)
    ensures Addresses(Apply(h, c, top).blocks) == (
              match c
              case Alloc(size) =>
                var p := Malloc(h, size, top).1;
                if p == 0 then Addresses(h.blocks) else Addresses(h.blocks) + {p}
              case Release(p) => Addresses(h.blocks) - {p})
  {
    hide Live, Tiles, Apart, Index, BlocksOk, Malloc, Free, Aligned, PageAligned, TooLong, SafeAlloc;
    match c
    case Alloc(size) =>
      MallocExact(h, size, base, top);
      var (h', p) := Malloc(h, size, top);
      if p != 0 {
        LiveAt(h', base, p);
        assert BlockOf(h', p).start + HEADER == p;
      }
    case Release(p) =>
      FreeExact(h, p, base, top);
      LiveAt(h, base, p);
      forall b | b in Live(h.blocks) && b.start + HEADER != p
        ensures b in Live(Free(h, p).blocks)
      {
        if p >= HEADER && IsBlock(h.blocks, p - HEADER) {
          assert BlockOf(h, p).start + HEADER == p;
        }
      }
  }

  /** Over any safe run from the empty heap the structure stays good and the live blocks are exactly
      the addresses handed out and not yet released. */
  lemma {:induction false} HeapRunsExact(calls: seq<Call>, base: nat, top: nat)
    requires 0 < base <= top <= TOP_MAX && PageAligned(base)
    requires SafeRun(Heap([], 0, base), calls, top)
    ensures Good(After(Heap([], 0, base), calls, top), base, top)
    ensures Addresses(After(Heap([], 0, base), calls, top).blocks) == Handed(Heap([], 0, base), calls, top)
    decreases |calls|
  {
    hide Apply, Malloc, Safe;
    if calls == [] {
      LiveEmpty();
    } else {
      var n := |calls| - 1;
      HeapRunsExact(calls[..n], base, top);
      ApplyExact(After(Heap([], 0, base), calls[..n], top), calls[n], base, top);
    }
  }

  predicate Modest(c: Call) {
    c.Alloc? ==> c.size <= 0x7fff_efe0
  }

  lemma ModestInRange(size: Size)
    ensures InRange(PagesFor(Align16(size))) <==> size <= 0x7fff_efe0
  {
  }

  lemma ShortTails(h: Heap, p: nat, base: nat, top: nat)
    requires Good(h, base, top) && top - base <= INT_MAX
    ensures !TooLong(h, p)
  {
    hide Tiles, Live, Apart, Index, Freed, BlocksOk, Aligned, PageAligned;
    if p >= HEADER && IsBlock(h.blocks, p - HEADER) && BlockOf(h, p).tag {
      var i := Index(h.blocks, p - HEADER);
      FreedTiles(h.blocks, base, h.tail, i);
      var bs := Freed(h.blocks, i).0;
      if bs != [] {
        RunBounds(bs, base, h.tail, |bs| - 1);
      }
    }
  }

  /** In a heap of less than 2 GiB every run of modest requests is safe. */
  lemma {:induction false} SmallHeapSafe(calls: seq<Call>, base: nat, top: nat)
    requires 0 < base <= top <= TOP_MAX && PageAligned(base) && top - base <= INT_MAX
    requires forall i :: 0 <= i < |calls| ==> Modest(calls[i])
    ensures SafeRun(Heap([], 0, base), calls, top)
    decreases |calls|
  {
    hide Good, TooLong, After, PagesFor, InRange;
    if calls != [] {
      var n := |calls| - 1;
      SmallHeapSafe(calls[..n], base, top);
      HeapRunsExact(calls[..n], base, top);
      var h := After(Heap([], 0, base), calls[..n], top);
      match calls[n]
      case Alloc(size) => ModestInRange(size);
      case Release(p) => ShortTails(h, p, base, top);
    }
  }

  /** Hence in every heap such a run reaches two live allocations never share a byte, and every payload
      is 16-byte aligned and inside the heap. */
  lemma LiveNeverOverlap(calls: seq<Call>, base: nat, top: nat, a: Block, b: Block)
    requires 0 < base <= top <= TOP_MAX && PageAligned(base) && SafeRun(Heap([], 0, base), calls, top)
    requires a in Live(After(Heap([], 0, base), calls, top).blocks)
    requires b in Live(After(Heap([], 0, base), calls, top).blocks)
    ensures a == b || Disjoint(a, b)
    ensures Aligned(a.start + HEADER) && base <= a.start && End(a) <= top
  {
    hide After, Live, Tiles, Apart, Index, SafeRun;
    HeapRunsExact(calls, base, top);
    var h := After(Heap([], 0, base), calls, top);
    LiveDisjoint(h.blocks, base, h.tail, a, b);
    LiveAligned(h.blocks, a);
  }

  lemma LiveAligned(bs: seq<Block>, a: Block)
    requires BlocksOk(bs) && a in Live(bs)
    ensures Aligned(a.start + HEADER)
  {
  }
}
