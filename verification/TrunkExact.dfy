/** Which block an allocation hands out, how long it is, where the next search begins, and that what was
    released can be had again. */
module TrunkExact {
  import opened Tiling
  import opened TrunkHeap

  /** The block a request is served from: the first free and sufficient one from the search start on, else
      the fresh pages at the tail. */
  ghost predicate ServedFrom(h: Heap, n: nat, whole: Block) {
    if exists j :: SearchFrom(h) <= j < |h.blocks| && Sufficient(h.blocks[j], n) then
      exists j :: SearchFrom(h) <= j < |h.blocks| && Sufficient(h.blocks[j], n) && whole == h.blocks[j]
                  && forall k :: SearchFrom(h) <= k < j ==> !Sufficient(h.blocks[k], n)
    else whole.start == h.tail && whole.size % PAGE_SIZE == 0 && n + HEADER <= whole.size < n + HEADER + PAGE_SIZE
  }

  predicate Sufficient(b: Block, n: nat) {
    !b.tag && Payload(b) >= n
  }

  /** The part of it handed out: as many bytes as asked for and a header, if that is at most half of it,
      else all of it. The next search begins behind, or at the head when that is the end. */
  ghost predicate Hands(h': Heap, b: Block, whole: Block, n: nat) {
    && b.start == whole.start && b.tag
    && b.size == (if 2 * (HEADER + n) <= Payload(whole) then HEADER + n else whole.size)
    && h'.start == if End(b) < h'.tail then End(b) else 0
  }

  lemma TakeHands(bs: seq<Block>, base: nat, tail: nat, i: nat, n: nat, start: nat)
    requires i < |bs| && Tiles(Take(bs, i, n), base, tail) && start == StartAt(Take(bs, i, n), i + 1)
    ensures var r := Take(bs, i, n); i < |r| && Hands(Heap(r, start, tail), r[i], bs[i], n)
    ensures Index(Take(bs, i, n), bs[i].start) == i
  {
    var r := Take(bs, i, n);
    IndexOf(r, base, tail, i);
    hide Index, Tiles;
    if i + 1 < |r| {
      RunNext(r, base, tail, i);
      RunBounds(r, base, tail, i + 1);
    } else {
      DropLastTiles(r, base, tail);
    }
  }

  lemma FoundHands(h: Heap, size: Size, base: nat, top: nat)
    requires Tiles(Malloc(h, size, top).0.blocks, base, h.tail) && Fits(h, Align16(size))
    ensures var (h', p) := Malloc(h, size, top); var n := Align16(size);
            var whole := h.blocks[FirstFit(h.blocks, SearchFrom(h), n)];
            && ServedFrom(h, n, whole) && p == whole.start + HEADER && IsBlock(h'.blocks, p - HEADER)
            && Hands(h', BlockOf(h', p), whole, n)
  {
    var n := Align16(size);
    var h' := Malloc(h, size, top).0;
    var i := FirstFit(h.blocks, SearchFrom(h), n);
    hide Index, Tiles, Take, SearchFrom, Align16;
    TakeHands(h.blocks, base, h.tail, i, n, h'.start);
    hide Hands;
    assert Sufficient(h.blocks[i], n);
  }

  lemma GrownServes(h: Heap, size: Size)
    requires !Fits(h, Align16(size))
    ensures ServedFrom(h, Align16(size), Run(h.tail, PagesFor(Align16(size)) * PAGE_SIZE, true))
  {
    SizeCountable(size);
    PagesSuffice(Align16(size));
    SearchEnds(h, Align16(size));
    hide PagesFor, Align16, Countable, SearchFrom;
  }

  lemma GrownHands(h: Heap, size: Size, base: nat, top: nat)
    requires !Fits(h, Align16(size)) && Malloc(h, size, top).1 != 0
    requires Tiles(Malloc(h, size, top).0.blocks, base, Malloc(h, size, top).0.tail)
    ensures var (h', p) := Malloc(h, size, top); var n := Align16(size);
            var whole := Run(h.tail, PagesFor(n) * PAGE_SIZE, true);
            && ServedFrom(h, n, whole) && p == whole.start + HEADER && IsBlock(h'.blocks, p - HEADER)
            && Hands(h', BlockOf(h', p), whole, n)
  {
    var n := Align16(size);
    GrownServes(h, size);
    var h' := Malloc(h, size, top).0;
    hide Index, Tiles, Take, PagesFor, GrownTo, SearchFrom, Align16, ServedFrom;
    var whole := Run(h.tail, PagesFor(n) * PAGE_SIZE, true);
    var all := h.blocks + [whole];
    assert all[|h.blocks|] == whole;
    TakeHands(all, base, h'.tail, |h.blocks|, n, h'.start);
  }

  /** What a successful allocation hands out. */
  lemma MallocHands(h: Heap, size: Size, base: nat, top: nat) returns (whole: Block)
    requires Good(h, base, top) && SafeAlloc(h, size, top) && Malloc(h, size, top).1 != 0
    ensures var (h', p) := Malloc(h, size, top);
            && ServedFrom(h, Align16(size), whole) && p >= HEADER && IsBlock(h'.blocks, p - HEADER)
            && Hands(h', BlockOf(h', p), whole, Align16(size))
  {
    MallocExact(h, size, base, top);
    assert Tiles(Malloc(h, size, top).0.blocks, base, Malloc(h, size, top).0.tail);
    var n := Align16(size);
    if Fits(h, n) {
      FittedTail(h, size, top);
      FoundHands(h, size, base, top);
      whole := h.blocks[FirstFit(h.blocks, SearchFrom(h), n)];
    } else {
      GrownHands(h, size, base, top);
      whole := Run(h.tail, PagesFor(n) * PAGE_SIZE, true);
    }
  }

  // ----- what is released can be had again

  lemma SearchBefore(h: Heap, k: nat)
    requires k < |h.blocks| && (h.start != 0 ==> IsBlock(h.blocks, h.start) && Index(h.blocks, h.start) < k)
    ensures SearchFrom(h) <= k
  {
  }

  lemma FitsAt(h: Heap, k: nat, n: nat)
    requires SearchFrom(h) <= k < |h.blocks| && Sufficient(h.blocks[k], n)
    ensures Fits(h, n)
  {
  }

  lemma MergedLongEnough(bs: seq<Block>, i: nat)
    requires i < |bs|
    ensures var (r, k) := Freed(bs, i); k < |r| && !r[k].tag && r[k].size >= bs[i].size
  {
    FreedShape(bs, i);
  }

  /** The merged block is still there, at or behind the next search's start. */
  lemma HadInPlace(g: Heap, k: nat, n: nat)
    requires k < |g.blocks| && !(Droppable(g.blocks) && k == |g.blocks| - 1) && Sufficient(g.blocks[k], n)
    requires g.start != 0 ==> IsBlock(g.blocks, g.start) && Index(g.blocks, g.start) < k
    ensures Fits(Shrunk(g), n)
  {
    var v, m := Shrunk(g), |g.blocks| - 1;
    hide Index;
    if Droppable(g.blocks) {
      assert v.blocks == g.blocks[..m] && v.start == g.start;
      hide Shrunk;
      if g.start != 0 {
        IndexPrefix(g.blocks, m, g.start);
      }
      assert v.blocks[k] == g.blocks[k];
    }
    SearchBefore(v, k);
    FitsAt(v, k, n);
  }

  /** Released memory is found again: a request no larger than a block just released succeeds, and the heap
      does not end higher than it did before. */
  lemma ReleasedCanBeHad(h: Heap, p: nat, size: Size, base: nat, top: nat)
    requires Good(h, base, top) && p >= HEADER && IsBlock(h.blocks, p - HEADER) && BlockOf(h, p).tag
    requires !TooLong(h, p) && Align16(size) <= Payload(BlockOf(h, p))
    ensures var (v, q) := Malloc(Free(h, p), size, top); q != 0 && v.tail <= h.tail
  {
    var i := Index(h.blocks, p - HEADER);
    FreeExact(h, p, base, top);
    MergedLongEnough(h.blocks, i);
    RestartIsBlock(h.blocks, base, h.tail, i, h.start);
    FreedTiles(h.blocks, base, h.tail, i);
    var (bs, k) := Freed(h.blocks, i);
    var g := Heap(bs, Restart(h.start, bs, k), h.tail);
    var v := Free(h, p);
    var n := Align16(size);
    assert v == Shrunk(g);
    if Droppable(bs) && k == |bs| - 1 {
      HadByGrowth(h, g, v, size, base, top, bs[k]);
    } else {
      hide Freed, Malloc, Index, Tiles, Shrunk, Good, Free;
      HadInPlace(g, k, n);
      MallocExact(v, size, base, top);
      FittedTail(v, size, top);
    }
  }

  lemma FittedTail(h: Heap, size: Size, top: nat)
    requires Fits(h, Align16(size))
    ensures Malloc(h, size, top).0.tail == h.tail
  {
    hide Take;
  }

  /** The tail was given back: it is long enough to be taken again. */
  lemma HadByGrowth(h: Heap, g: Heap, v: Heap, size: Size, base: nat, top: nat, b: Block)
    requires Good(v, base, top) && v == Shrunk(g) && Droppable(g.blocks) && b == g.blocks[|g.blocks| - 1]
    requires Tiles(g.blocks, base, g.tail) && g.tail == h.tail <= top <= TOP_MAX && PageAligned(g.tail) && 0 < base
    requires b.size <= INT_MAX && HEADER + Align16(size) <= b.size
    ensures Malloc(v, size, top).1 != 0 && Malloc(v, size, top).0.tail <= h.tail
  {
    ShrunkExact(g, base);
    DropLastTiles(g.blocks, base, g.tail);
    var n := Align16(size);
    PagesWithin(n, b.start, b.size, g.tail);
    GrownToExact(v.tail, PagesFor(n));
    hide Good, Tiles, Shrunk, PagesFor, GrownTo, Malloc;
    MallocExact(v, size, base, top);
    TailAfter(v, size, top);
  }

  lemma TailAfter(h: Heap, size: Size, top: nat)
    ensures Malloc(h, size, top).0.tail in {h.tail, GrownTo(h.tail, PagesFor(Align16(size)))}
  {
    hide Take, GrownTo, PagesFor;
  }

  lemma PagesWithin(n: nat, start: nat, size: nat, tail: nat)
    requires PageAligned(tail) && PageAligned(start) && start + size == tail && HEADER + n <= size <= INT_MAX
    ensures PagesFor(n) * PAGE_SIZE <= size && InRange(PagesFor(n))
  {
  }
}
