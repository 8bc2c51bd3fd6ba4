/** `malloc_t` and its operations, loop by loop, proved against the heap of module TrunkHeap. */
module TrunkAllocator {
  import opened Tiling
  import opened TrunkHeap
  import opened TrunkLinks

  class Trunk {
    const base: nat
    const top: nat
    var mem: Memory
    var head: nat
    var last: nat
    var start: nat
    var memTail: nat
    ghost var blocks: seq<Block>
    ghost var end: nat

    /** The headers are linked up and end at `end`; allocation passes through states that are only this. */
    ghost predicate Linked()
      reads this
    {
      && 0 < base
      && Tiles(blocks, base, end) && BlocksOk(blocks) && Represents(mem, blocks)
      && head == StartAt(blocks, 0) && last == TailOf(blocks)
    }

    ghost function View(): Heap
      reads this
    {
      Heap(blocks, start, memTail)
    }

    ghost predicate Valid()
      reads this
    {
      Linked() && end == memTail && Good(View(), base, top)
    }

    constructor (lo: nat, hi: nat)
      requires 0 < lo <= hi <= TOP_MAX && PageAligned(lo)
      ensures base == lo && top == hi && Valid() && View() == Heap([], 0, lo)
    {
      base, top := lo, hi;
      mem, head, last, start, memTail, blocks, end := map[], 0, 0, 0, lo, [], lo;
    }

    /** Walk to `target`, checking each block; the checks never stop the walk. */
    method FindBlock(target: nat) returns (b: nat)
      requires Linked() && end == memTail
      ensures b == if target != 0 && IsBlock(blocks, target) then target else 0
    {
      hide Tiles, Represents;
      b := 0;
      if blocks != [] {
        RunBounds(blocks, base, end, 0);
        SaneAlways(mem, blocks, base, end, 0);
      }
      if target == 0 || head == 0 {
        return;
      }
      ghost var k: nat := 0;
      var prev, block := 0, head;
      while block != 0 && BlockSane(mem, head, memTail, prev, block)
        invariant k <= |blocks| && block == StartAt(blocks, k)
        invariant prev == if k > 0 then blocks[k - 1].start else 0
        invariant forall j :: 0 <= j < k ==> blocks[j].start != target
        invariant k < |blocks| ==> BlockSane(mem, head, memTail, prev, block)
        decreases |blocks| - k
      {
        if block == target {
          b := block;
          return;
        }
        NextShown(mem, blocks, k);
        prev, block := block, mem[block].next;
        k := k + 1;
        if k < |blocks| {
          SaneAlways(mem, blocks, base, end, k);
        }
      }
    }

    /** Split block `b` after `n` payload bytes when that leaves at least half of it. */
    method TryBreak(b: nat, n: nat)
      requires Linked() && IsBlock(blocks, b) && Aligned(n)
      modifies `mem, `last, `blocks
      ensures Linked() && blocks == Break(old(blocks), Index(old(blocks), b), n)
    {
      hide Tiles, Represents, Index, Aligned, BlocksOk;
      ghost var i := Index(blocks, b);
      NextShown(mem, blocks, i);
      if HEADER + n > mem[b].size / 2 {
        return;
      }
      BreakShown(mem, blocks, base, end, i, n);
      CutOwners(blocks, base, end, i, HEADER + n, blocks[i].tag, false);
      BreakAt(blocks, i, n);
      IndexOf(blocks, base, end, |blocks| - 1);
      if i + 1 < |blocks| {
        NextShown(mem, blocks, i + 1);
        RunBounds(blocks, base, end, i + 1);
      }
      ghost var m := mem;
      var p := mem[b].mem + n;
      var newBlock := Header(mem[b].next, b, mem[b].size - n - HEADER, false, p + HEADER);
      mem := mem[p := newBlock][b := mem[b].(size := n, next := p)];
      if newBlock.next != 0 {
        mem := mem[newBlock.next := mem[newBlock.next].(prev := p)];
      }
      if last == b {
        last := p;
      }
      assert mem == BreakMem(m, b, n);
      blocks := Break(blocks, i, n);
    }

    /** First fit from the start block; the sanity check passes on every block it meets. */
    method Search(n: nat) returns (block: nat)
      requires Valid()
      ensures block == StartAt(blocks, FirstFit(blocks, SearchFrom(View()), n))
    {
      hide Tiles, Represents, Index, BlocksOk, Apart, BlockSane, Aligned, PageAligned;
      block := head;
      var prev := 0;
      ghost var k: nat := 0;
      if start != 0 {
        block := FindBlock(start);
        k := Index(blocks, start);
        NextShown(mem, blocks, k);
        prev := mem[block].prev;
      }
      while block != 0
        invariant k <= |blocks| && block == StartAt(blocks, k)
        invariant prev == if k > 0 then blocks[k - 1].start else 0
        invariant FirstFit(blocks, k, n) == FirstFit(blocks, SearchFrom(View()), n)
        decreases |blocks| - k
      {
        NextShown(mem, blocks, k);
        SaneAlways(mem, blocks, base, end, k);
        assert BlockSane(mem, head, memTail, prev, block);
        if !mem[block].used && mem[block].size >= n {
          return;
        }
        prev, block := block, mem[block].next;
        k := k + 1;
      }
      if k < |blocks| {
        RunBounds(blocks, base, end, k);
      }
    }

    /** `km_expand`: the tail moves by the product, unless that is above the top. */
    method Grow(pages: nat) returns (ok: bool)
      modifies `memTail
      ensures ok == (GrownTo(old(memTail), pages) <= top)
      ensures memTail == if ok then GrownTo(old(memTail), pages) else old(memTail)
    {
      var to := (memTail + Product(pages)) % WORD;
      if to > top {
        return false;
      }
      memTail := to;
      return true;
    }

    /** A block marked used for `n` bytes: the first fit, or new pages; 0 when refused. */
    method Obtain(size: Size) returns (block: nat)
      requires Valid()
      modifies `mem, `head, `last, `memTail, `blocks, `end
      ensures Linked()
      ensures var h, n := old(View()), Align16(size); var i := FirstFit(h.blocks, SearchFrom(h), n);
              if Fits(h, n) then
                block == h.blocks[i].start && blocks == Retag(h.blocks, i, true) && memTail == h.tail
              else if Refused(h, n, top) then
                block == 0 && View() == h && end == old(end)
              else
                && block == h.tail && blocks == h.blocks + [Run(h.tail, PagesFor(n) * PAGE_SIZE, true)]
                && memTail == GrownTo(h.tail, PagesFor(n)) && PagesFor(n) * PAGE_SIZE >= HEADER + n
    {
      hide Tiles, Represents, Index, BlocksOk, Apart, Aligned, PageAligned, PagesFor, GrownTo, Good, SearchFrom;
      ghost var h := View();
      var n := Align16(size);
      SearchEnds(h, n);
      HeapParts(h, base, top);
      ghost var i := FirstFit(blocks, SearchFrom(h), n);
      block := Search(n);
      if i < |blocks| {
        RunBounds(blocks, base, end, i);
        IndexOf(blocks, base, end, i);
      }
      if block != 0 {
        MarkUsed(block);
      } else {
        SizeCountable(size);
        PagesSuffice(n);
        var pages := PagesFor(n);
        var p := memTail;
        var ok := Grow(pages);
        if ok {
          Expand(p, pages, n);
          block := p;
        }
      }
    }

    method Malloc(size: Size) returns (p: nat)
      requires Valid()
      modifies this
      ensures (View(), p) == TrunkHeap.Malloc(old(View()), size, top)
      ensures Valid() <==> SafeAlloc(old(View()), size, top)
    {
      hide Tiles, Represents, Index, BlocksOk, Apart, Aligned, PageAligned, PagesFor, Live, Break, Cut, Take, GrownTo;
      hide Good, SearchFrom, Refused;
      ghost var h := View();
      var n := Align16(size);
      MallocExact(h, size, base, top);
      HeapParts(h, base, top);
      ghost var i := FirstFit(blocks, SearchFrom(h), n);
      var block := Obtain(size);
      if block == 0 {
        if i < |h.blocks| {
          RunBounds(h.blocks, base, h.tail, i);
        }
        return 0;
      }
      TakeIsBreak(h, n, i, blocks, base, end);
      TryBreak(block, n);
      NextShown(mem, blocks, i);
      start := mem[block].next;
      p := mem[block].mem;
      if SafeAlloc(h, size, top) {
        SameEnd(View(), base, top, end);
      }
    }

    method MarkUsed(b: nat)
      requires Linked() && IsBlock(blocks, b)
      modifies `mem, `blocks
      ensures Linked() && blocks == Retag(old(blocks), Index(old(blocks), b), true)
    {
      hide Tiles, Represents, Index, OwnerAt;
      ghost var i := Index(blocks, b);
      NextShown(mem, blocks, i);
      RetagShown(mem, blocks, base, end, i, true);
      RetagOwners(blocks, base, end, i, true);
      mem := mem[b := mem[b].(used := true)];
      blocks := Retag(blocks, i, true);
    }

    /** A fresh used block over `pages` new pages at `p`, linked after the last one. */
    method Expand(p: nat, pages: nat, ghost n: nat)
      requires Linked() && p == end && PageAligned(end) && pages * PAGE_SIZE >= HEADER + n
      modifies `mem, `head, `last, `end, `blocks
      ensures Linked() && end == old(end) + pages * PAGE_SIZE
      ensures blocks == old(blocks) + [Run(p, pages * PAGE_SIZE, true)]
    {
      hide Tiles, Represents, OwnerAt, Aligned, PageAligned;
      ghost var m := mem;
      ghost var b: Block := Run(p, pages * PAGE_SIZE, true);
      PagesAligned(end, pages);
      AppendShown(mem, blocks, base, end, b);
      AppendTiles(blocks, base, end, b);
      if blocks != [] {
        NextShown(mem, blocks, |blocks| - 1);
        RunBounds(blocks, base, end, |blocks| - 1);
        RunBounds(blocks, base, end, 0);
      }
      end := end + pages * PAGE_SIZE;
      mem := mem[p := Header(0, 0, pages * PAGE_SIZE - HEADER, true, p + HEADER)];
      if head == 0 {
        head := p;
      }
      if last == 0 {
        last := p;
      } else {
        mem := mem[last := mem[last].(next := p)];
        mem := mem[p := mem[p].(prev := last)];
        last := p;
      }
      assert mem == AppendMem(m, TailOf(blocks), p, pages * PAGE_SIZE - HEADER);
      blocks := blocks + [b];
    }

    /** Fold the right neighbour of `a` into it. */
    method Absorb(a: nat, ghost i: nat)
      requires Linked() && i + 1 < |blocks| && a == blocks[i].start && !blocks[i].tag
      modifies `mem, `last, `blocks
      ensures Linked() && blocks == Join(old(blocks), i, false)
    {
      hide Tiles, Represents, OwnerAt, BlocksOk;
      ghost var m := mem;
      JoinShown(mem, blocks, base, end, i);
      JoinOwners(blocks, base, end, i, false);
      if i + 2 < |blocks| {
        NextShown(mem, blocks, i + 2);
        RunBounds(blocks, base, end, i + 2);
        RunsOrdered(blocks, base, end, i, i + 2);
      }
      RunBounds(blocks, base, end, i);
      var b := mem[a].next;
      mem := mem[a := mem[a].(size := mem[a].size + (mem[b].size + HEADER), next := mem[b].next)];
      if mem[a].next != 0 {
        mem := mem[mem[a].next := mem[mem[a].next].(prev := a)];
      } else {
        last := a;
      }
      assert mem == JoinMem(m, a, b);
      blocks := Join(blocks, i, false);
    }

    /** Merge a freshly freed block with its free neighbours, the right one first. */
    method TryMerge(block: nat, ghost i: nat) returns (r: nat)
      requires Linked() && i < |blocks| && block == blocks[i].start && !blocks[i].tag
      modifies `mem, `last, `blocks
      ensures Linked()
      ensures blocks == MergePrev(MergeNext(old(blocks), i), i).0
      ensures var k := MergePrev(MergeNext(old(blocks), i), i).1; k < |blocks| && r == blocks[k].start
    {
      hide Tiles, Represents, BlocksOk;
      r := block;
      NextShown(mem, blocks, i);
      if i + 1 < |blocks| {
        NextShown(mem, blocks, i + 1);
        RunBounds(blocks, base, end, i + 1);
      }
      var b := mem[block].next;
      if b != 0 && !mem[b].used {
        Absorb(block, i);
        NextShown(mem, blocks, i);
      }
      if i > 0 {
        NextShown(mem, blocks, i - 1);
        RunBounds(blocks, base, end, i - 1);
      }
      b := mem[block].prev;
      if b != 0 && !mem[b].used {
        Absorb(b, i - 1);
        r := b;
      }
    }

    /** Drop a free page-aligned tail block and give its pages back. */
    method TryShrink()
      requires Linked() && end == memTail <= TOP_MAX && PageAligned(end)
      modifies `mem, `head, `last, `memTail, `blocks, `end
      ensures Linked() && View() == Shrunk(old(View()))
    {
      hide Tiles, Represents, Live;
      if last == 0 {
        if blocks != [] {
          RunBounds(blocks, base, end, |blocks| - 1);
        }
        return;
      }
      ghost var n := |blocks| - 1;
      NextShown(mem, blocks, n);
      RunBounds(blocks, base, end, 0);
      if mem[last].used || last % PAGE_SIZE != 0 {
        return;
      }
      assert Droppable(blocks);
      ShrunkExact(View(), base);
      DropShown(mem, blocks, base, end);
      if n > 0 {
        RunBounds(blocks, base, end, n - 1);
      }
      var pages := (mem[last].size + HEADER) / PAGE_SIZE % PAGE_COUNT_WRAP;
      last := mem[last].prev;
      if last != 0 {
        mem := mem[last := mem[last].(next := 0)];
      } else {
        head := 0;
      }
      Release(pages);
      end := blocks[n].start;
      blocks := blocks[..n];
    }

    /** `km_shrink`. */
    method Release(pages: nat)
      modifies `memTail
      ensures memTail == (old(memTail) - Product(pages)) % WORD
    {
      memTail := (memTail - Product(pages)) % WORD;
    }

    method Free(p: nat)
      requires Valid()
      modifies this
      ensures View() == TrunkHeap.Free(old(View()), p)
      ensures Valid() <==> !TooLong(old(View()), p)
    {
      hide Tiles, Represents, Index, BlocksOk, Apart, Aligned, PageAligned, Live, MergeNext, MergePrev, Shrunk,
          TooLong, Good;
      ghost var h := View();
      FreeExact(h, p, base, top);
      HeapParts(h, base, top);
      if p < HEADER {
        return;
      }
      var block := FindBlock(p - HEADER);
      if block == 0 {
        NoBlockAtNull(blocks, base, end);
        return;
      }
      ghost var i := Index(blocks, block);
      NextShown(mem, blocks, i);
      if !mem[block].used {
        return;
      }
      FreedShape(blocks, i);
      FreedTiles(blocks, base, end, i);
      RestartIsBlock(blocks, base, end, i, start);
      MarkFree(block);
      block := TryMerge(block, i);
      ghost var k := Freed(h.blocks, i).1;
      NextShown(mem, blocks, k);
      if start == 0 || start >= block {
        start := mem[block].prev;
      }
      TryShrink();
      if !TooLong(h, p) {
        SameEnd(View(), base, top, end);
      }
    }

    method MarkFree(b: nat)
      requires Linked() && IsBlock(blocks, b)
      modifies `mem, `blocks
      ensures Linked() && blocks == Retag(old(blocks), Index(old(blocks), b), false)
    {
      hide Tiles, Represents, Index, OwnerAt;
      ghost var i := Index(blocks, b);
      NextShown(mem, blocks, i);
      RetagShown(mem, blocks, base, end, i, false);
      RetagOwners(blocks, base, end, i, false);
      mem := mem[b := mem[b].(used := false)];
      blocks := Retag(blocks, i, false);
    }

    /** `trunk_free_size`: the pages not yet claimed and every free payload. */
    method FreeBytes() returns (r: int)
      requires Valid()
      ensures r == FreeSize(View(), top)
    {
      hide Tiles, Represents, Index, BlocksOk, Apart, BlockSane, Aligned, PageAligned;
      r := top - memTail;
      var prev, block := 0, head;
      ghost var k: nat := 0;
      assert blocks[0..] == blocks;
      while block != 0
        invariant k <= |blocks| && block == StartAt(blocks, k)
        invariant prev == if k > 0 then blocks[k - 1].start else 0
        invariant r + FreePayload(blocks[k..]) == FreeSize(View(), top)
        decreases |blocks| - k
      {
        NextShown(mem, blocks, k);
        SaneAlways(mem, blocks, base, end, k);
        assert BlockSane(mem, head, memTail, prev, block);
        if !mem[block].used {
          r := r + mem[block].size;
        }
        assert blocks[k..][1..] == blocks[k + 1..];
        prev, block := block, mem[block].next;
        k := k + 1;
      }
      if k < |blocks| {
        RunBounds(blocks, base, end, k);
      }
    }
  }

  lemma HeapParts(h: Heap, base: nat, top: nat)
    requires Good(h, base, top)
    ensures Tiles(h.blocks, base, h.tail) && PageAligned(h.tail) && base <= h.tail <= top <= TOP_MAX && 0 < base
    ensures h.start != 0 ==> IsBlock(h.blocks, h.start)
  {
  }

  lemma SameEnd(h: Heap, base: nat, top: nat, end: nat)
    requires Good(h, base, top) && Tiles(h.blocks, base, end)
    ensures h.tail == end
  {
    TilesTotal(h.blocks, base, end);
    TilesTotal(h.blocks, base, h.tail);
  }

  lemma NextShown(m: Memory, bs: seq<Block>, k: nat)
    requires BlocksOk(bs) && Represents(m, bs) && k < |bs|
    ensures Shown(m, bs, k)
  {
  }

  /** Marking the found (or fresh) block used and then breaking it is `Take`. */
  lemma TakeIsBreak(h: Heap, n: nat, i: nat, bs: seq<Block>, base: nat, tail: nat)
    requires i <= |h.blocks| && Tiles(bs, base, tail) && i < |bs| && bs[i].tag
    requires bs[i].size >= HEADER
    ensures Index(bs, bs[i].start) == i
    ensures i < |h.blocks| && bs == Retag(h.blocks, i, true) ==> Break(bs, i, n) == Take(h.blocks, i, n)
    ensures Break(bs, i, n) == Take(bs, i, n)
    ensures |Break(bs, i, n)| > i && Break(bs, i, n)[i].start == bs[i].start
  {
    hide Index;
    IndexOf(bs, base, tail, i);
    assert Retag(bs, i, true) == bs;
  }

  lemma NoBlockAtNull(bs: seq<Block>, base: nat, tail: nat)
    requires Tiles(bs, base, tail) && 0 < base
    ensures !IsBlock(bs, 0)
  {
    if IsBlock(bs, 0) {
      RunBounds(bs, base, tail, Index(bs, 0));
    }
  }
}
