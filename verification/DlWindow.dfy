/** The anonymous mapping window of an address space: a slot bitmap, the pages mapped in it, and the
    page allocator they come from. Pages and slots are counted from the window's base. */
module DlWindow {
  const SLOTS: nat := 4096
  const PAGES_PER_SLOT: nat := 16
  const PAGE_SIZE: nat := 4096
  const SLOT_SIZE: nat := 0x10000
  const WINDOW_SIZE: nat := 0x10000000

  // ----- the bitmap, eight slots to a byte

  function Bit(k: nat): bv8
    requires k < 8
  {
    if k == 0 then 1 else if k == 1 then 2 else if k == 2 then 4 else if k == 3 then 8
    else if k == 4 then 16 else if k == 5 then 32 else if k == 6 then 64 else 128
  }

  predicate BitSet(b: bv8, k: nat)
    requires k < 8
  {
    b & Bit(k) != 0
  }

  function MarkByte(b: bv8, k: nat, used: bool): bv8
    requires k < 8
  {
    if used then b | Bit(k) else b & !Bit(k)
  }

  lemma MarkedByte(b: bv8, k: nat, used: bool, j: nat)
    requires k < 8 && j < 8
    ensures BitSet(MarkByte(b, k, used), j) == if j == k then used else BitSet(b, j)
  {
  }

  /** Slot `s` as the bytes tell it. */
  predicate SlotUsed(bytes: seq<bv8>, s: nat)
    requires s / 8 < |bytes|
  {
    BitSet(bytes[s / 8], s % 8)
  }

  function Mark(bytes: seq<bv8>, s: nat, used: bool): (r: seq<bv8>)
    requires s / 8 < |bytes|
    ensures |r| == |bytes|
  {
    bytes[s / 8 := MarkByte(bytes[s / 8], s % 8, used)]
  }

  /** Marking a slot changes that slot and no other. */
  lemma MarkOne(bytes: seq<bv8>, s: nat, used: bool, t: nat)
    requires s / 8 < |bytes| && t / 8 < |bytes|
    ensures SlotUsed(Mark(bytes, s, used), t) == if t == s then used else SlotUsed(bytes, t)
  {
    hide BitSet, MarkByte;
    SamePlace(s, t);
    MarkedByte(bytes[s / 8], s % 8, used, t % 8);
  }

  lemma SamePlace(s: nat, t: nat)
    ensures t == s <==> t / 8 == s / 8 && t % 8 == s % 8
  {
  }

  /** The bytes spell out `used`, slot by slot. */
  predicate Packed(bytes: seq<bv8>, used: seq<bool>) {
    |used| == 8 * |bytes| && forall s :: 0 <= s < |used| ==> used[s] == SlotUsed(bytes, s)
  }

  lemma MarkPacked(bytes: seq<bv8>, used: seq<bool>, s: nat, mark: bool)
    requires Packed(bytes, used) && s < |used|
    ensures Packed(Mark(bytes, s, mark), used[s := mark])
  {
    var r := used[s := mark];
    hide SlotUsed, Mark;
    forall t | 0 <= t < |r| ensures r[t] == SlotUsed(Mark(bytes, s, mark), t) {
      MarkOne(bytes, s, mark, t);
    }
  }

  lemma ClearPacked(n: nat)
    ensures Packed(seq(n, i => 0 as bv8), seq(8 * n, i => false))
  {
    var bytes, used := seq(n, i => 0 as bv8), seq(8 * n, i => false);
    forall t | 0 <= t < |used| ensures used[t] == SlotUsed(bytes, t) {
      assert bytes[t / 8] == 0;
      ZeroBit(t % 8);
    }
  }

  lemma ZeroBit(k: nat)
    requires k < 8
    ensures !BitSet(0, k)
  {
  }

  // ----- protection words

  datatype Access = ReadWrite | ReadOnly | KernelOnly

  const PROT_READ: nat := 1
  const PROT_WRITE: nat := 2
  const PROT_EXEC: nat := 4

  predicate Readable(prot: nat) {
    prot % 2 == 1
  }

  predicate Writable(prot: nat) {
    prot / 2 % 2 == 1
  }

  predicate Executable(prot: nat) {
    prot / 4 % 2 == 1
  }

  /** `dl_prot_ok`: no unknown bits, and nothing writable that is not readable. */
  predicate ProtOk(prot: nat) {
    prot < 8 && (Writable(prot) ==> Readable(prot))
  }

  function AccessOf(prot: nat): Access {
    if Writable(prot) then ReadWrite else if Readable(prot) then ReadOnly else KernelOnly
  }

  // ----- the first fit scan

  predicate FreeRun(used: seq<bool>, i: nat, n: nat) {
    i + n <= |used| && forall j :: i <= j < i + n ==> !used[j]
  }

  /** Skipping past the slot that broke the run loses no candidate: the result is the lowest start of
      a long enough free run, and the table's length exactly when there is none. */
  method FirstFit(bytes: seq<bv8>, ghost used: seq<bool>, n: nat) returns (start: nat)
    requires n > 0 && Packed(bytes, used)
    ensures start < |used| ==> FreeRun(used, start, n)
    ensures forall i: nat :: i < start ==> !FreeRun(used, i, n)
    ensures start <= |used|
    ensures start == |used| <==> forall i: nat :: !FreeRun(used, i, n)
  {
    hide SlotUsed;
    var i, slots := 0, 8 * |bytes|;
    while i + n <= slots
      invariant 0 <= i <= |used| + 1
      invariant forall j: nat :: j < i ==> !FreeRun(used, j, n)
      decreases |used| + 1 - i
    {
      var k := 0;
      while k < n && !SlotUsed(bytes, i + k)
        invariant 0 <= k <= n && forall j :: i <= j < i + k ==> !used[j]
      {
        k := k + 1;
      }
      if k == n {
        return i;
      }
      forall j: nat | i <= j <= i + k ensures !FreeRun(used, j, n) {
        assert used[i + k];
      }
      i := i + k;
      i := i + 1;
    }
    forall j: nat ensures !FreeRun(used, j, n) {
    }
    return slots;
  }

  // ----- one space's window

  datatype Pte = Pte(frame: nat, access: Access, exec: bool)

  function SlotOf(page: nat): nat {
    page / PAGES_PER_SLOT
  }

  function SlotsFor(size: nat): nat {
    (size + SLOT_SIZE - 1) / SLOT_SIZE
  }

  predicate RangeOk(base: nat, vaddr: nat, size: nat) {
    size > 0 && vaddr % PAGE_SIZE == 0 && base <= vaddr && vaddr + size <= base + WINDOW_SIZE
  }

  /** Page number of `vaddr` in the window, and the first page not touched by a range. */
  function FirstPage(base: nat, vaddr: nat): nat
    requires base <= vaddr
  {
    (vaddr - base) / PAGE_SIZE
  }

  function EndPage(base: nat, vaddr: nat, size: nat): nat
    requires base <= vaddr
  {
    (vaddr - base + size + PAGE_SIZE - 1) / PAGE_SIZE
  }

  predicate Whole(base: nat, vaddr: nat, size: nat, slot: nat) {
    base + slot * SLOT_SIZE >= vaddr && base + (slot + 1) * SLOT_SIZE <= vaddr + size
  }

  predicate NoDup(q: seq<nat>) {
    forall i, j :: 0 <= i < j < |q| ==> q[i] != q[j]
  }

  /** Every mapped page lies in a marked slot and has a frame of its own, counted once; free frames
      are counted zero times. */
  predicate Sound(used: seq<bool>, maps: map<nat, Pte>, free: seq<nat>, refs: map<nat, nat>) {
    && |used| == SLOTS && NoDup(free)
    && (forall i :: 0 <= i < |free| ==> free[i] in refs && refs[free[i]] == 0)
    && (forall p :: p in maps ==> p < SLOTS * PAGES_PER_SLOT && used[SlotOf(p)])
    && (forall p :: p in maps ==> maps[p].frame in refs && refs[maps[p].frame] == 1)
    && (forall p, q :: p in maps && q in maps && p != q ==> maps[p].frame != maps[q].frame)
  }

  lemma MapSound(used: seq<bool>, maps: map<nat, Pte>, free: seq<nat>, refs: map<nat, nat>, page: nat, access: Access,
      exec: bool)
    requires Sound(used, maps, free, refs) && free != [] && page !in maps && page < SLOTS * PAGES_PER_SLOT
        && used[SlotOf(page)]
    ensures Sound(used, maps[page := Pte(free[0], access, exec)], free[1..], refs[free[0] := 1])
  {
  }

  lemma UnmapSound(used: seq<bool>, maps: map<nat, Pte>, free: seq<nat>, refs: map<nat, nat>, page: nat)
    requires Sound(used, maps, free, refs) && page in maps
    ensures Sound(used, maps - {page}, [maps[page].frame] + free, refs[maps[page].frame := 0])
  {
  }

  /** The run's slots marked, or not. */
  function Marked(used: seq<bool>, start: nat, n: nat, mark: bool): (r: seq<bool>)
    ensures |r| == |used|
  {
    seq(|used|, i requires 0 <= i < |used| => if start <= i < start + n then mark else used[i])
  }

  /** `maps` is `m0` with pages [lo, hi) added on the frames `fs`, counted from page `first`. */
  ghost predicate Filled(maps: map<nat, Pte>, m0: map<nat, Pte>, first: nat, lo: nat, hi: nat, fs: seq<nat>,
      access: Access, exec: bool)
    requires lo <= hi <= |fs|
  {
    && (forall p :: p in maps <==> p in m0 || first + lo <= p < first + hi)
    && (forall p :: p in m0 ==> maps[p] == m0[p])
    && (forall p :: first + lo <= p < first + hi ==> maps[p] == Pte(fs[p - first], access, exec))
  }

  /** `refs` is `r0` with the frames `fs[lo..hi]` counted once. */
  predicate Bumped(refs: map<nat, nat>, r0: map<nat, nat>, fs: seq<nat>, lo: nat, hi: nat)
    requires lo <= hi <= |fs|
  {
    refs.Keys == r0.Keys && forall f :: f in r0 ==> refs[f] == if f in fs[lo..hi] then 1 else r0[f]
  }

  class Space {
    const base: nat
    var bytes: seq<bv8>
    ghost var used: seq<bool>
    var maps: map<nat, Pte>
    var free: seq<nat>
    var refs: map<nat, nat>

    ghost predicate Valid()
      reads this
    {
      base > 0 && base % SLOT_SIZE == 0 && Packed(bytes, used) && Sound(used, maps, free, refs)
    }

    constructor (lo: nat, frames: seq<nat>)
      requires lo > 0 && lo % SLOT_SIZE == 0 && NoDup(frames)
      ensures Valid() && base == lo && maps == map[] && free == frames && (forall s :: 0 <= s < SLOTS ==> !used[s])
    {
      base := lo;
      ClearPacked(SLOTS / 8);
      bytes := seq(SLOTS / 8, i => 0);
      used := seq(8 * (SLOTS / 8), i => false);
      maps := map[];
      free := frames;
      refs := map f | f in frames :: 0;
    }

    /** `kalloc_page` and `map_page_ref`. */
    method MapFresh(page: nat, access: Access, exec: bool)
      requires free != [] && free[0] in refs
      modifies `maps, `free, `refs
      ensures free == old(free)[1..] && refs == old(refs)[old(free)[0] := old(refs)[old(free)[0]] + 1]
      ensures maps == old(maps)[page := Pte(old(free)[0], access, exec)]
    {
      var f := free[0];
      free := free[1..];
      maps := maps[page := Pte(f, access, exec)];
      refs := refs[f := refs[f] + 1];
    }

    /** `unmap_page_ref`: the last reference gives the frame back. */
    method Unmap(page: nat)
      requires page in maps && maps[page].frame in refs
      modifies `maps, `free, `refs
      ensures maps == old(maps) - {page}
      ensures var f := old(maps)[page].frame; var n := old(refs)[f];
              refs == old(refs)[f := if n > 0 then n - 1 else 0]
                  && free == if n <= 1 then [f] + old(free) else old(free)
    {
      var f := maps[page].frame;
      if refs[f] > 0 {
        refs := refs[f := refs[f] - 1];
      } else {
        refs := refs[f := 0];
      }
      if refs[f] == 0 {
        free := [f] + free;
      }
      maps := maps - {page};
    }

    /** Undo a partial run: unmap pages [0, p) of it again. */
    method UnmapRun(first: nat, p: nat, access: Access, exec: bool, ghost target: seq<bool>,
                    ghost m0: map<nat, Pte>, ghost r0: map<nat, nat>, ghost fs: seq<nat>)
      requires Sound(target, maps, free, refs) && p <= |fs| && free == fs[p..] && NoDup(fs)
      requires Filled(maps, m0, first, 0, p, fs, access, exec) && Bumped(refs, r0, fs, 0, p)
      requires forall j :: 0 <= j < |fs| ==> fs[j] in r0 && r0[fs[j]] == 0
      requires forall q :: first <= q < first + p ==> q !in m0
      modifies `maps, `free, `refs
      ensures Sound(target, maps, free, refs) && maps == m0 && refs == r0 && multiset(free) == multiset(fs)
    {
      hide Sound, Filled, Bumped, NoDup;
      var i := 0;
      while i < p
        invariant 0 <= i <= p && Sound(target, maps, free, refs)
        invariant Filled(maps, m0, first, i, p, fs, access, exec) && Bumped(refs, r0, fs, i, p)
        invariant multiset(free) == multiset(fs[..i]) + multiset(fs[p..])
      {
        FilledLess(maps, m0, first, i, p, fs, access, exec);
        SoundCount(target, maps, free, refs, first + i);
        UnmapSound(target, maps, free, refs, first + i);
        BumpedLess(refs, r0, fs, i, p);
        OneMore(fs, i);
        Unmap(first + i);
        i := i + 1;
      }
      FilledNone(maps, m0, first, p, fs, access, exec);
      BumpedNone(refs, r0, fs, p);
      Rejoined(fs, p);
    }

    /** Map `n` fresh pages from page `first` on, all or none. `tables`: how many page-table entries
        can be had. `target` is the marking the run is about to get. */
    method MapRun(first: nat, n: nat, access: Access, exec: bool, tables: nat, ghost target: seq<bool>)
        returns (ok: bool)
      requires Sound(target, maps, free, refs) && first + n <= SLOTS * PAGES_PER_SLOT
      requires forall p :: first <= p < first + n ==> p !in maps && target[SlotOf(p)]
      modifies `maps, `free, `refs
      ensures Sound(target, maps, free, refs)
      ensures ok <==> n <= |old(free)| && n <= tables
      ensures ok ==> free == old(free)[n..] && Filled(maps, old(maps), first, 0, n, old(free), access, exec)
      ensures !ok ==> maps == old(maps) && refs == old(refs) && multiset(free) == multiset(old(free))
    {
      hide Sound, Filled, Bumped, NoDup, SlotOf;
      ghost var m0, r0, fs := maps, refs, free;
      RunStarts(target, maps, free, refs, first, access, exec);
      var p := 0;
      while p < n && free != [] && p < tables
        invariant 0 <= p <= n && p <= |fs| && p <= tables && free == fs[p..]
        invariant Sound(target, maps, free, refs)
        invariant Filled(maps, m0, first, 0, p, fs, access, exec) && Bumped(refs, r0, fs, 0, p)
      {
        FilledMore(maps, m0, first, p, fs, access, exec);
        SoundHead(target, maps, free, refs);
        MapSound(target, maps, free, refs, first + p, access, exec);
        BumpedMore(refs, r0, fs, p);
        MapFresh(first + p, access, exec);
        p := p + 1;
      }
      if p == n {
        return true;
      }
      UnmapRun(first, p, access, exec, target, m0, r0, fs);
      return false;
    }

    /** `dl_window_alloc`: the lowest long enough run of free slots, mapped whole or not at all. */
    method Alloc(size: nat, prot: nat, tables: nat) returns (addr: nat, ghost start: nat)
      requires Valid()
      modifies `bytes, `used, `maps, `free, `refs
      ensures Valid()
      ensures addr == 0 <==> || !ProtOk(prot) || size == 0 || size > WINDOW_SIZE
                             || (forall i: nat :: !FreeRun(old(used), i, SlotsFor(size)))
                             || SlotsFor(size) * PAGES_PER_SLOT > |old(free)|
                             || SlotsFor(size) * PAGES_PER_SLOT > tables
      ensures addr == 0 ==> used == old(used) && maps == old(maps)
      ensures addr == 0 ==> refs == old(refs) && multiset(free) == multiset(old(free))
      ensures addr != 0 ==> && addr == base + start * SLOT_SIZE && FreeRun(old(used), start, SlotsFor(size))
                            && (forall i: nat :: i < start ==> !FreeRun(old(used), i, SlotsFor(size)))
      ensures addr != 0 ==> && used == Marked(old(used), start, SlotsFor(size), true)
                            && SlotsFor(size) * PAGES_PER_SLOT <= |old(free)|
                            && free == old(free)[SlotsFor(size) * PAGES_PER_SLOT..]
                            && Filled(maps, old(maps), start * PAGES_PER_SLOT, 0, SlotsFor(size) * PAGES_PER_SLOT,
                                      old(free), AccessOf(prot), Executable(prot))
    {
      hide Sound, Filled, Packed;
      addr, start := 0, 0;
      if !ProtOk(prot) || size == 0 || size > WINDOW_SIZE {
        return;
      }
      var n := SlotsFor(size);
      SoundSize(used, maps, free, refs);
      var s := FirstFit(bytes, used, n);
      if s >= SLOTS {
        return;
      }
      start := s;
      ghost var target := Marked(used, s, n, true);
      RunIsClear(used, maps, free, refs, s, n);
      var ok := MapRun(s * PAGES_PER_SLOT, n * PAGES_PER_SLOT, AccessOf(prot), Executable(prot), tables, target);
      if !ok {
        RestoreSound(used, old(maps), old(free), old(refs), free);
        return;
      }
      var i := 0;
      while i < n
        invariant 0 <= i <= n && |used| == SLOTS && used == Marked(old(used), s, i, true) && Packed(bytes, used)
        modifies `used, `bytes
      {
        PackedSize(bytes, used);
        MarkPacked(bytes, used, s + i, true);
        bytes := Mark(bytes, s + i, true);
        used := used[s + i := true];
        i := i + 1;
      }
      addr := base + s * SLOT_SIZE;
    }

    /** `dl_window_protect`: the whole range is looked at before any entry changes. */
    method Protect(vaddr: nat, size: nat, prot: nat) returns (ok: bool)
      requires Valid()
      modifies `maps
      ensures Valid()
      ensures ok <==> ProtOk(prot) && RangeOk(base, vaddr, size)
                      && forall p :: FirstPage(base, vaddr) <= p < EndPage(base, vaddr, size) ==> p in old(maps)
      ensures !ok ==> maps == old(maps)
      ensures ok ==> maps == Reprotected(old(maps), FirstPage(base, vaddr), EndPage(base, vaddr, size), prot)
    {
      hide Sound;
      if !ProtOk(prot) || !RangeOk(base, vaddr, size) {
        return false;
      }
      var first, end := FirstPage(base, vaddr), EndPage(base, vaddr, size);
      ok := AllMapped(first, end);
      if ok {
        Repermit(first, end, prot);
      }
    }

    method AllMapped(first: nat, end: nat) returns (all: bool)
      ensures all <==> forall p :: first <= p < end ==> p in maps
    {
      var p := first;
      while p < end
        invariant first <= p && forall q :: first <= q < p ==> q in maps
      {
        if p !in maps {
          return false;
        }
        p := p + 1;
      }
      return true;
    }

    method Repermit(first: nat, end: nat, prot: nat)
      requires Sound(used, maps, free, refs) && forall p :: first <= p < end ==> p in maps
      modifies `maps
      ensures Sound(used, maps, free, refs) && maps == Reprotected(old(maps), first, end, prot)
    {
      hide Sound;
      var p := first;
      assert maps == Reprotected(maps, first, first, prot);
      while p < end
        invariant first <= p && (p <= end || p == first) && maps == Reprotected(old(maps), first, p, prot)
      {
        maps := maps[p := Pte(maps[p].frame, AccessOf(prot), Executable(prot))];
        p := p + 1;
      }
      ReprotectedSound(used, old(maps), free, refs, first, end, prot);
      assert Reprotected(old(maps), first, p, prot) == Reprotected(old(maps), first, end, prot);
    }

    /** `dl_window_free`: the pages go, and the slots the range covers whole are free again. */
    method Free(vaddr: nat, size: nat) returns (ok: bool)
      requires Valid()
      modifies `bytes, `used, `maps, `free, `refs
      ensures Valid() && ok == RangeOk(base, vaddr, size)
      ensures !ok ==> used == old(used) && maps == old(maps) && free == old(free) && refs == old(refs)
      ensures ok ==> maps == Dropped(old(maps), FirstPage(base, vaddr), EndPage(base, vaddr, size))
      ensures ok ==>
        Frames(free) == Frames(old(free)) + FramesOf(old(maps), FirstPage(base, vaddr), EndPage(base, vaddr, size))
      ensures ok ==> |used| == |old(used)| && forall s :: 0 <= s < SLOTS ==>
          used[s] == (old(used)[s] && !Whole(base, vaddr, size, s))
    {
      if !RangeOk(base, vaddr, size) {
        return false;
      }
      hide Sound, Packed;
      SoundSize(used, maps, free, refs);
      var first, end := FirstPage(base, vaddr), EndPage(base, vaddr, size);
      DropPages(first, end);
      var s := (vaddr - base) / SLOT_SIZE;
      NotWholeBefore(base, vaddr, size, s);
      while s < SLOTS && base + s * SLOT_SIZE < vaddr + size
        invariant |used| == SLOTS && s <= SLOTS && Sound(used, maps, free, refs) && Packed(bytes, used)
        invariant Frames(free) == Frames(old(free)) + FramesOf(old(maps), first, end)
        invariant forall t :: 0 <= t < s ==> used[t] == (old(used)[t] && !Whole(base, vaddr, size, t))
        invariant forall t :: s <= t < SLOTS ==> used[t] == old(used)[t]
        invariant maps == Dropped(old(maps), first, end)
      {
        if base + s * SLOT_SIZE >= vaddr && base + s * SLOT_SIZE + SLOT_SIZE <= vaddr + size {
          WholeIsDropped(base, vaddr, size, s, old(maps));
          UnmarkSound(used, maps, free, refs, s);
          PackedSize(bytes, used);
          MarkPacked(bytes, used, s, false);
          bytes := Mark(bytes, s, false);
          used := used[s := false];
        }
        s := s + 1;
      }
      forall t | s <= t < SLOTS ensures !Whole(base, vaddr, size, t) {
      }
      return true;
    }

    method DropPages(first: nat, end: nat)
      requires Sound(used, maps, free, refs) && first <= end
      modifies `maps, `free, `refs
      ensures Sound(used, maps, free, refs) && maps == Dropped(old(maps), first, end)
      ensures Frames(free) == Frames(old(free)) + FramesOf(old(maps), first, end)
    {
      hide Sound;
      var p := first;
      assert maps == Dropped(maps, first, first) && FramesOf(maps, first, first) == {};
      while p < end
        invariant first <= p <= end && Sound(used, maps, free, refs) && maps == Dropped(old(maps), first, p)
        invariant Frames(free) == Frames(old(free)) + FramesOf(old(maps), first, p)
      {
        FramesMore(old(maps), first, p);
        if p in maps {
          SoundCount(used, maps, free, refs, p);
          UnmapSound(used, maps, free, refs, p);
          FramesFront(maps[p].frame, free);
          Unmap(p);
        }
        p := p + 1;
      }
    }

    /** `dl_window_release`: afterwards no page is mapped, no slot is marked and every frame is free. */
    method Release()
      requires Valid()
      modifies `bytes, `used, `maps, `free, `refs
      ensures Valid() && maps == map[] && forall s :: 0 <= s < SLOTS ==> !used[s]
      ensures Frames(free) == Frames(old(free)) + FramesOf(old(maps), 0, SLOTS * PAGES_PER_SLOT)
    {
      hide Sound, Packed, SlotUsed, Dropped, FramesOf;
      SoundSize(used, maps, free, refs);
      NothingYet(maps);
      var s := 0;
      while s < SLOTS
        invariant 0 <= s <= SLOTS && Sound(used, maps, free, refs) && |used| == SLOTS && Packed(bytes, used)
        invariant forall t :: 0 <= t < s ==> !used[t]
        invariant maps == Dropped(old(maps), 0, s * PAGES_PER_SLOT)
        invariant Frames(free) == Frames(old(free)) + FramesOf(old(maps), 0, s * PAGES_PER_SLOT)
      {
        PackedAt(bytes, used, s);
        NothingBelow(used, maps, free, refs, s);
        SlotNext(old(maps), maps, s);
        ghost var before := maps;
        if SlotUsed(bytes, s) {
          DropPages(s * PAGES_PER_SLOT, (s + 1) * PAGES_PER_SLOT);
          SlotEmptied(before, s);
          UnmarkSound(used, maps, free, refs, s);
          PackedSize(bytes, used);
          MarkPacked(bytes, used, s, false);
          bytes := Mark(bytes, s, false);
          used := used[s := false];
        }
        s := s + 1;
      }
      NothingMapped(used, maps, free, refs);
    }
  }

  ghost function Frames(free: seq<nat>): set<nat> {
    set f | f in free
  }

  /** The frames under pages [lo, hi). */
  function FramesOf(maps: map<nat, Pte>, lo: nat, hi: nat): set<nat> {
    set p | p in maps && lo <= p < hi :: maps[p].frame
  }

  lemma FramesMore(maps: map<nat, Pte>, lo: nat, p: nat)
    requires lo <= p
    ensures FramesOf(maps, lo, p + 1) == FramesOf(maps, lo, p) + (if p in maps then {maps[p].frame} else {})
  {
  }

  lemma FramesFront(f: nat, free: seq<nat>)
    ensures Frames([f] + free) == Frames(free) + {f}
  {
  }

  lemma NothingYet(maps: map<nat, Pte>)
    ensures Dropped(maps, 0, 0) == maps && FramesOf(maps, 0, 0) == {}
  {
  }

  /** Dropping a slot's pages after all before it; a slot without pages changes nothing. */
  lemma SlotNext(m0: map<nat, Pte>, maps: map<nat, Pte>, s: nat)
    requires maps == Dropped(m0, 0, s * PAGES_PER_SLOT)
    ensures Dropped(maps, s * PAGES_PER_SLOT, (s + 1) * PAGES_PER_SLOT) == Dropped(m0, 0, (s + 1) * PAGES_PER_SLOT)
    ensures FramesOf(m0, 0, (s + 1) * PAGES_PER_SLOT)
         == FramesOf(m0, 0, s * PAGES_PER_SLOT) + FramesOf(maps, s * PAGES_PER_SLOT, (s + 1) * PAGES_PER_SLOT)
    ensures (forall p :: p in maps ==> SlotOf(p) != s) ==>
              && Dropped(m0, 0, (s + 1) * PAGES_PER_SLOT) == maps
              && FramesOf(m0, 0, (s + 1) * PAGES_PER_SLOT) == FramesOf(m0, 0, s * PAGES_PER_SLOT)
  {
    var a, b := s * PAGES_PER_SLOT, (s + 1) * PAGES_PER_SLOT;
    forall p: nat ensures SlotOf(p) == s <==> a <= p < b {
    }
    hide SlotOf;
    assert Dropped(maps, a, b) == Dropped(m0, 0, b);
    FramesSplit(m0, maps, a, b);
    if forall p :: p in maps ==> SlotOf(p) != s {
      assert Dropped(m0, 0, b) == maps;
      assert FramesOf(maps, a, b) == {};
    }
  }

  lemma FramesSplit(m0: map<nat, Pte>, maps: map<nat, Pte>, a: nat, b: nat)
    requires a <= b && maps == Dropped(m0, 0, a)
    ensures FramesOf(m0, 0, b) == FramesOf(m0, 0, a) + FramesOf(maps, a, b)
  {
    forall f ensures f in FramesOf(m0, 0, b) <==> f in FramesOf(m0, 0, a) + FramesOf(maps, a, b) {
      if f in FramesOf(m0, 0, b) {
        var p :| p in m0 && 0 <= p < b && m0[p].frame == f;
        assert p < a || (p in maps && maps[p].frame == f);
      }
    }
  }

  lemma PackedSize(bytes: seq<bv8>, used: seq<bool>)
    requires Packed(bytes, used)
    ensures |used| == 8 * |bytes|
  {
  }

  lemma PackedAt(bytes: seq<bv8>, used: seq<bool>, s: nat)
    requires Packed(bytes, used) && s < |used|
    ensures s / 8 < |bytes| && used[s] == SlotUsed(bytes, s)
  {
  }

  lemma RunStarts(used: seq<bool>, maps: map<nat, Pte>, free: seq<nat>, refs: map<nat, nat>, first: nat,
      access: Access, exec: bool)
    requires Sound(used, maps, free, refs)
    ensures NoDup(free) && forall j :: 0 <= j < |free| ==> free[j] in refs && refs[free[j]] == 0
    ensures Filled(maps, maps, first, 0, 0, free, access, exec) && Bumped(refs, refs, free, 0, 0)
  {
  }

  lemma SoundHead(used: seq<bool>, maps: map<nat, Pte>, free: seq<nat>, refs: map<nat, nat>)
    requires Sound(used, maps, free, refs) && free != []
    ensures |used| == SLOTS && free[0] in refs && refs[free[0]] == 0
  {
  }

  lemma SoundCount(used: seq<bool>, maps: map<nat, Pte>, free: seq<nat>, refs: map<nat, nat>, page: nat)
    requires Sound(used, maps, free, refs) && page in maps
    ensures maps[page].frame in refs && refs[maps[page].frame] == 1
  {
  }

  lemma FilledNone(maps: map<nat, Pte>, m0: map<nat, Pte>, first: nat, p: nat, fs: seq<nat>, access: Access, exec: bool)
    requires p <= |fs| && Filled(maps, m0, first, p, p, fs, access, exec)
    ensures maps == m0
  {
  }

  lemma BumpedNone(refs: map<nat, nat>, r0: map<nat, nat>, fs: seq<nat>, p: nat)
    requires p <= |fs| && Bumped(refs, r0, fs, p, p)
    ensures refs == r0
  {
  }

  lemma FilledMore(maps: map<nat, Pte>, m0: map<nat, Pte>, first: nat, p: nat, fs: seq<nat>, access: Access, exec: bool)
    requires p < |fs| && Filled(maps, m0, first, 0, p, fs, access, exec) && first + p !in m0
    ensures first + p !in maps
    ensures Filled(maps[first + p := Pte(fs[p], access, exec)], m0, first, 0, p + 1, fs, access, exec)
  {
  }

  lemma FilledLess(maps: map<nat, Pte>, m0: map<nat, Pte>, first: nat, i: nat, p: nat, fs: seq<nat>, access: Access,
      exec: bool)
    requires i < p <= |fs| && Filled(maps, m0, first, i, p, fs, access, exec) && first + i !in m0
    ensures first + i in maps && maps[first + i].frame == fs[i]
    ensures Filled(maps - {first + i}, m0, first, i + 1, p, fs, access, exec)
  {
  }

  lemma BumpedMore(refs: map<nat, nat>, r0: map<nat, nat>, fs: seq<nat>, p: nat)
    requires p < |fs| && Bumped(refs, r0, fs, 0, p) && fs[p] in r0
    ensures Bumped(refs[fs[p] := 1], r0, fs, 0, p + 1)
  {
    assert fs[0..p + 1] == fs[0..p] + [fs[p]];
  }

  lemma BumpedLess(refs: map<nat, nat>, r0: map<nat, nat>, fs: seq<nat>, i: nat, p: nat)
    requires i < p <= |fs| && NoDup(fs) && Bumped(refs, r0, fs, i, p) && fs[i] in r0 && r0[fs[i]] == 0
    ensures Bumped(refs[fs[i] := 0], r0, fs, i + 1, p)
  {
    assert fs[i..p] == [fs[i]] + fs[i + 1..p];
    forall f | f in r0 && f != fs[i] ensures f in fs[i..p] <==> f in fs[i + 1..p] {
    }
    assert fs[i] !in fs[i + 1..p];
  }

  // ----- the pieces those proofs use

  lemma OneMore(fs: seq<nat>, i: nat)
    requires i < |fs|
    ensures multiset(fs[..i + 1]) == multiset(fs[..i]) + multiset{fs[i]}
  {
    assert fs[..i + 1] == fs[..i] + [fs[i]];
  }

  lemma Rejoined(fs: seq<nat>, p: nat)
    requires p <= |fs|
    ensures multiset(fs) == multiset(fs[..p]) + multiset(fs[p..])
  {
    assert fs == fs[..p] + fs[p..];
  }

  lemma SoundSize(used: seq<bool>, maps: map<nat, Pte>, free: seq<nat>, refs: map<nat, nat>)
    requires Sound(used, maps, free, refs)
    ensures |used| == SLOTS
  {
  }

  lemma RunIsClear(used: seq<bool>, maps: map<nat, Pte>, free: seq<nat>, refs: map<nat, nat>, s: nat, n: nat)
    requires Sound(used, maps, free, refs) && FreeRun(used, s, n)
    ensures Sound(Marked(used, s, n, true), maps, free, refs) && (s + n) * PAGES_PER_SLOT <= SLOTS * PAGES_PER_SLOT
    ensures forall p :: s * PAGES_PER_SLOT <= p < (s + n) * PAGES_PER_SLOT ==>
        p !in maps && Marked(used, s, n, true)[SlotOf(p)]
  {
  }

  lemma RestoreSound(used: seq<bool>, maps: map<nat, Pte>, free: seq<nat>, refs: map<nat, nat>, free': seq<nat>)
    requires Sound(used, maps, free, refs) && multiset(free) == multiset(free')
    ensures Sound(used, maps, free', refs)
  {
    forall i | 0 <= i < |free'| ensures free'[i] in free {
      assert free'[i] in multiset(free');
    }
    NoDupPermuted(free, free');
  }

  lemma NoDupPermuted(a: seq<nat>, b: seq<nat>)
    requires NoDup(a) && multiset(a) == multiset(b)
    ensures NoDup(b)
  {
    forall i, j | 0 <= i < j < |b| ensures b[i] != b[j] {
      if b[i] == b[j] {
        assert b == b[..i] + [b[i]] + b[i + 1..j] + [b[j]] + b[j + 1..];
        assert multiset(b)[b[i]] >= 2;
        AtMostOnce(a, b[i]);
      }
    }
  }

  lemma {:induction false} AtMostOnce(a: seq<nat>, x: nat)
    requires NoDup(a)
    ensures multiset(a)[x] <= 1
    decreases |a|
  {
    if a != [] {
      var n := |a| - 1;
      assert a == a[..n] + [a[n]];
      AtMostOnce(a[..n], x);
      if x == a[n] {
        assert x !in a[..n];
        assert multiset(a[..n])[x] == 0;
      }
    }
  }

  function Reprotected(maps: map<nat, Pte>, first: nat, end: nat, prot: nat): map<nat, Pte> {
    map p | p in maps :: if first <= p < end then Pte(maps[p].frame, AccessOf(prot), Executable(prot)) else maps[p]
  }

  /** Re-permissioning moves no frame, so every count is right as it was. */
  lemma ReprotectedSound(used: seq<bool>, maps: map<nat, Pte>, free: seq<nat>, refs: map<nat, nat>, first: nat,
      end: nat, prot: nat)
    requires Sound(used, maps, free, refs)
    ensures Sound(used, Reprotected(maps, first, end, prot), free, refs)
  {
  }

  function Dropped(maps: map<nat, Pte>, first: nat, end: nat): map<nat, Pte> {
    map p | p in maps && !(first <= p < end) :: maps[p]
  }

  lemma UnmarkSound(used: seq<bool>, maps: map<nat, Pte>, free: seq<nat>, refs: map<nat, nat>, s: nat)
    requires Sound(used, maps, free, refs) && s < SLOTS && |used| == SLOTS && forall p :: p in maps ==> SlotOf(p) != s
    ensures Sound(used[s := false], maps, free, refs)
  {
  }

  lemma NotWholeBefore(base: nat, vaddr: nat, size: nat, s: nat)
    requires RangeOk(base, vaddr, size) && s == (vaddr - base) / SLOT_SIZE
    ensures s < SLOTS && forall t :: 0 <= t < s ==> !Whole(base, vaddr, size, t)
  {
  }

  lemma WholeIsDropped(base: nat, vaddr: nat, size: nat, s: nat, maps: map<nat, Pte>)
    requires RangeOk(base, vaddr, size) && Whole(base, vaddr, size, s) && base % SLOT_SIZE == 0
    ensures forall p :: p in Dropped(maps, FirstPage(base, vaddr), EndPage(base, vaddr, size)) ==> SlotOf(p) != s
  {
    forall p: nat | SlotOf(p) == s ensures FirstPage(base, vaddr) <= p < EndPage(base, vaddr, size) {
      assert s * PAGES_PER_SLOT <= p < (s + 1) * PAGES_PER_SLOT;
    }
  }

  lemma SlotEmptied(maps: map<nat, Pte>, s: nat)
    ensures forall p :: p in Dropped(maps, s * PAGES_PER_SLOT, (s + 1) * PAGES_PER_SLOT) ==> p in maps && SlotOf(p) != s
  {
  }

  lemma NothingBelow(used: seq<bool>, maps: map<nat, Pte>, free: seq<nat>, refs: map<nat, nat>, s: nat)
    requires Sound(used, maps, free, refs)
    ensures s < |used| && !used[s] ==> forall p :: p in maps ==> SlotOf(p) != s
  {
  }

  lemma NothingMapped(used: seq<bool>, maps: map<nat, Pte>, free: seq<nat>, refs: map<nat, nat>)
    requires Sound(used, maps, free, refs) && forall t :: 0 <= t < |used| ==> !used[t]
    ensures maps == map[]
  {
  }
}
