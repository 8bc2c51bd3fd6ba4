/** The DMA allocator: a block's nodes in address order, owned by tasks and pinned by devices. A pin
    outlives the owner. */
module Dma {
  import opened Options
  import opened Tiling

  const PAGE_SIZE: nat := 4096
  const BLOCK_MAX: nat := 16
  const PINS_MAX: nat := 0xffff_ffff

  /** `pid == 0` marks a node without owner. */
  datatype Hold = Hold(pid: int, pins: nat)

  const FREE := Hold(0, 0)

  type Node = Run<Hold>

  predicate Reusable(h: Hold) {
    h.pid == 0 && h.pins == 0
  }

  /** The size argument of the calls: 32 bits. */
  type Size = x: int | 0 <= x < 0x1_0000_0000

  /** Rounding up to a page, in 32 bits. */
  function PageUp(size: Size): nat {
    (size + PAGE_SIZE - 1) / PAGE_SIZE * PAGE_SIZE % 0x1_0000_0000
  }

  /** The least number of whole pages that holds the size, but none for a size of 0 and for the sizes
      of the last page, which wrap. */
  lemma PageUpExact(size: Size)
    ensures PageUp(size) % PAGE_SIZE == 0
    ensures PageUp(size) > 0 <==> 0 < size <= 0xffff_f000
    ensures PageUp(size) > 0 ==> size <= PageUp(size) < size + PAGE_SIZE
  {
  }

  // ----- what every call keeps

  predicate Linked(ns: seq<Node>, i: int)
    requires 0 <= i < |ns| - 1
  {
    End(ns[i]) == ns[i + 1].start
  }

  /** The nodes follow one another from end to end of the block, empty ones included, and a pinned
      node is not empty. */
  predicate Chain(ns: seq<Node>, lo: nat, hi: nat) {
    && ns != [] && ns[0].start == lo && End(ns[|ns| - 1]) == hi
    && (forall i :: 0 <= i < |ns| - 1 ==> Linked(ns, i))
    && (forall i :: 0 <= i < |ns| && ns[i].tag.pins > 0 ==> ns[i].size > 0)
  }

  /** The nodes tile the block, none empty, and no two reusable ones touch. */
  predicate Good(ns: seq<Node>, lo: nat, hi: nat) {
    Tiles(ns, lo, hi) && Apart(ns, Reusable)
  }

  // ----- operations on one block's nodes

  function FirstRoom(ns: seq<Node>, n: nat, i: nat): (k: nat)
    requires i <= |ns|
    ensures i <= k <= |ns|
    ensures k < |ns| ==> Reusable(ns[k].tag) && ns[k].size >= n
    ensures forall j :: i <= j < k ==> !(Reusable(ns[j].tag) && ns[j].size >= n)
    decreases |ns| - i
  {
    if i == |ns| || (Reusable(ns[i].tag) && ns[i].size >= n) then i else FirstRoom(ns, n, i + 1)
  }

  /** Node `k` handed to `pid` with its first `n` bytes, which may be none; the rest stays free. */
  function Carve(ns: seq<Node>, k: nat, n: nat, pid: int): seq<Node>
    requires k < |ns| && n < ns[k].size
  {
    ns[..k] + [Run(ns[k].start, n, Hold(pid, 0)), Run(ns[k].start + n, ns[k].size - n, FREE)] + ns[k + 1..]
  }

  /** `dma_alloc`: the nodes, and the position of the node handed out (the length when none). */
  function Alloc(ns: seq<Node>, pid: int, size: Size): (seq<Node>, nat) {
    var n := PageUp(size);
    var k := FirstRoom(ns, n, 0);
    if k == |ns| then (ns, k)
    else if n < ns[k].size then (Carve(ns, k, n, pid), k)
    else (Retag(ns, k, Hold(pid, 0)), k)
  }

  function MergePrev(ns: seq<Node>, i: nat): (seq<Node>, nat)
    requires i < |ns|
  {
    if i > 0 && Reusable(ns[i - 1].tag) then (Join(ns, i - 1, FREE), i - 1) else (ns, i)
  }

  function MergeNexts(ns: seq<Node>, i: nat): seq<Node>
    requires i < |ns|
    decreases |ns|
  {
    if i + 1 < |ns| && Reusable(ns[i + 1].tag) then MergeNexts(Join(ns, i, FREE), i) else ns
  }

  /** `dma_coalesce`. */
  function Coalesce(ns: seq<Node>, i: nat): seq<Node>
    requires i < |ns|
  {
    if !Reusable(ns[i].tag) then ns
    else
      var (a, k) := MergePrev(ns, i);
      if k < |a| then MergeNexts(a, k) else a
  }

  function Owned(ns: seq<Node>, pid: int, addr: nat, i: nat): (k: nat)
    requires i <= |ns|
    ensures i <= k <= |ns|
    ensures k < |ns| ==> ns[k].tag.pid == pid && ns[k].start == addr
    ensures forall j :: i <= j < k ==> !(ns[j].tag.pid == pid && ns[j].start == addr)
    decreases |ns| - i
  {
    if i == |ns| || (ns[i].tag.pid == pid && ns[i].start == addr) then i else Owned(ns, pid, addr, i + 1)
  }

  /** `dma_size`. */
  function SizeOf(ns: seq<Node>, pid: int, addr: nat): nat {
    var k := Owned(ns, pid, addr, 0);
    if k == |ns| then 0 else ns[k].size
  }

  /** `dma_free`: the owner goes, the pins stay. */
  function Free(ns: seq<Node>, pid: int, addr: nat): seq<Node> {
    var k := Owned(ns, pid, addr, 0);
    if k == |ns| then ns else Coalesce(Retag(ns, k, ns[k].tag.(pid := 0)), k)
  }

  predicate PinTarget(d: Node, pid: int, addr: nat, size: nat) {
    d.tag.pid == pid && d.start == addr && size <= d.size
  }

  function Pinnable(ns: seq<Node>, pid: int, addr: nat, size: nat, i: nat): (k: nat)
    requires i <= |ns|
    ensures i <= k <= |ns|
    ensures k < |ns| ==> PinTarget(ns[k], pid, addr, size)
    ensures forall j :: i <= j < k ==> !PinTarget(ns[j], pid, addr, size)
    decreases |ns| - i
  {
    if i == |ns| || PinTarget(ns[i], pid, addr, size) then i else Pinnable(ns, pid, addr, size, i + 1)
  }

  /** `dma_pin`. */
  function Pin(ns: seq<Node>, pid: int, addr: nat, size: nat): (seq<Node>, bool) {
    if pid == 0 || size == 0 then (ns, false)
    else
      var k := Pinnable(ns, pid, addr, size, 0);
      if k == |ns| || ns[k].tag.pins >= PINS_MAX then (ns, false)
      else (Retag(ns, k, ns[k].tag.(pins := ns[k].tag.pins + 1)), true)
  }

  function PinnedAt(ns: seq<Node>, addr: nat, i: nat): (k: nat)
    requires i <= |ns|
    ensures i <= k <= |ns|
    ensures k < |ns| ==> ns[k].start == addr && ns[k].tag.pins > 0
    ensures forall j :: i <= j < k ==> !(ns[j].start == addr && ns[j].tag.pins > 0)
    decreases |ns| - i
  {
    if i == |ns| || (ns[i].start == addr && ns[i].tag.pins > 0) then i else PinnedAt(ns, addr, i + 1)
  }

  /** `dma_unpin`. */
  function Unpin(ns: seq<Node>, addr: nat): (seq<Node>, bool) {
    var k := PinnedAt(ns, addr, 0);
    if k == |ns| then (ns, false)
    else (Coalesce(Retag(ns, k, ns[k].tag.(pins := ns[k].tag.pins - 1)), k), true)
  }

  function Disowned(d: Node, pid: int): Node {
    if d.tag.pid == pid then d.(tag := d.tag.(pid := 0)) else d
  }

  /** `dma_release` of one block: left to right, merging each node into a reusable predecessor. */
  function Release(done: seq<Node>, rest: seq<Node>, pid: int): seq<Node>
    decreases |rest|
  {
    if rest == [] then done
    else
      var d := Disowned(rest[0], pid);
      var n := |done| - 1;
      if Reusable(d.tag) && done != [] && Reusable(done[n].tag) then
        Release(done[..n] + [done[n].(size := done[n].size + d.size)], rest[1..], pid)
      else Release(done + [d], rest[1..], pid)
  }

  predicate AnyPinned(ns: seq<Node>) {
    exists i :: 0 <= i < |ns| && ns[i].tag.pins > 0
  }

  // ----- a repeated registration

  datatype Block = Block(base: nat, size: nat, owner: int, nodes: seq<Node>)

  datatype SetResult = Refused | Reclaimed(id: nat) | Added

  /** The bytes registered for a range: whole pages, one less when the base is inside a page. A range
      inside a page must have two. */
  function RangeSize(base: nat, size: Size): Option<nat> {
    var n := size / PAGE_SIZE * PAGE_SIZE;
    if base % PAGE_SIZE == 0 then Some(n) else if n < 2 * PAGE_SIZE then None else Some(n - PAGE_SIZE)
  }

  /** `dma_set` from table position `i` on: a block of the same range whose owner is gone is rebuilt,
      unless it still has pins. `dead`: the owners no longer running. */
  function Registered(bs: seq<Block>, pid: int, base: nat, size: nat, dead: set<int>, i: nat): (seq<Block>, SetResult)
    requires i <= |bs|
    decreases |bs| - i
  {
    if i == |bs| && |bs| >= BLOCK_MAX then (bs, Refused)
    else if i == |bs| then (bs + [Block(base, size, pid, [Run(base, size, FREE)])], Added)
    else if bs[i].base != base || bs[i].size != size then Registered(bs, pid, base, size, dead, i + 1)
    else if AnyPinned(bs[i].nodes) then (bs, Refused)
    else if bs[i].owner < 0 || (bs[i].owner != pid && bs[i].owner !in dead) then
      Registered(bs, pid, base, size, dead, i + 1)
    else (bs[i := bs[i].(owner := pid, nodes := [Run(base, size, FREE)])], Reclaimed(i))
  }
}
