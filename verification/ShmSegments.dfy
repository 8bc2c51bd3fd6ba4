/** Shared-memory segments: a list of window blocks, in use or free, each kind in its own window, the
    contiguous kind backed by runs of the slab. Addresses and sizes are in pages. */
module ShmSegments {
  import opened Options
  import P = ShmPool

  const PAGE_SIZE: nat := 4096

  /** `contig` tells the backing and so the window; `phy` is the slab run of a contiguous segment. */
  datatype Seg = Seg(id: nat, key: int, addr: nat, pages: nat, used: bool, refs: int, contig: bool, phy: nat,
      owner: int)

  /** The slab is [lo, hi); the contiguous window is as long; the scattered window has its own top. */
  datatype Config = Config(lo: nat, hi: nat, contigBase: nat, scatterBase: nat, scatterTop: nat)

  /** `spaces` lists the segment ids each address space has attached, 0 for an empty place. */
  datatype Shm = Shm(pool: seq<P.Entry>, segs: seq<Seg>, contigTail: nat, scatterTail: nat, lastId: nat,
      spaces: map<int, seq<nat>>)

  function SegEnd(s: Seg): nat {
    s.addr + s.pages
  }

  function Top(c: Config, contig: bool): nat {
    if contig then c.contigBase + (if c.hi >= c.lo then c.hi - c.lo else 0) else c.scatterTop
  }

  function Tail(m: Shm, contig: bool): nat {
    if contig then m.contigTail else m.scatterTail
  }

  // ----- what every call keeps

  /** Blocks of one kind lie in their window in list order, one after the other. */
  predicate Ordered(segs: seq<Seg>, contig: bool, base: nat, tail: nat) {
    && (forall i :: 0 <= i < |segs| && segs[i].contig == contig ==> base <= segs[i].addr && SegEnd(segs[i]) <= tail)
    && (forall i, j :: 0 <= i < j < |segs| && segs[i].contig == contig && segs[j].contig == contig ==>
        SegEnd(segs[i]) <= segs[j].addr)
  }

  ghost function Used(segs: seq<Seg>): set<Seg> {
    set i | 0 <= i < |segs| && segs[i].used :: segs[i]
  }

  predicate IsRun(pool: seq<P.Entry>, k: nat, s: Seg)
    requires k < |pool|
  {
    P.Live(pool[k]) && pool[k].used && pool[k].addr == s.phy && pool[k].pages >= s.pages
  }

  ghost predicate HasRun(pool: seq<P.Entry>, s: Seg) {
    exists k :: 0 <= k < |pool| && IsRun(pool, k, s)
  }

  ghost predicate RunTaken(u: set<Seg>, e: P.Entry) {
    exists s :: s in u && s.contig && s.phy == e.addr
  }

  /** Contiguous segments in use and slab runs in use correspond one to one. */
  ghost predicate Backed(pool: seq<P.Entry>, u: set<Seg>) {
    && (forall s :: s in u && s.contig ==> HasRun(pool, s))
    && (forall s, t :: s in u && t in u && s.contig && t.contig && s != t ==> s.phy != t.phy)
    && (forall k :: 0 <= k < |pool| && P.Live(pool[k]) && pool[k].used ==> RunTaken(u, pool[k]))
  }

  ghost predicate IdsOk(u: set<Seg>, lastId: nat) {
    && (forall s :: s in u ==> 0 < s.id <= lastId)
    && (forall s, t :: s in u && t in u && s != t ==> s.id != t.id)
  }

  ghost function Attached(spaces: map<int, seq<nat>>, id: nat): set<int> {
    set p | p in spaces && id in spaces[p]
  }

  ghost predicate IdInUse(u: set<Seg>, id: nat) {
    exists s :: s in u && s.id == id
  }

  predicate OnceEach(q: seq<nat>) {
    forall i, j :: 0 <= i < j < |q| && q[i] != 0 ==> q[i] != q[j]
  }

  /** `refs` counts the spaces attached, and only segments in use are attached. */
  ghost predicate Counted(u: set<Seg>, spaces: map<int, seq<nat>>) {
    && (forall s :: s in u ==> s.refs == |Attached(spaces, s.id)|)
    && (forall p, i :: p in spaces && 0 <= i < |spaces[p]| && spaces[p][i] != 0 ==> IdInUse(u, spaces[p][i]))
    && (forall p :: p in spaces ==> OnceEach(spaces[p]))
  }

  predicate IdleOk(segs: seq<Seg>) {
    forall i :: 0 <= i < |segs| && !segs[i].used ==> segs[i].refs == 0
  }

  predicate PagesOk(segs: seq<Seg>) {
    forall i :: 0 <= i < |segs| && segs[i].used && segs[i].contig ==> segs[i].pages > 0
  }

  predicate OneSegPerId(segs: seq<Seg>) {
    forall i, j :: 0 <= i < j < |segs| && segs[i].used && segs[j].used ==> segs[i].id != segs[j].id
  }

  /** What concerns the list alone. */
  predicate ListOk(c: Config, segs: seq<Seg>, contigTail: nat, scatterTail: nat) {
    && Ordered(segs, true, c.contigBase, contigTail) && Ordered(segs, false, c.scatterBase, scatterTail)
    && PagesOk(segs) && IdleOk(segs) && OneSegPerId(segs)
  }

  ghost predicate Good(c: Config, m: Shm) {
    && P.Good(m.pool, c.lo, c.hi)
    && ListOk(c, m.segs, m.contigTail, m.scatterTail)
    && c.contigBase <= m.contigTail <= Top(c, true) && c.scatterBase <= m.scatterTail <= Top(c, false)
    && Backed(m.pool, Used(m.segs)) && IdsOk(Used(m.segs), m.lastId) && Counted(Used(m.segs), m.spaces)
  }

  // ----- creating a segment

  /** The size argument of the system call: 32 bits. */
  type Size = x: int | 0 <= x < 0x1_0000_0000

  /** Sizes are rounded up to 32 bytes, in 32 bits, then to pages. */
  function Bytes(size: Size): nat {
    (size + 31) / 32 * 32 % 0x1_0000_0000
  }

  function Pages(size: Size): nat {
    (Bytes(size) + PAGE_SIZE - 1) / PAGE_SIZE
  }

  /** Rounding yields no pages for a size of 0 and for the last 31 sizes, which wrap to 0. */
  lemma PagesPositive(size: Size)
    ensures Pages(size) > 0 <==> 0 < size <= 0xffff_ffe0
  {
  }

  predicate Reusable(s: Seg, pages: nat, contig: bool) {
    !s.used && s.pages >= pages && s.contig == contig
  }

  function FirstReusable(segs: seq<Seg>, pages: nat, contig: bool, i: nat): (k: nat)
    requires i <= |segs|
    ensures i <= k <= |segs|
    ensures k < |segs| ==> Reusable(segs[k], pages, contig)
    ensures forall j :: i <= j < k ==> !Reusable(segs[j], pages, contig)
    decreases |segs| - i
  {
    if i == |segs| || Reusable(segs[i], pages, contig) then i else FirstReusable(segs, pages, contig, i + 1)
  }

  /** Block `k` cut to `pages`; the rest, if any, becomes a free block when a record can be had. A
      contiguous block is cut even without one. */
  function CutBlock(segs: seq<Seg>, k: nat, pages: nat, record: bool): (r: seq<Seg>)
    requires k < |segs| && pages <= segs[k].pages
    ensures |r| >= |segs|
  {
    var s := segs[k];
    if s.pages > pages && record then
      segs[..k] + [s.(pages := pages), Seg(0, 0, s.addr + pages, s.pages - pages, false, 0, s.contig, 0, -1)]
          + segs[k + 1..]
    else if s.contig then segs[k := s.(pages := pages)]
    else segs
  }

  function Claimed(s: Seg, id: nat, key: int, contig: bool, phy: nat, owner: int): Seg {
    s.(used := true, key := key, id := id, contig := contig, phy := phy, owner := owner)
  }

  datatype Made = Failed | Made(id: nat)

  /** `shm_alloc`. `record`: a list record can be allocated; `mapped`: scattered pages can be had. */
  function Create(c: Config, m: Shm, key: int, size: Size, contig: bool, owner: int, record: bool, mapped: bool)
    : (Shm, Made)
  {
    var pages := Pages(size);
    var (pool, phy) := if contig then P.Alloc(m.pool, pages) else (m.pool, 0);
    if contig && phy == 0 then (m, Failed)
    else
      var k := FirstReusable(m.segs, pages, contig, 0);
      var id := m.lastId + 1;
      if k < |m.segs| then
        var segs := CutBlock(m.segs, k, pages, record);
        (m.(pool := pool, segs := segs[k := Claimed(segs[k], id, key, contig, phy, owner)], lastId := id), Made(id))
      else if Tail(m, contig) * PAGE_SIZE + Bytes(size) >= Top(c, contig) * PAGE_SIZE || !record then
        (m.(pool := if contig then P.Free(pool, phy) else m.pool), Failed)
      else
        var s := Seg(0, 0, Tail(m, contig), 0, false, 0, contig, 0, -1);
        if !contig && !mapped then (m.(segs := m.segs + [s]), Failed)
        else
          (m.(pool := pool,
              segs := m.segs + [Claimed(s.(pages := pages), id, key, contig, phy, owner)],
              contigTail := if contig then m.contigTail + pages else m.contigTail,
              scatterTail := if contig then m.scatterTail else m.scatterTail + pages,
              lastId := id), Made(id))
  }

  // ----- destroying one

  function MergeRight(segs: seq<Seg>, k: nat): (r: seq<Seg>)
    requires k < |segs|
    ensures k < |r|
  {
    if k + 1 < |segs| && !segs[k + 1].used && segs[k + 1].contig == segs[k].contig then
      segs[..k] + [segs[k].(pages := segs[k].pages + segs[k + 1].pages)] + segs[k + 2..]
    else segs
  }

  function MergeLeft(segs: seq<Seg>, k: nat): seq<Seg>
    requires k < |segs|
  {
    if k > 0 && !segs[k - 1].used && segs[k - 1].contig == segs[k].contig then
      segs[..k - 1] + [segs[k - 1].(pages := segs[k - 1].pages + segs[k].pages)] + segs[k + 1..]
    else segs
  }

  /** `free_item`. */
  function FreeItem(m: Shm, k: nat): Shm
    requires k < |m.segs|
  {
    var pool := if m.segs[k].contig then P.Free(m.pool, m.segs[k].phy) else m.pool;
    var a := MergeRight(m.segs[k := m.segs[k].(used := false)], k);
    m.(pool := pool, segs := MergeLeft(a, k))
  }

  // ----- attaching

  function ById(segs: seq<Seg>, id: nat, i: nat): (k: nat)
    requires i <= |segs|
    ensures i <= k <= |segs|
    ensures k < |segs| ==> segs[k].used && segs[k].id == id
    ensures forall j :: i <= j < k ==> !(segs[j].used && segs[j].id == id)
    decreases |segs| - i
  {
    if i == |segs| || (segs[i].used && segs[i].id == id) then i else ById(segs, id, i + 1)
  }

  function Find(q: seq<nat>, id: nat, i: nat): (k: nat)
    requires i <= |q|
    ensures i <= k <= |q|
    ensures k < |q| ==> q[k] == id
    ensures forall j :: i <= j < k ==> q[j] != id
    decreases |q| - i
  {
    if i == |q| || q[i] == id then i else Find(q, id, i + 1)
  }

  /** `shm_proc_map` for a task allowed to see the segment; `mapped`: its page tables could be had. */
  function Attach(m: Shm, p: int, id: nat, mapped: bool): Shm {
    var k := ById(m.segs, id, 0);
    if p !in m.spaces || k == |m.segs| || id == 0 then m
    else
      var q := m.spaces[p];
      var z := Find(q, 0, 0);
      if Find(q, id, 0) < |q| || z == |q| || !mapped then m
      else m.(spaces := m.spaces[p := q[z := id]], segs := m.segs[k := m.segs[k].(refs := m.segs[k].refs + 1)])
  }

  /** `shm_proc_unmap_it`: the last detach may free the segment. */
  function Detach(m: Shm, p: int, id: nat, free: bool): Shm {
    var k := ById(m.segs, id, 0);
    if p !in m.spaces || k == |m.segs| || id == 0 then m
    else
      var q := m.spaces[p];
      var z := Find(q, id, 0);
      if z == |q| then m
      else
        var a := m.(spaces := m.spaces[p := q[z := 0]], segs := m.segs[k := m.segs[k].(refs := m.segs[k].refs - 1)]);
        if free && a.segs[k].refs <= 0 then FreeItem(a, k) else a
  }

  function ByAddr(segs: seq<Seg>, addr: nat, i: nat): (k: nat)
    requires i <= |segs|
    ensures i <= k <= |segs|
    ensures k < |segs| ==> segs[k].used && segs[k].addr == addr
    ensures forall j :: i <= j < k ==> !(segs[j].used && segs[j].addr == addr)
    decreases |segs| - i
  {
    if i == |segs| || (segs[i].used && segs[i].addr == addr) then i else ByAddr(segs, addr, i + 1)
  }

  /** `shm_proc_unmap`: the first segment in use at the address. */
  function DetachAt(m: Shm, p: int, addr: nat): Shm {
    var k := ByAddr(m.segs, addr, 0);
    if k == |m.segs| then m else Detach(m, p, m.segs[k].id, true)
  }

  /** `shm_ctrl(IPC_RMID)`. */
  function Remove(m: Shm, id: nat): Shm {
    var k := ById(m.segs, id, 0);
    if k < |m.segs| && m.segs[k].refs <= 0 then FreeItem(m, k) else m
  }

  /** Where a walk over the list goes on: at the block after the merged one. */
  function Resume(m: Shm, i: nat): (n: nat)
    requires i < |m.segs|
    ensures n <= |FreeItem(m, i).segs| && |FreeItem(m, i).segs| - n < |m.segs| - i
  {
    if i > 0 && !m.segs[i - 1].used && m.segs[i - 1].contig == m.segs[i].contig then i else i + 1
  }

  /** `shm_release_orphans` from list position `i` on: unattached segments of a dead owner go. */
  function ReleaseOrphans(m: Shm, owner: int, i: nat): Shm
    requires i <= |m.segs|
    decreases |m.segs| - i
  {
    if i == |m.segs| then m
    else if m.segs[i].used && m.segs[i].owner == owner && m.segs[i].refs <= 0 then
      ReleaseOrphans(FreeItem(m, i), owner, Resume(m, i))
    else ReleaseOrphans(m, owner, i + 1)
  }
}
