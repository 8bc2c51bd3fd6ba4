/** Cloning the mapping window into a new address space, and what a clone that fails leaves behind. */
module DlClone {
  import opened DlWindow

  const PAGES: nat := SLOTS * PAGES_PER_SLOT

  /** The pages below `x`, which are those copied before page `x` is reached. */
  function Before(from: map<nat, Pte>, x: nat): set<nat> {
    set p | p in from && p < x
  }

  lemma BeforeNext(from: map<nat, Pte>, x: nat)
    ensures Before(from, x + 1) == Before(from, x) + (if x in from then {x} else {})
    ensures |Before(from, x + 1)| == |Before(from, x)| + (if x in from then 1 else 0)
  {
    assert Before(from, x + 1) == Before(from, x) + (if x in from then {x} else {});
  }

  lemma BeforeWithin(from: map<nat, Pte>, x: nat, y: nat)
    requires x <= y
    ensures Before(from, x) <= Before(from, y) && |Before(from, x)| <= |Before(from, y)|
  {
    SubsetSize(Before(from, x), Before(from, y));
  }

  lemma {:induction false} SubsetSize(a: set<nat>, b: set<nat>)
    requires a <= b
    ensures |a| <= |b|
    decreases a
  {
    if x :| x in a {
      SubsetSize(a - {x}, b - {x});
    }
  }

  lemma BeforeAll(from: map<nat, Pte>)
    requires forall p :: p in from ==> p < PAGES
    ensures Before(from, PAGES) == from.Keys && |Before(from, PAGES)| == |from|
  {
    assert Before(from, PAGES) == from.Keys;
    assert |from.Keys| == |from|;
  }

  /** The parent's window: pages lie in marked slots. */
  predicate Windowed(from: map<nat, Pte>, used: seq<bool>) {
    |used| == SLOTS && forall p :: p in from ==> p < PAGES && used[SlotOf(p)]
  }

  /** Page `q` sits on the free frame whose turn it was, with its permissions. */
  ghost predicate CopyOf(from: map<nat, Pte>, free: seq<nat>, maps: map<nat, Pte>, q: nat)
    requires q in from && q in maps
  {
    |Before(from, q)| < |free| && maps[q] == Pte(free[|Before(from, q)|], from[q].access, from[q].exec)
  }

  /** The pages below `x` are copied, frame by frame. */
  ghost predicate Copied(from: map<nat, Pte>, free: seq<nat>, x: nat, maps: map<nat, Pte>, left: seq<nat>) {
    && maps.Keys == Before(from, x) && |Before(from, x)| <= |free| && left == free[|Before(from, x)|..]
    && forall q :: q in maps ==> CopyOf(from, free, maps, q)
  }

  lemma CopiedMore(from: map<nat, Pte>, free: seq<nat>, x: nat, maps: map<nat, Pte>, left: seq<nat>)
    requires Copied(from, free, x, maps, left) && x in from && left != []
    ensures Copied(from, free, x + 1, maps[x := Pte(left[0], from[x].access, from[x].exec)], left[1..])
  {
    BeforeNext(from, x);
    var m := maps[x := Pte(left[0], from[x].access, from[x].exec)];
    forall q | q in m ensures CopyOf(from, free, m, q) {
      assert q != x ==> CopyOf(from, free, maps, q);
    }
  }

  lemma CopiedSkip(from: map<nat, Pte>, free: seq<nat>, x: nat, maps: map<nat, Pte>, left: seq<nat>)
    requires Copied(from, free, x, maps, left) && x !in from
    ensures Copied(from, free, x + 1, maps, left) && Before(from, x + 1) == Before(from, x)
  {
    BeforeNext(from, x);
  }

  /** The slots below `s` marked as the parent's are. */
  function MarkedBelow(used: seq<bool>, s: nat): (r: seq<bool>)
    ensures |r| == |used|
  {
    seq(|used|, i requires 0 <= i < |used| => used[i] && i < s)
  }

  /** What a failed clone leaves mapped in the child: the pages of slot `SlotOf(f)` before page `f`. */
  function Leaked(from: map<nat, Pte>, f: nat): set<nat> {
    set p | p in from && SlotOf(p) == SlotOf(f) && p < f
  }

  /** The mappings left when the marked slots' pages below `x` are gone, and the frames they had. */
  function Kept(used: seq<bool>, maps: map<nat, Pte>, x: nat): map<nat, Pte>
    requires forall p :: p in maps ==> SlotOf(p) < |used|
  {
    map p | p in maps && !(p < x && used[SlotOf(p)]) :: maps[p]
  }

  function Given(used: seq<bool>, maps: map<nat, Pte>, x: nat): set<nat>
    requires forall p :: p in maps ==> SlotOf(p) < |used|
  {
    set p | p in maps && p < x && used[SlotOf(p)] :: maps[p].frame
  }

  lemma KeptNext(used: seq<bool>, maps: map<nat, Pte>, x: nat)
    requires x < PAGES && |used| == SLOTS && forall p :: p in maps ==> SlotOf(p) < |used|
    ensures x in Kept(used, maps, x) <==> x in maps
    ensures if x in maps && used[SlotOf(x)]
            then Kept(used, maps, x + 1) == Kept(used, maps, x) - {x}
                 && Given(used, maps, x + 1) == Given(used, maps, x) + {maps[x].frame}
            else Kept(used, maps, x + 1) == Kept(used, maps, x) && Given(used, maps, x + 1) == Given(used, maps, x)
  {
  }

  /** `dl_window_release` of the child: only pages in marked slots go. */
  method ReleaseChild(used: seq<bool>, maps: map<nat, Pte>, free: seq<nat>)
    returns (maps': map<nat, Pte>, free': seq<nat>)
    requires |used| == SLOTS && forall p :: p in maps ==> p < PAGES
    ensures maps' == map p | p in maps && !used[SlotOf(p)] :: maps[p]
    ensures Frames(free') == Frames(free) + (set p | p in maps && used[SlotOf(p)] :: maps[p].frame)
  {
    maps', free' := maps, free;
    var p := 0;
    assert Kept(used, maps, 0) == maps && Given(used, maps, 0) == {};
    while p < PAGES
      invariant 0 <= p <= PAGES && maps' == Kept(used, maps, p)
      invariant Frames(free') == Frames(free) + Given(used, maps, p)
    {
      KeptNext(used, maps, p);
      if p in maps' && used[SlotOf(p)] {
        FramesFront(maps'[p].frame, free');
        free' := [maps'[p].frame] + free';
        maps' := maps' - {p};
      }
      p := p + 1;
    }
  }

  function Min(a: nat, b: nat): nat {
    if a <= b then a else b
  }

  /** Pages [s * 16, (s + 1) * 16) of the parent are copied, up to the first that finds no frame or no
      page table (`room` of them can be had), if any. */
  method CloneSlot(from: map<nat, Pte>, ghost free: seq<nat>, room: nat, s: nat, maps: map<nat, Pte>, left: seq<nat>)
    returns (ok: bool, maps': map<nat, Pte>, left': seq<nat>, room': nat, ghost f: nat)
    requires Copied(from, free, s * PAGES_PER_SLOT, maps, left)
    ensures s * PAGES_PER_SLOT <= f <= (s + 1) * PAGES_PER_SLOT && Copied(from, free, f, maps', left')
    ensures room' + |Before(from, f)| == room + |Before(from, s * PAGES_PER_SLOT)|
    ensures ok <==> |Before(from, (s + 1) * PAGES_PER_SLOT)| - |Before(from, s * PAGES_PER_SLOT)| <= Min(|left|, room)
    ensures ok ==> f == (s + 1) * PAGES_PER_SLOT && Copied(from, free, (s + 1) * PAGES_PER_SLOT, maps', left')
    ensures !ok ==> f < (s + 1) * PAGES_PER_SLOT && f in from && (left' == [] || room' == 0)
  {
    hide Copied, Before;
    maps', left', room' := maps, left, room;
    var p, end := s * PAGES_PER_SLOT, (s + 1) * PAGES_PER_SLOT;
    while p < end
      invariant s * PAGES_PER_SLOT <= p <= end && Copied(from, free, p, maps', left')
      invariant room' + |Before(from, p)| == room + |Before(from, s * PAGES_PER_SLOT)|
      invariant |left'| + |Before(from, p)| == |left| + |Before(from, s * PAGES_PER_SLOT)|
    {
      BeforeNext(from, p);
      if p !in from {
        CopiedSkip(from, free, p, maps', left');
      } else {
        if left' == [] || room' == 0 {
          BeforeWithin(from, p + 1, end);
          return false, maps', left', room', p;
        }
        CopiedMore(from, free, p, maps', left');
        maps', left', room' := maps'[p := Pte(left'[0], from[p].access, from[p].exec)], left'[1..], room' - 1;
      }
      p := p + 1;
    }
    return true, maps', left', room', p;
  }

  lemma EmptySlot(from: map<nat, Pte>, used: seq<bool>, s: nat)
    requires Windowed(from, used) && s < SLOTS && !used[s]
    ensures Before(from, (s + 1) * PAGES_PER_SLOT) == Before(from, s * PAGES_PER_SLOT)
  {
    forall p | p in from ensures p < (s + 1) * PAGES_PER_SLOT ==> p < s * PAGES_PER_SLOT {
      SlotBounds(p, s);
    }
  }

  lemma MarkedNext(used: seq<bool>, s: nat)
    requires s < |used|
    ensures MarkedBelow(used, s + 1) == if used[s] then MarkedBelow(used, s)[s := true] else MarkedBelow(used, s)
  {
  }

  lemma NothingCopied(from: map<nat, Pte>, free: seq<nat>, used: seq<bool>)
    ensures Before(from, 0) == {} && Copied(from, free, 0, map[], free)
    ensures MarkedBelow(used, 0) == seq(|used|, i => false)
  {
  }

  lemma SlotBounds(p: nat, s: nat)
    ensures SlotOf(p) < s <==> p < s * PAGES_PER_SLOT
    ensures SlotOf(p) == s <==> s * PAGES_PER_SLOT <= p < (s + 1) * PAGES_PER_SLOT
  {
  }

  /** Of the pages copied before `f`, release takes those of the slots before its own. */
  lemma ReleaseLeaves(from: map<nat, Pte>, used: seq<bool>, f: nat)
    requires Windowed(from, used) && f in from
    ensures forall p :: p in Before(from, f) && !MarkedBelow(used, SlotOf(f))[SlotOf(p)] <==> p in Leaked(from, f)
  {
    forall p ensures p in Before(from, f) && !MarkedBelow(used, SlotOf(f))[SlotOf(p)] <==> p in Leaked(from, f) {
      if p in Before(from, f) {
        SlotBounds(p, SlotOf(f));
        SlotBounds(f, SlotOf(f));
      }
    }
  }

  /** `dl_window_clone` into a fresh space. It succeeds exactly when frames and page tables suffice, and
      then every page has a copy on a frame of its own with the same permissions. A clone that fails at
      page `f` unmarks every slot but leaves mapped, on frames no release returns, the pages of the slot of
      `f` before it: none exactly when `f` is the first page of its slot. */
  method CloneWindow(from: map<nat, Pte>, used: seq<bool>, free: seq<nat>, tables: nat)
    returns (ok: bool, used': seq<bool>, maps': map<nat, Pte>, free': seq<nat>, ghost f: nat)
    requires Windowed(from, used)
    ensures ok <==> |from| <= |free| && |from| <= tables
    ensures ok ==> used' == used && Copied(from, free, PAGES, maps', free') && maps'.Keys == from.Keys
    ensures !ok ==> f in from && used' == seq(|used|, i => false) && maps'.Keys == Leaked(from, f)
    ensures !ok ==> |Before(from, f)| == Min(|free|, tables)
    ensures !ok ==> forall q :: q in maps' ==> CopyOf(from, free, maps', q)
    ensures !ok ==> Frames(free) == Frames(free') + (set q | q in maps' :: maps'[q].frame)
  {
    hide Copied, CopyOf;
    NothingCopied(from, free, used);
    BeforeAll(from);
    used', maps', free' := seq(|used|, i => false), map[], free;
    f := 0;
    var room: nat := tables;
    var s := 0;
    while s < SLOTS
      invariant 0 <= s <= SLOTS && used' == MarkedBelow(used, s)
      invariant Copied(from, free, s * PAGES_PER_SLOT, maps', free')
      invariant room + |Before(from, s * PAGES_PER_SLOT)| == tables
    {
      MarkedNext(used, s);
      if used[s] {
        ok, maps', free', room, f := CloneSlot(from, free, room, s, maps', free');
        if !ok {
          SlotBounds(f, s);
          FailedAt(from, free, tables, f, maps', free', room);
          ReleaseLeaves(from, used, f);
          ghost var m, l := maps', free';
          CopiedKeys(from, free, f, maps', free');
          maps', free' := ReleaseChild(used', maps', free');
          LeftBehind(from, used, free, f, m, l, maps', free');
          used' := seq(|used|, i => false);
          return;
        }
        used' := used'[s := true];
      } else {
        EmptySlot(from, used, s);
        SameCopied(from, free, s * PAGES_PER_SLOT, (s + 1) * PAGES_PER_SLOT, maps', free');
      }
      s := s + 1;
    }
    CopiedKeys(from, free, PAGES, maps', free');
    assert MarkedBelow(used, SLOTS) == used;
    ok := true;
  }

  lemma SameCopied(from: map<nat, Pte>, free: seq<nat>, x: nat, y: nat, maps: map<nat, Pte>, left: seq<nat>)
    requires Copied(from, free, x, maps, left) && Before(from, x) == Before(from, y)
    ensures Copied(from, free, y, maps, left)
  {
  }

  lemma CopiedKeys(from: map<nat, Pte>, free: seq<nat>, x: nat, maps: map<nat, Pte>, left: seq<nat>)
    requires Copied(from, free, x, maps, left)
    ensures maps.Keys == Before(from, x) && |Before(from, x)| <= |free|
  {
  }

  lemma FailedAt(from: map<nat, Pte>, free: seq<nat>, tables: nat, f: nat, maps: map<nat, Pte>, left: seq<nat>,
                 room: nat)
    requires Copied(from, free, f, maps, left) && f in from && (left == [] || room == 0)
    requires room + |Before(from, f)| == tables && forall p :: p in from ==> p < PAGES
    ensures |Before(from, f)| == Min(|free|, tables)
    ensures |Before(from, f)| < |from|
  {
    BeforeNext(from, f);
    BeforeWithin(from, f + 1, PAGES);
    BeforeAll(from);
  }

  lemma LeftBehind(from: map<nat, Pte>, used: seq<bool>, free: seq<nat>, f: nat, m: map<nat, Pte>, l: seq<nat>,
                   maps: map<nat, Pte>, left: seq<nat>)
    requires Windowed(from, used) && f in from && Copied(from, free, f, m, l)
    requires forall p :: p in Before(from, f) && !MarkedBelow(used, SlotOf(f))[SlotOf(p)] <==> p in Leaked(from, f)
    requires maps == map p | p in m && !MarkedBelow(used, SlotOf(f))[SlotOf(p)] :: m[p]
    requires Frames(left) == Frames(l) + (set p | p in m && MarkedBelow(used, SlotOf(f))[SlotOf(p)] :: m[p].frame)
    ensures maps.Keys == Leaked(from, f) && forall q :: q in maps ==> CopyOf(from, free, maps, q)
    ensures Frames(free) == Frames(left) + (set q | q in maps :: maps[q].frame)
  {
    forall q | q in maps ensures CopyOf(from, free, maps, q) {
      assert CopyOf(from, free, m, q);
    }
    FramesUsed(from, free, f, m, l);
    SplitFrames(m, maps, MarkedBelow(used, SlotOf(f)));
  }

  lemma SplitFrames(m: map<nat, Pte>, maps: map<nat, Pte>, marked: seq<bool>)
    requires forall p :: p in m ==> SlotOf(p) < |marked|
    requires maps == map p | p in m && !marked[SlotOf(p)] :: m[p]
    ensures (set p | p in m :: m[p].frame)
         == (set p | p in m && marked[SlotOf(p)] :: m[p].frame) + (set q | q in maps :: maps[q].frame)
  {
    var a := set p | p in m && marked[SlotOf(p)] :: m[p].frame;
    var b := set q | q in maps :: maps[q].frame;
    forall p | p in m ensures m[p].frame in a + b {
      if !marked[SlotOf(p)] {
        assert p in maps && maps[p].frame in b;
      }
    }
  }

  /** The frames under the copies are those taken off the free list. */
  lemma FramesUsed(from: map<nat, Pte>, free: seq<nat>, x: nat, maps: map<nat, Pte>, left: seq<nat>)
    requires Copied(from, free, x, maps, left)
    ensures Frames(free) == Frames(left) + (set p | p in maps :: maps[p].frame)
  {
    var n := |Before(from, x)|;
    assert free == free[..n] + left;
    forall a | a in free[..n] ensures a in (set p | p in maps :: maps[p].frame) {
      var i :| 0 <= i < n && free[i] == a;
      var q := AtTurn(from, x, i);
      assert CopyOf(from, free, maps, q);
    }
    forall p | p in maps ensures maps[p].frame in free {
      assert CopyOf(from, free, maps, p);
    }
  }

  /** Every turn is some page's. */
  lemma {:induction false} AtTurn(from: map<nat, Pte>, x: nat, i: nat) returns (q: nat)
    requires i < |Before(from, x)|
    ensures q in Before(from, x) && |Before(from, q)| == i
    decreases x
  {
    assert x > 0 by {
      assert Before(from, 0) == {};
    }
    BeforeNext(from, x - 1);
    if i < |Before(from, x - 1)| {
      q := AtTurn(from, x - 1, i);
    } else {
      q := x - 1;
    }
  }
}
