/** Bridge windows: when every bridge has its own secondary bus, each window holds exactly the BARs
    below its bridge. */
module PciWindows {
  import opened Division
  import opened Options
  import opened PciPlan

  // ----- the bus hierarchy

  predicate Follows(ds: seq<Device>, i: int, bus: nat) {
    0 <= i < |ds| && ds[i].bus == bus && ds[i].bridge && NumbersOk(ds[i], bus)
  }

  /** `x` is bus `a` or lies behind a bridge below it. */
  ghost predicate Under(ds: seq<Device>, a: nat, x: nat)
    decreases 8 - a
  {
    x == a || exists i :: Follows(ds, i, a) && Under(ds, ds[i].secondary, x)
  }

  /** No two bridges lead to the same bus. */
  predicate Tree(ds: seq<Device>) {
    forall i, j :: 0 <= i < j < |ds| && ds[i].bridge && ds[j].bridge ==> ds[i].secondary != ds[j].secondary
  }

  lemma {:induction false} UnderAbove(ds: seq<Device>, a: nat, x: nat)
    requires Under(ds, a, x)
    ensures a <= x
    decreases 8 - a
  {
    if x != a {
      var i :| Follows(ds, i, a) && Under(ds, ds[i].secondary, x);
      UnderAbove(ds, ds[i].secondary, x);
    }
  }

  lemma {:induction false} UnderTransitive(ds: seq<Device>, a: nat, b: nat, x: nat)
    requires Under(ds, a, b) && Under(ds, b, x)
    ensures Under(ds, a, x)
    decreases 8 - a
  {
    if a != b {
      var i :| Follows(ds, i, a) && Under(ds, ds[i].secondary, b);
      UnderTransitive(ds, ds[i].secondary, b, x);
    }
  }

  /** A bus strictly below `a` hangs on a bridge below `a`. */
  lemma {:induction false} UnderUp(ds: seq<Device>, a: nat, x: nat) returns (i: int)
    requires Under(ds, a, x) && x != a
    ensures 0 <= i < |ds| && Follows(ds, i, ds[i].bus) && ds[i].secondary == x && Under(ds, a, ds[i].bus)
    decreases 8 - a
  {
    var j :| Follows(ds, j, a) && Under(ds, ds[j].secondary, x);
    if x == ds[j].secondary {
      i := j;
    } else {
      i := UnderUp(ds, ds[j].secondary, x);
    }
  }

  /** Two subtrees that meet are nested. */
  lemma {:induction false} UnderMeet(ds: seq<Device>, a: nat, b: nat, x: nat)
    requires Tree(ds) && Under(ds, a, x) && Under(ds, b, x)
    ensures Under(ds, a, b) || Under(ds, b, a)
    decreases x
  {
    if x != a && x != b {
      var i := UnderUp(ds, a, x);
      var j := UnderUp(ds, b, x);
      assert i == j;
      UnderMeet(ds, a, b, ds[i].bus);
    }
  }

  ghost predicate Separate(ds: seq<Device>, a: nat, b: nat) {
    forall x :: !(Under(ds, a, x) && Under(ds, b, x))
  }

  /** The buses behind two bridges of one bus never meet. */
  lemma SiblingsSeparate(ds: seq<Device>, i: int, j: int, bus: nat)
    requires Tree(ds) && Follows(ds, i, bus) && Follows(ds, j, bus) && i != j
    ensures Separate(ds, ds[i].secondary, ds[j].secondary)
  {
    forall x ensures !(Under(ds, ds[i].secondary, x) && Under(ds, ds[j].secondary, x)) {
      if Under(ds, ds[i].secondary, x) && Under(ds, ds[j].secondary, x) {
        UnderMeet(ds, ds[i].secondary, ds[j].secondary, x);
        NotUnderSibling(ds, i, j, bus);
        NotUnderSibling(ds, j, i, bus);
      }
    }
  }

  lemma NotUnderSibling(ds: seq<Device>, i: int, j: int, bus: nat)
    requires Tree(ds) && Follows(ds, i, bus) && Follows(ds, j, bus) && i != j
    ensures !Under(ds, ds[i].secondary, ds[j].secondary)
  {
    if Under(ds, ds[i].secondary, ds[j].secondary) {
      var k := UnderUp(ds, ds[i].secondary, ds[j].secondary);
      UnderAbove(ds, ds[i].secondary, bus);
    }
  }

  // ----- windows

  predicate Empty(word: nat) {
    BaseOf(word) > LimitOf(word)
  }

  predicate Inside(ds: seq<Device>, p: Plan, k: (nat, nat), word: nat)
    requires k in p.bars && k.0 < |ds| && k.1 < |ds[k.0].sizes|
  {
    BaseOf(word) <= p.bars[k] && p.bars[k] + ds[k.0].sizes[k.1] <= LimitOf(word) + 1
  }

  predicate Outside(ds: seq<Device>, p: Plan, k: (nat, nat), word: nat)
    requires k in p.bars && k.0 < |ds| && k.1 < |ds[k.0].sizes|
  {
    Empty(word) || p.bars[k] + ds[k.0].sizes[k.1] <= BaseOf(word) || LimitOf(word) < p.bars[k]
  }

  /** The window of bridge `i` holds the BARs behind it and no other. */
  ghost predicate Exact(ds: seq<Device>, p: Plan, i: nat, k: (nat, nat))
    requires i < |ds| && i in p.windows && k in p.bars && k.0 < |ds| && k.1 < |ds[k.0].sizes|
  {
    if Under(ds, ds[i].secondary, ds[k.0].bus) then Inside(ds, p, k, p.windows[i]) else Outside(ds, p, k, p.windows[i])
  }

  predicate WindowsApart(v: nat, w: nat) {
    Empty(v) || Empty(w) || LimitOf(v) < BaseOf(w) || LimitOf(w) < BaseOf(v)
  }

  predicate Shaped(ds: seq<Device>, p: Plan, i: nat)
    requires i in p.windows
  {
    i < |ds| && Follows(ds, i, ds[i].bus) && (Empty(p.windows[i]) || LimitOf(p.windows[i]) < p.next)
  }

  /** Well-formed and exact. */
  ghost predicate ExactAt(ds: seq<Device>, p: Plan, lo: nat, i: nat, k: (nat, nat))
    requires DevicesOk(ds) && i in p.windows && k in p.bars
  {
    BarOk(ds, p, lo, k) && Shaped(ds, p, i) && Exact(ds, p, i, k)
  }

  ghost predicate WindowsOk(ds: seq<Device>, p: Plan, lo: nat)
    requires DevicesOk(ds)
  {
    && BarsOk(ds, p, lo)
    && (forall i :: i in p.windows ==> Shaped(ds, p, i))
    && (forall i, k :: i in p.windows && k in p.bars ==> ExactAt(ds, p, lo, i, k))
    && (forall i, j :: i in p.windows && j in p.windows && i != j && i < |ds| && j < |ds| && ds[i].bus == ds[j].bus ==>
          WindowsApart(p.windows[i], p.windows[j]))
  }

  /** Nothing on or below `bus` is planned yet. */
  ghost predicate Untouched(ds: seq<Device>, p: Plan, bus: nat) {
    && (forall k :: k in p.bars ==> k.0 < |ds| && !Under(ds, bus, ds[k.0].bus))
    && (forall i :: i in p.windows ==> i < |ds| && Separate(ds, ds[i].secondary, bus))
  }

  ghost predicate BarGrown(ds: seq<Device>, p: Plan, q: Plan, bus: nat, k: (nat, nat))
    requires k in q.bars
  {
    (k in p.bars && q.bars[k] == p.bars[k]) || (k.0 < |ds| && Under(ds, bus, ds[k.0].bus) && q.bars[k] >= p.next)
  }

  ghost predicate WindowGrown(ds: seq<Device>, p: Plan, q: Plan, bus: nat, i: nat)
    requires i in q.windows
  {
    (i in p.windows && q.windows[i] == p.windows[i]) || (i < |ds| && Under(ds, bus, ds[i].bus))
  }

  /** From `p` to `q` only what is on or below `bus` was planned, past the cursor of `p`. */
  ghost predicate Grown(ds: seq<Device>, p: Plan, q: Plan, bus: nat) {
    && p.next <= q.next
    && (forall k :: k in q.bars ==> BarGrown(ds, p, q, bus, k))
    && (forall i :: i in q.windows ==> WindowGrown(ds, p, q, bus, i))
  }

  lemma GrownThen(ds: seq<Device>, p: Plan, q: Plan, r: Plan, bus: nat)
    requires Grown(ds, p, q, bus) && Grown(ds, q, r, bus)
    ensures Grown(ds, p, r, bus)
  {
    forall k | k in r.bars ensures BarGrown(ds, p, r, bus, k) {
      assert BarGrown(ds, q, r, bus, k);
      assert k in q.bars ==> BarGrown(ds, p, q, bus, k);
    }
    forall i | i in r.windows ensures WindowGrown(ds, p, r, bus, i) {
      assert WindowGrown(ds, q, r, bus, i);
      assert i in q.windows ==> WindowGrown(ds, p, q, bus, i);
    }
  }

  lemma GrownBelow(ds: seq<Device>, p: Plan, q: Plan, bus: nat, i: int)
    requires Follows(ds, i, bus) && Grown(ds, p, q, ds[i].secondary)
    ensures Grown(ds, p, q, bus)
  {
    forall k | k in q.bars ensures BarGrown(ds, p, q, bus, k) {
      assert BarGrown(ds, p, q, ds[i].secondary, k);
    }
    forall j | j in q.windows ensures WindowGrown(ds, p, q, bus, j) {
      assert WindowGrown(ds, p, q, ds[i].secondary, j);
    }
  }

  // ----- laying out the BARs of one bus

  lemma PlaceExactAt(ds: seq<Device>, p: Plan, lo: nat, i: nat, b: nat, w: nat, k: (nat, nat))
    requires DevicesOk(ds) && i < |ds| && b < BAR_COUNT && WindowsOk(ds, p, lo) && Place(ds, p, i, b).Some?
    requires w in p.windows && w < |ds| && !Under(ds, ds[w].secondary, ds[i].bus) && k in Place(ds, p, i, b).value.bars
    ensures ExactAt(ds, Place(ds, p, i, b).value, lo, w, k)
  {
    PlaceBars(ds, p, lo, i, b);
    var q := Place(ds, p, i, b).value;
    BarOf(ds, q, lo, k);
    assert Shaped(ds, p, w);
    assert k in p.bars ==> ExactAt(ds, p, lo, w, k);
    if ds[i].sizes[b] > 0 {
      AlignUpLeast(p.next, ds[i].sizes[b]);
    }
    hide AlignUp, BaseOf, LimitOf, WindowsOk, BarsOk, Under;
  }

  lemma PlaceWindows(ds: seq<Device>, p: Plan, lo: nat, i: nat, b: nat)
    requires DevicesOk(ds) && i < |ds| && b < BAR_COUNT && WindowsOk(ds, p, lo) && Place(ds, p, i, b).Some?
    requires forall w :: w in p.windows ==> w < |ds| && !Under(ds, ds[w].secondary, ds[i].bus)
    ensures WindowsOk(ds, Place(ds, p, i, b).value, lo)
    ensures Place(ds, p, i, b).value.windows == p.windows
    ensures Grown(ds, p, Place(ds, p, i, b).value, ds[i].bus)
  {
    PlaceBars(ds, p, lo, i, b);
    var q := Place(ds, p, i, b).value;
    if ds[i].sizes[b] > 0 {
      AlignUpLeast(p.next, ds[i].sizes[b]);
    }
    hide AlignUp, BaseOf, LimitOf, BarsOk, ExactAt;
    forall w | w in q.windows ensures Shaped(ds, q, w) {
      assert Shaped(ds, p, w);
    }
    forall w, k | w in q.windows && k in q.bars ensures ExactAt(ds, q, lo, w, k) {
      PlaceExactAt(ds, p, lo, i, b, w, k);
    }
    forall k | k in q.bars ensures BarGrown(ds, p, q, ds[i].bus, k) {
    }
    forall w | w in q.windows ensures WindowGrown(ds, p, q, ds[i].bus, w) {
    }
  }

  lemma {:induction false} PlaceDeviceWindows(ds: seq<Device>, p: Plan, lo: nat, i: nat, b: nat)
    requires DevicesOk(ds) && i < |ds| && b <= BAR_COUNT && WindowsOk(ds, p, lo) && PlaceDevice(ds, p, i, b).Some?
    requires forall w :: w in p.windows ==> w < |ds| && !Under(ds, ds[w].secondary, ds[i].bus)
    ensures WindowsOk(ds, PlaceDevice(ds, p, i, b).value, lo)
    ensures PlaceDevice(ds, p, i, b).value.windows == p.windows
    ensures Grown(ds, p, PlaceDevice(ds, p, i, b).value, ds[i].bus)
    decreases BAR_COUNT - b
  {
    hide WindowsOk, Place, Under;
    if b < BAR_COUNT {
      PlaceWindows(ds, p, lo, i, b);
      var q := Place(ds, p, i, b).value;
      PlaceDeviceWindows(ds, q, lo, i, b + 1);
      GrownThen(ds, p, q, PlaceDevice(ds, p, i, b).value, ds[i].bus);
    } else {
      GrownRefl(ds, p, ds[i].bus);
    }
  }

  lemma GrownRefl(ds: seq<Device>, p: Plan, bus: nat)
    ensures Grown(ds, p, p, bus)
  {
  }

  lemma {:induction false} PlaceBusWindows(ds: seq<Device>, p: Plan, lo: nat, bus: nat, i: nat)
    requires DevicesOk(ds) && i <= |ds| && WindowsOk(ds, p, lo) && PlaceBus(ds, p, bus, i).Some?
    requires forall w :: w in p.windows ==> w < |ds| && !Under(ds, ds[w].secondary, bus)
    ensures WindowsOk(ds, PlaceBus(ds, p, bus, i).value, lo)
    ensures PlaceBus(ds, p, bus, i).value.windows == p.windows
    ensures Grown(ds, p, PlaceBus(ds, p, bus, i).value, bus)
    ensures forall k :: k in PlaceBus(ds, p, bus, i).value.bars ==> k in p.bars || (k.0 < |ds| && ds[k.0].bus == bus)
    decreases |ds| - i
  {
    hide WindowsOk, PlaceDevice, Under;
    if i == |ds| {
      GrownRefl(ds, p, bus);
    } else if ds[i].bus != bus {
      PlaceBusWindows(ds, p, lo, bus, i + 1);
    } else {
      PlaceDeviceWindows(ds, p, lo, i, 0);
      PlaceDeviceKeys(ds, p, i, 0);
      var q := PlaceDevice(ds, p, i, 0).value;
      PlaceBusWindows(ds, q, lo, bus, i + 1);
      GrownThen(ds, p, q, PlaceBus(ds, p, bus, i).value, bus);
    }
  }

  lemma {:induction false} PlaceDeviceKeys(ds: seq<Device>, p: Plan, i: nat, b: nat)
    requires DevicesOk(ds) && i < |ds| && b <= BAR_COUNT && PlaceDevice(ds, p, i, b).Some?
    ensures forall k :: k in PlaceDevice(ds, p, i, b).value.bars ==> k in p.bars || k.0 == i
    ensures forall k :: k in p.bars ==> k in PlaceDevice(ds, p, i, b).value.bars
    ensures forall c :: b <= c < BAR_COUNT && ds[i].sizes[c] > 0 ==> (i, c) in PlaceDevice(ds, p, i, b).value.bars
    decreases BAR_COUNT - b
  {
    if b < BAR_COUNT {
      PlaceDeviceKeys(ds, Place(ds, p, i, b).value, i, b + 1);
    }
  }

  // ----- opening a window over a subtree

  lemma RaiseWindows(ds: seq<Device>, p: Plan, lo: nat, n: nat)
    requires DevicesOk(ds) && WindowsOk(ds, p, lo) && n >= p.next
    ensures WindowsOk(ds, p.(next := n), lo)
  {
    var q := p.(next := n);
    hide BaseOf, LimitOf, Under;
    RaiseBars(ds, p, q, lo);
    forall w | w in q.windows ensures Shaped(ds, q, w) {
      assert Shaped(ds, p, w);
    }
    forall w, k | w in q.windows && k in q.bars ensures ExactAt(ds, q, lo, w, k) {
      assert ExactAt(ds, p, lo, w, k);
    }
  }

  /** The decoded window is [begin, end), or empty when the subtree used nothing. */
  lemma WindowIs(begin: nat, end: nat)
    requires begin % GRANULE == 0 && end % GRANULE == 0 && begin <= end <= APERTURE_END
    ensures var w := WindowWord(begin, end);
            if begin < end then !Empty(w) && BaseOf(w) == begin && LimitOf(w) == end - 1 else Empty(w)
  {
    if begin < end {
      WordDecodes(begin, end);
    } else {
      EmptyDecodes();
    }
  }

  /** `p` is the plan as the bridge's turn begins, `q` once its subtree is planned. */
  predicate WindowOver(ds: seq<Device>, p: Plan, q: Plan, r: Plan, i: nat) {
    && r.bars == q.bars && q.next <= r.next <= APERTURE_END && p.next <= q.next
    && p.next % GRANULE == 0 && r.next % GRANULE == 0
    && r.windows == q.windows[i := WindowWord(p.next, r.next)]
  }

  lemma NewWindowExact(ds: seq<Device>, p: Plan, q: Plan, r: Plan, lo: nat, i: nat, k: (nat, nat))
    requires DevicesOk(ds) && i < |ds| && Follows(ds, i, ds[i].bus) && WindowsOk(ds, p, lo) && WindowsOk(ds, q, lo)
    requires Untouched(ds, p, ds[i].secondary) && Grown(ds, p, q, ds[i].secondary) && WindowOver(ds, p, q, r, i)
    requires k in r.bars
    ensures ExactAt(ds, r, lo, i, k)
  {
    WindowIs(p.next, r.next);
    hide BaseOf, LimitOf, WindowWord, Under;
    assert BarOk(ds, q, lo, k) && BarGrown(ds, p, q, ds[i].secondary, k);
    if k in p.bars {
      assert BarOk(ds, p, lo, k);
    }
  }

  lemma OldWindowExact(ds: seq<Device>, q: Plan, r: Plan, lo: nat, w: nat, k: (nat, nat))
    requires DevicesOk(ds) && WindowsOk(ds, q, lo) && r.bars == q.bars && q.next <= r.next
    requires w in q.windows && w in r.windows && r.windows[w] == q.windows[w] && k in q.bars
    ensures ExactAt(ds, r, lo, w, k)
  {
    assert ExactAt(ds, q, lo, w, k);
    hide BaseOf, LimitOf, Under, WindowsOk;
  }

  lemma AddWindow(ds: seq<Device>, p: Plan, q: Plan, r: Plan, lo: nat, i: nat, bus: nat)
    requires DevicesOk(ds) && Follows(ds, i, bus) && WindowsOk(ds, p, lo) && WindowsOk(ds, q, lo)
    requires Untouched(ds, p, ds[i].secondary) && Grown(ds, p, q, ds[i].secondary) && WindowOver(ds, p, q, r, i)
    ensures WindowsOk(ds, r, lo)
  {
    WindowIs(p.next, r.next);
    RaiseBars(ds, q, r, lo);
    BusNotUnder(ds, i, bus);
    hide BaseOf, LimitOf, WindowWord, Under, BarsOk, ExactAt, Untouched, Grown;
    forall w | w in r.windows ensures Shaped(ds, r, w) {
      if w != i {
        assert Shaped(ds, q, w);
      }
    }
    forall w, k | w in r.windows && k in r.bars ensures ExactAt(ds, r, lo, w, k) {
      if w == i {
        NewWindowExact(ds, p, q, r, lo, i, k);
      } else {
        OldWindowExact(ds, q, r, lo, w, k);
      }
    }
    forall w, v | w in r.windows && v in r.windows && w != v && w < |ds| && v < |ds| && ds[w].bus == ds[v].bus
      ensures WindowsApart(r.windows[w], r.windows[v])
    {
      if w == i {
        OlderWindow(ds, p, q, lo, i, bus, v);
      } else if v == i {
        OlderWindow(ds, p, q, lo, i, bus, w);
      } else {
        assert WindowsApart(q.windows[w], q.windows[v]);
      }
    }
  }

  lemma BarOf(ds: seq<Device>, p: Plan, lo: nat, k: (nat, nat))
    requires DevicesOk(ds) && BarsOk(ds, p, lo) && k in p.bars
    ensures BarOk(ds, p, lo, k)
  {
  }

  lemma BusNotUnder(ds: seq<Device>, i: int, bus: nat)
    requires Follows(ds, i, bus)
    ensures !Under(ds, ds[i].secondary, bus)
  {
    if Under(ds, ds[i].secondary, bus) {
      UnderAbove(ds, ds[i].secondary, bus);
    }
  }

  /** Another window on the same bus ended before this one begins. */
  lemma OlderWindow(ds: seq<Device>, p: Plan, q: Plan, lo: nat, i: nat, bus: nat, w: nat)
    requires DevicesOk(ds) && Follows(ds, i, bus) && WindowsOk(ds, p, lo) && WindowsOk(ds, q, lo)
    requires Grown(ds, p, q, ds[i].secondary) && !Under(ds, ds[i].secondary, bus)
    requires w in q.windows && w < |ds| && ds[w].bus == bus
    ensures Empty(q.windows[w]) || LimitOf(q.windows[w]) < p.next
  {
    hide BaseOf, LimitOf, Under;
    assert WindowGrown(ds, p, q, ds[i].secondary, w);
    assert Shaped(ds, p, w);
  }

  // ----- the recursion

  ghost predicate Remaining(ds: seq<Device>, p: Plan, bus: nat, i: nat) {
    forall j :: i <= j < |ds| && Follows(ds, j, bus) ==> Untouched(ds, p, ds[j].secondary)
  }

  lemma RemainingAfterBars(ds: seq<Device>, p: Plan, q: Plan, bus: nat)
    requires Untouched(ds, p, bus) && q.windows == p.windows
    requires forall k :: k in q.bars ==> k in p.bars || (k.0 < |ds| && ds[k.0].bus == bus)
    ensures Remaining(ds, q, bus, 0)
  {
    forall j | 0 <= j < |ds| && Follows(ds, j, bus) ensures Untouched(ds, q, ds[j].secondary) {
      BusNotUnder(ds, j, bus);
      forall k | k in q.bars ensures k.0 < |ds| && !Under(ds, ds[j].secondary, ds[k.0].bus) {
      }
      forall w | w in q.windows ensures w < |ds| && Separate(ds, ds[w].secondary, ds[j].secondary) {
        forall x ensures !(Under(ds, ds[w].secondary, x) && Under(ds, ds[j].secondary, x)) {
          assert Under(ds, ds[j].secondary, x) ==> Under(ds, bus, x);
        }
      }
    }
  }

  lemma SeparateBelow(ds: seq<Device>, i: int, w: nat, j: int, bus: nat)
    requires Tree(ds) && Follows(ds, i, bus) && Follows(ds, j, bus) && i != j
    requires w < |ds| && Follows(ds, w, ds[w].bus) && (w == i || Under(ds, ds[i].secondary, ds[w].bus))
    ensures Separate(ds, ds[w].secondary, ds[j].secondary)
  {
    SiblingsSeparate(ds, i, j, bus);
    if w != i {
      assert Under(ds, ds[w].bus, ds[w].secondary);
      UnderTransitive(ds, ds[i].secondary, ds[w].bus, ds[w].secondary);
      forall x ensures !(Under(ds, ds[w].secondary, x) && Under(ds, ds[j].secondary, x)) {
        if Under(ds, ds[w].secondary, x) {
          UnderTransitive(ds, ds[i].secondary, ds[w].secondary, x);
        }
      }
    }
  }

  lemma RemainingAfterBridge(ds: seq<Device>, p: Plan, q: Plan, r: Plan, lo: nat, bus: nat, i: nat)
    requires DevicesOk(ds) && Tree(ds) && Follows(ds, i, bus) && Remaining(ds, p, bus, i)
    requires Grown(ds, p, q, ds[i].secondary) && r.bars == q.bars && r.windows.Keys == q.windows.Keys + {i}
    requires WindowsOk(ds, r, lo)
    ensures Remaining(ds, r, bus, i + 1)
  {
    forall j | i + 1 <= j < |ds| && Follows(ds, j, bus) ensures Untouched(ds, r, ds[j].secondary) {
      SiblingsSeparate(ds, i, j, bus);
      hide Under;
      forall k | k in r.bars ensures k.0 < |ds| && !Under(ds, ds[j].secondary, ds[k.0].bus) {
        assert BarGrown(ds, p, q, ds[i].secondary, k);
      }
      forall w | w in r.windows ensures w < |ds| && Separate(ds, ds[w].secondary, ds[j].secondary) {
        assert Shaped(ds, r, w);
        if w == i {
          SeparateBelow(ds, i, w, j, bus);
        } else {
          assert WindowGrown(ds, p, q, ds[i].secondary, w);
          if w !in p.windows || q.windows[w] != p.windows[w] {
            SeparateBelow(ds, i, w, j, bus);
          }
        }
      }
    }
  }

  lemma {:induction false} PlanBridgesWindows(ds: seq<Device>, p: Plan, lo: nat, bus: nat, depth: nat, i: nat)
    requires DevicesOk(ds) && Tree(ds) && i <= |ds| && depth < DEPTH_MAX && WindowsOk(ds, p, lo)
    requires Remaining(ds, p, bus, i) && PlanBridges(ds, p, bus, depth, i).Some?
    ensures WindowsOk(ds, PlanBridges(ds, p, bus, depth, i).value, lo)
    ensures Grown(ds, p, PlanBridges(ds, p, bus, depth, i).value, bus)
    decreases DEPTH_MAX - depth, |ds| - i
  {
    if i == |ds| {
      GrownRefl(ds, p, bus);
    } else if ds[i].bus != bus || !ds[i].bridge {
      PlanBridgesWindows(ds, p, lo, bus, depth, i + 1);
    } else {
      assert Untouched(ds, p, ds[i].secondary);
      hide WindowsOk, Grown, Untouched, Remaining, Under, AlignUp, WindowWord;
      var begin := AlignUp(p.next, GRANULE);
      AlignUpLeast(p.next, GRANULE);
      RaiseWindows(ds, p, lo, begin);
      var p1 := p.(next := begin);
      RaisedUntouched(ds, p, begin, ds[i].secondary);
      PlanBusWindows(ds, p1, lo, ds[i].secondary, depth + 1);
      var q := PlanBus(ds, p1, ds[i].secondary, depth + 1).value;
      var end := AlignUp(q.next, GRANULE);
      AlignUpLeast(q.next, GRANULE);
      var r := q.(next := end, windows := q.windows[i := WindowWord(begin, end)]);
      GrownNext(ds, p1, q, ds[i].secondary);
      BelowAperture(q.next, end);
      AddWindow(ds, p1, q, r, lo, i, bus);
      RaisedRemaining(ds, p, begin, bus, i);
      RemainingAfterBridge(ds, p1, q, r, lo, bus, i);
      GrownBridge(ds, p, p1, q, r, bus, i);
      PlanBridgesWindows(ds, r, lo, bus, depth, i + 1);
      GrownThen(ds, p, r, PlanBridges(ds, p, bus, depth, i).value, bus);
    }
  }

  lemma RaisedUntouched(ds: seq<Device>, p: Plan, n: nat, bus: nat)
    requires Untouched(ds, p, bus)
    ensures Untouched(ds, p.(next := n), bus)
  {
  }

  lemma RaisedRemaining(ds: seq<Device>, p: Plan, n: nat, bus: nat, i: nat)
    requires Remaining(ds, p, bus, i)
    ensures Remaining(ds, p.(next := n), bus, i)
  {
    forall j | i <= j < |ds| && Follows(ds, j, bus) ensures Untouched(ds, p.(next := n), ds[j].secondary) {
      RaisedUntouched(ds, p, n, ds[j].secondary);
    }
  }

  lemma GrownNext(ds: seq<Device>, p: Plan, q: Plan, bus: nat)
    requires Grown(ds, p, q, bus)
    ensures p.next <= q.next
  {
  }

  lemma BelowAperture(n: nat, end: nat)
    requires n <= APERTURE_END && end % GRANULE == 0 && end < n + GRANULE
    ensures end <= APERTURE_END
  {
  }

  lemma GrownBridge(ds: seq<Device>, p: Plan, p1: Plan, q: Plan, r: Plan, bus: nat, i: nat)
    requires Follows(ds, i, bus) && p1 == p.(next := p1.next) && p.next <= p1.next
    requires Grown(ds, p1, q, ds[i].secondary) && r.bars == q.bars && r.next >= q.next
    requires i in r.windows && r.windows == q.windows[i := r.windows[i]]
    ensures Grown(ds, p, r, bus)
  {
    GrownBelow(ds, p1, q, bus, i);
    forall k | k in r.bars ensures BarGrown(ds, p, r, bus, k) {
      assert BarGrown(ds, p1, q, bus, k);
    }
    forall w | w in r.windows ensures WindowGrown(ds, p, r, bus, w) {
      assert w in q.windows ==> WindowGrown(ds, p1, q, bus, w);
    }
  }

  /** Planning a bus whose subtree is untouched keeps every window exact. */
  lemma {:induction false} PlanBusWindows(ds: seq<Device>, p: Plan, lo: nat, bus: nat, depth: nat)
    requires DevicesOk(ds) && Tree(ds) && depth <= DEPTH_MAX && WindowsOk(ds, p, lo)
    requires Untouched(ds, p, bus) && PlanBus(ds, p, bus, depth).Some?
    ensures WindowsOk(ds, PlanBus(ds, p, bus, depth).value, lo)
    ensures Grown(ds, p, PlanBus(ds, p, bus, depth).value, bus)
    ensures PlanBus(ds, p, bus, depth).value.next <= APERTURE_END
    decreases DEPTH_MAX - depth, |ds| + 1
  {
    assert forall w :: w in p.windows ==> w < |ds| && !Under(ds, ds[w].secondary, bus) by {
      assert Under(ds, bus, bus);
    }
    hide WindowsOk, Grown, Under, PlaceBus;
    PlaceBusWindows(ds, p, lo, bus, 0);
    var q := PlaceBus(ds, p, bus, 0).value;
    RemainingAfterBars(ds, p, q, bus);
    PlanBridgesWindows(ds, q, lo, bus, depth, 0);
    GrownThen(ds, p, q, PlanBridges(ds, q, bus, depth, 0).value, bus);
  }

  // ----- nothing is forgotten

  /** Everything on or below `bus` has its address, and every bridge its window. */
  ghost predicate Complete(ds: seq<Device>, p: Plan, bus: nat)
    requires DevicesOk(ds)
  {
    && (forall j, b :: 0 <= j < |ds| && 0 <= b < BAR_COUNT && Under(ds, bus, ds[j].bus) && ds[j].sizes[b] > 0 ==>
        (j, b) in p.bars)
    && (forall j :: 0 <= j < |ds| && ds[j].bridge && Under(ds, bus, ds[j].bus) ==> j in p.windows)
  }

  predicate Kept(p: Plan, q: Plan) {
    p.bars.Keys <= q.bars.Keys && p.windows.Keys <= q.windows.Keys
  }

  lemma CompleteKept(ds: seq<Device>, p: Plan, q: Plan, bus: nat)
    requires DevicesOk(ds) && Complete(ds, p, bus) && Kept(p, q)
    ensures Complete(ds, q, bus)
  {
  }

  lemma {:induction false} PlaceBusComplete(ds: seq<Device>, p: Plan, bus: nat, i: nat)
    requires DevicesOk(ds) && i <= |ds| && PlaceBus(ds, p, bus, i).Some?
    ensures Kept(p, PlaceBus(ds, p, bus, i).value)
    ensures forall j, b :: i <= j < |ds| && 0 <= b < BAR_COUNT && ds[j].bus == bus && ds[j].sizes[b] > 0 ==>
              (j, b) in PlaceBus(ds, p, bus, i).value.bars
    decreases |ds| - i
  {
    if i < |ds| {
      if ds[i].bus != bus {
        PlaceBusComplete(ds, p, bus, i + 1);
      } else {
        PlaceDeviceKeys(ds, p, i, 0);
        PlaceDeviceWindowsKept(ds, p, i, 0);
        hide PlaceDevice;
        PlaceBusComplete(ds, PlaceDevice(ds, p, i, 0).value, bus, i + 1);
      }
    }
  }

  lemma {:induction false} PlaceDeviceWindowsKept(ds: seq<Device>, p: Plan, i: nat, b: nat)
    requires DevicesOk(ds) && i < |ds| && b <= BAR_COUNT && PlaceDevice(ds, p, i, b).Some?
    ensures PlaceDevice(ds, p, i, b).value.windows == p.windows
    decreases BAR_COUNT - b
  {
    if b < BAR_COUNT {
      PlaceDeviceWindowsKept(ds, Place(ds, p, i, b).value, i, b + 1);
    }
  }

  ghost predicate BridgesComplete(ds: seq<Device>, p: Plan, bus: nat, i: nat)
    requires DevicesOk(ds)
  {
    forall j :: i <= j < |ds| && ds[j].bus == bus && ds[j].bridge ==>
      j in p.windows && NumbersOk(ds[j], bus) && Complete(ds, p, ds[j].secondary)
  }

  lemma {:induction false} PlanBridgesComplete(ds: seq<Device>, p: Plan, bus: nat, depth: nat, i: nat)
    requires DevicesOk(ds) && i <= |ds| && depth < DEPTH_MAX && PlanBridges(ds, p, bus, depth, i).Some?
    ensures Kept(p, PlanBridges(ds, p, bus, depth, i).value)
    ensures BridgesComplete(ds, PlanBridges(ds, p, bus, depth, i).value, bus, i)
    decreases DEPTH_MAX - depth, |ds| - i
  {
    if i < |ds| {
      if ds[i].bus != bus || !ds[i].bridge {
        PlanBridgesComplete(ds, p, bus, depth, i + 1);
      } else {
        hide AlignUp, WindowWord, Complete;
        var begin := AlignUp(p.next, GRANULE);
        PlanBusComplete(ds, p.(next := begin), ds[i].secondary, depth + 1);
        var q := PlanBus(ds, p.(next := begin), ds[i].secondary, depth + 1).value;
        var end := AlignUp(q.next, GRANULE);
        var r := q.(next := end, windows := q.windows[i := WindowWord(begin, end)]);
        PlanBridgesComplete(ds, r, bus, depth, i + 1);
        CompleteKept(ds, q, PlanBridges(ds, r, bus, depth, i + 1).value, ds[i].secondary);
      }
    }
  }

  lemma {:induction false} PlanBusComplete(ds: seq<Device>, p: Plan, bus: nat, depth: nat)
    requires DevicesOk(ds) && depth <= DEPTH_MAX && PlanBus(ds, p, bus, depth).Some?
    ensures Kept(p, PlanBus(ds, p, bus, depth).value)
    ensures Complete(ds, PlanBus(ds, p, bus, depth).value, bus)
    decreases DEPTH_MAX - depth, |ds| + 1
  {
    var q := PlaceBus(ds, p, bus, 0).value;
    PlaceBusComplete(ds, p, bus, 0);
    PlanBridgesComplete(ds, q, bus, depth, 0);
    var r := PlanBridges(ds, q, bus, depth, 0).value;
    hide PlaceBus, PlanBridges;
    forall j, b | 0 <= j < |ds| && 0 <= b < BAR_COUNT && Under(ds, bus, ds[j].bus) && ds[j].sizes[b] > 0
      ensures (j, b) in r.bars
    {
      if ds[j].bus != bus {
        var i :| Follows(ds, i, bus) && Under(ds, ds[i].secondary, ds[j].bus);
        assert Complete(ds, r, ds[i].secondary);
      }
    }
    forall j | 0 <= j < |ds| && ds[j].bridge && Under(ds, bus, ds[j].bus) ensures j in r.windows {
      if ds[j].bus != bus {
        var i :| Follows(ds, i, bus) && Under(ds, ds[i].secondary, ds[j].bus);
        assert Complete(ds, r, ds[i].secondary);
      }
    }
  }

  /** A successful plan of a hierarchy with distinct secondary buses: every BAR below the root has an
      address, aligned, inside the aperture and clear of all others; every bridge's word decodes to a
      window that holds the BARs behind it and no other, and sibling windows are disjoint. */
  lemma PlanIsExact(ds: seq<Device>, root: nat)
    requires DevicesOk(ds) && Tree(ds)
    requires PlanBus(ds, Plan(map[], map[], APERTURE), root, 0).Some?
    ensures var p := PlanBus(ds, Plan(map[], map[], APERTURE), root, 0).value;
            WindowsOk(ds, p, APERTURE) && Complete(ds, p, root) && p.next <= APERTURE_END
  {
    var e := Plan(map[], map[], APERTURE);
    assert WindowsOk(ds, e, APERTURE) && Untouched(ds, e, root);
    hide PlanBus, WindowsOk, Untouched, Complete;
    PlanBusWindows(ds, e, APERTURE, root, 0);
    PlanBusComplete(ds, e, root, 0);
  }

  // ----- bridges with nothing behind them

  /** No BAR on or below `bus`. */
  ghost predicate Bare(ds: seq<Device>, bus: nat)
    requires DevicesOk(ds)
  {
    forall j, b :: 0 <= j < |ds| && 0 <= b < BAR_COUNT && Under(ds, bus, ds[j].bus) ==> ds[j].sizes[b] == 0
  }

  lemma BareBelow(ds: seq<Device>, i: int, bus: nat)
    requires DevicesOk(ds) && Bare(ds, bus) && Follows(ds, i, bus)
    ensures Bare(ds, ds[i].secondary)
  {
  }

  lemma {:induction false} NoBars(ds: seq<Device>, p: Plan, bus: nat, i: nat)
    requires DevicesOk(ds) && i <= |ds| && Bare(ds, bus)
    ensures PlaceBus(ds, p, bus, i) == Some(p)
    decreases |ds| - i
  {
    if i < |ds| {
      if ds[i].bus == bus {
        NoBarsOf(ds, p, i, 0);
      }
      NoBars(ds, p, bus, i + 1);
    }
  }

  lemma {:induction false} NoBarsOf(ds: seq<Device>, p: Plan, i: nat, b: nat)
    requires DevicesOk(ds) && i < |ds| && b <= BAR_COUNT
    requires forall c :: 0 <= c < BAR_COUNT ==> ds[i].sizes[c] == 0
    ensures PlaceDevice(ds, p, i, b) == Some(p)
    decreases BAR_COUNT - b
  {
    if b < BAR_COUNT {
      NoBarsOf(ds, p, i, b + 1);
    }
  }

  lemma AlignedStays(v: nat)
    requires v % GRANULE == 0
    ensures AlignUp(v, GRANULE) == v
  {
  }

  /** Planning a bare bus moves the cursor nowhere, whatever bridges it has. */
  lemma {:induction false} BareBusStays(ds: seq<Device>, p: Plan, bus: nat, depth: nat)
    requires DevicesOk(ds) && depth <= DEPTH_MAX && Bare(ds, bus) && p.next % GRANULE == 0
    requires PlanBus(ds, p, bus, depth).Some?
    ensures PlanBus(ds, p, bus, depth).value.next == p.next
    decreases DEPTH_MAX - depth, |ds| + 1
  {
    hide Bare;
    NoBars(ds, p, bus, 0);
    BareBridgesStay(ds, p, bus, depth, 0);
  }

  lemma {:induction false} BareBridgesStay(ds: seq<Device>, p: Plan, bus: nat, depth: nat, i: nat)
    requires DevicesOk(ds) && i <= |ds| && depth < DEPTH_MAX && Bare(ds, bus) && p.next % GRANULE == 0
    requires PlanBridges(ds, p, bus, depth, i).Some?
    ensures PlanBridges(ds, p, bus, depth, i).value.next == p.next
    decreases DEPTH_MAX - depth, |ds| - i
  {
    hide Bare, AlignUp, WindowWord;
    if i < |ds| {
      if ds[i].bus != bus || !ds[i].bridge {
        BareBridgesStay(ds, p, bus, depth, i + 1);
      } else {
        BareBelow(ds, i, bus);
        AlignedStays(p.next);
        BareBusStays(ds, p, ds[i].secondary, depth + 1);
        assert p.(next := p.next) == p;
        var q := PlanBus(ds, p, ds[i].secondary, depth + 1).value;
        BareBridgesStay(ds, q.(windows := q.windows[i := WindowWord(p.next, p.next)]), bus, depth, i + 1);
        assert q.(next := p.next, windows := q.windows[i := WindowWord(p.next, p.next)])
            == q.(windows := q.windows[i := WindowWord(p.next, p.next)]);
      }
    }
  }

  /** Every window planned over a bare subtree is empty. */
  ghost predicate BareEmpty(ds: seq<Device>, p: Plan)
    requires DevicesOk(ds)
  {
    forall i :: i in p.windows && i < |ds| && Bare(ds, ds[i].secondary) ==> Empty(p.windows[i])
  }

  lemma {:induction false} PlaceBusKeepsWindows(ds: seq<Device>, p: Plan, bus: nat, i: nat)
    requires DevicesOk(ds) && i <= |ds| && PlaceBus(ds, p, bus, i).Some?
    ensures PlaceBus(ds, p, bus, i).value.windows == p.windows
    decreases |ds| - i
  {
    if i < |ds| {
      if ds[i].bus == bus {
        PlaceDeviceWindowsKept(ds, p, i, 0);
        PlaceBusKeepsWindows(ds, PlaceDevice(ds, p, i, 0).value, bus, i + 1);
      } else {
        PlaceBusKeepsWindows(ds, p, bus, i + 1);
      }
    }
  }

  lemma {:induction false} PlanBusBareEmpty(ds: seq<Device>, p: Plan, bus: nat, depth: nat)
    requires DevicesOk(ds) && depth <= DEPTH_MAX && BareEmpty(ds, p) && PlanBus(ds, p, bus, depth).Some?
    ensures BareEmpty(ds, PlanBus(ds, p, bus, depth).value)
    decreases DEPTH_MAX - depth, |ds| + 1
  {
    PlaceBusKeepsWindows(ds, p, bus, 0);
    PlanBridgesBareEmpty(ds, PlaceBus(ds, p, bus, 0).value, bus, depth, 0);
  }

  lemma {:induction false} PlanBridgesBareEmpty(ds: seq<Device>, p: Plan, bus: nat, depth: nat, i: nat)
    requires DevicesOk(ds) && i <= |ds| && depth < DEPTH_MAX && BareEmpty(ds, p)
        && PlanBridges(ds, p, bus, depth, i).Some?
    ensures BareEmpty(ds, PlanBridges(ds, p, bus, depth, i).value)
    decreases DEPTH_MAX - depth, |ds| - i
  {
    hide Bare, AlignUp, WindowWord;
    if i < |ds| {
      if ds[i].bus != bus || !ds[i].bridge {
        PlanBridgesBareEmpty(ds, p, bus, depth, i + 1);
      } else {
        var begin := AlignUp(p.next, GRANULE);
        var p1 := p.(next := begin);
        PlanBusBareEmpty(ds, p1, ds[i].secondary, depth + 1);
        var q := PlanBus(ds, p1, ds[i].secondary, depth + 1).value;
        var end := AlignUp(q.next, GRANULE);
        if Bare(ds, ds[i].secondary) {
          AlignUpLeast(p.next, GRANULE);
          BareBusStays(ds, p1, ds[i].secondary, depth + 1);
          AlignedStays(begin);
          NoSpan(begin);
        }
        PlanBridgesBareEmpty(ds, q.(next := end, windows := q.windows[i := WindowWord(begin, end)]), bus, depth, i + 1);
      }
    }
  }

  lemma NoSpan(begin: nat)
    ensures Empty(WindowWord(begin, begin))
  {
    EmptyDecodes();
  }

  /** In a successful plan a bridge's window is empty exactly when no BAR lies behind it. */
  lemma EmptyExactly(ds: seq<Device>, root: nat, i: nat)
    requires DevicesOk(ds) && Tree(ds) && PlanBus(ds, Plan(map[], map[], APERTURE), root, 0).Some?
    requires var p := PlanBus(ds, Plan(map[], map[], APERTURE), root, 0).value; i in p.windows
    ensures i < |ds|
    ensures var p := PlanBus(ds, Plan(map[], map[], APERTURE), root, 0).value;
            Empty(p.windows[i]) <==> Bare(ds, ds[i].secondary)
  {
    var e := Plan(map[], map[], APERTURE);
    PlanIsExact(ds, root);
    assert WindowsOk(ds, e, APERTURE) && Untouched(ds, e, root);
    PlanBusWindows(ds, e, APERTURE, root, 0);
    assert BareEmpty(ds, e);
    PlanBusBareEmpty(ds, e, root, 0);
    hide PlanBus;
    var p := PlanBus(ds, e, root, 0).value;
    assert Shaped(ds, p, i) && WindowGrown(ds, e, p, root, i);
    if !Bare(ds, ds[i].secondary) {
      var j, b :| 0 <= j < |ds| && 0 <= b < BAR_COUNT && Under(ds, ds[i].secondary, ds[j].bus) && ds[j].sizes[b] != 0;
      UnderThrough(ds, root, i, ds[j].bus);
      assert (j, b) in p.bars;
      assert ExactAt(ds, p, APERTURE, i, (j, b)) && BarOk(ds, p, APERTURE, (j, b));
    }
  }

  /** Behind a bridge below `root` is below `root`. */
  lemma {:induction false} UnderThrough(ds: seq<Device>, root: nat, i: nat, x: nat)
    requires i < |ds| && Follows(ds, i, ds[i].bus) && Under(ds, root, ds[i].bus) && Under(ds, ds[i].secondary, x)
    ensures Under(ds, root, x)
    decreases 8 - root
  {
    if ds[i].bus != root {
      var k :| Follows(ds, k, root) && Under(ds, ds[k].secondary, ds[i].bus);
      UnderThrough(ds, ds[k].secondary, i, x);
    }
  }
}
