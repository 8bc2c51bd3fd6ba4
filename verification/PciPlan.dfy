/** Recursive planning of PCI memory resources: BARs are laid out bus by bus from a moving cursor,
    and every bridge gets a window over what its subtree used. */
module PciPlan {
  import opened Division
  import opened Options

  const GRANULE: nat := 0x100000
  const APERTURE: nat := 0x40000000
  const APERTURE_END: nat := 0x50000000
  const BAR_COUNT: nat := 6
  const DEPTH_MAX: nat := 8
  const EMPTY_WINDOW: nat := 0x0000fff0

  /** A function of the hierarchy, with the bus numbers its bridge register holds. */
  datatype Device = Device(bus: nat, bridge: bool, secondary: nat, subordinate: nat, sizes: seq<nat>)

  /** `bars` holds the address written for (device, bar), `windows` the word written for a bridge. */
  datatype Plan = Plan(bars: map<(nat, nat), nat>, windows: map<nat, nat>, next: nat)

  predicate DevicesOk(ds: seq<Device>) {
    forall i :: 0 <= i < |ds| ==> |ds[i].sizes| == BAR_COUNT
  }

  // ----- alignment

  /** `resource_align` for the power-of-two alignments of PCI. */
  function AlignUp(v: nat, a: nat): nat
    requires a > 0
  {
    (v + a - 1) / a * a
  }

  lemma AlignUpLeast(v: nat, a: nat)
    requires a > 0
    ensures AlignUp(v, a) % a == 0 && v <= AlignUp(v, a) < v + a
  {
    var k := (v + a - 1) / a;
    MultipleMod(k, a);
    assert v + a - 1 == k * a + (v + a - 1) % a;
  }

  // ----- the plan

  function Place(ds: seq<Device>, p: Plan, i: nat, b: nat): Option<Plan>
    requires DevicesOk(ds) && i < |ds| && b < BAR_COUNT
  {
    var size := ds[i].sizes[b];
    if size == 0 then Some(p)
    else
      var addr := AlignUp(p.next, size);
      if addr + size > APERTURE_END then None
      else Some(p.(bars := p.bars[(i, b) := addr], next := addr + size))
  }

  function PlaceDevice(ds: seq<Device>, p: Plan, i: nat, b: nat): Option<Plan>
    requires DevicesOk(ds) && i < |ds| && b <= BAR_COUNT
    decreases BAR_COUNT - b
  {
    if b == BAR_COUNT then Some(p)
    else match Place(ds, p, i, b)
      case None => None
      case Some(q) => PlaceDevice(ds, q, i, b + 1)
  }

  function PlaceBus(ds: seq<Device>, p: Plan, bus: nat, i: nat): Option<Plan>
    requires DevicesOk(ds) && i <= |ds|
    decreases |ds| - i
  {
    if i == |ds| then Some(p)
    else if ds[i].bus != bus then PlaceBus(ds, p, bus, i + 1)
    else match PlaceDevice(ds, p, i, 0)
      case None => None
      case Some(q) => PlaceBus(ds, q, bus, i + 1)
  }

  predicate NumbersOk(d: Device, bus: nat) {
    bus < d.secondary <= d.subordinate < 8
  }

  /** The bridge register's base and limit fields for the window [begin, end). */
  function Word(begin: nat, end: nat): nat
    requires end > 0
  {
    (begin / 0x10000) % 0x10000 / 0x10 * 0x10 + (end - 1) % 0x1_0000_0000 / GRANULE * GRANULE
  }

  function WindowWord(begin: nat, end: nat): nat {
    if end > begin then Word(begin, end) else EMPTY_WINDOW
  }

  function PlanBridges(ds: seq<Device>, p: Plan, bus: nat, depth: nat, i: nat): Option<Plan>
    requires DevicesOk(ds) && i <= |ds| && depth < DEPTH_MAX
    decreases DEPTH_MAX - depth, |ds| - i
  {
    if i == |ds| then Some(p)
    else if ds[i].bus != bus || !ds[i].bridge then PlanBridges(ds, p, bus, depth, i + 1)
    else if !NumbersOk(ds[i], bus) then None
    else
      var begin := AlignUp(p.next, GRANULE);
      match PlanBus(ds, p.(next := begin), ds[i].secondary, depth + 1)
      case None => None
      case Some(q) =>
        var end := AlignUp(q.next, GRANULE);
        PlanBridges(ds, q.(next := end, windows := q.windows[i := WindowWord(begin, end)]), bus, depth, i + 1)
  }

  /** `plan_bus_resources`. */
  function PlanBus(ds: seq<Device>, p: Plan, bus: nat, depth: nat): Option<Plan>
    requires DevicesOk(ds) && depth <= DEPTH_MAX
    decreases DEPTH_MAX - depth, |ds| + 1
  {
    if depth >= DEPTH_MAX then None
    else match PlaceBus(ds, p, bus, 0)
      case None => None
      case Some(q) =>
        match PlanBridges(ds, q, bus, depth, 0)
        case None => None
        case Some(r) => if r.next <= APERTURE_END then Some(r) else None
  }

  // ----- the window word, as section 3.2.5.8 of the PCI-to-PCI Bridge Architecture Specification,
  //       Revision 1.2, reads it

  function BaseOf(word: nat): nat {
    word % 0x10000 / 0x10 * 0x10 * 0x10000
  }

  function LimitOf(word: nat): nat {
    word / 0x10000 % 0x10000 / 0x10 * 0x10 * 0x10000 + 0xfffff
  }

  lemma WordIs(b: nat, e: nat)
    requires b < e <= 0x1000
    ensures Word(b * GRANULE, e * GRANULE) == b * 0x10 + (e - 1) * GRANULE
  {
    assert b * GRANULE / 0x10000 == b * 0x10;
    assert (e * GRANULE - 1) / GRANULE == e - 1;
  }

  lemma FieldsOf(b: nat, f: nat)
    requires b < 0x1000 && f < 0x1000
    ensures BaseOf(b * 0x10 + f * GRANULE) == b * GRANULE
    ensures LimitOf(b * 0x10 + f * GRANULE) == (f + 1) * GRANULE - 1
  {
    assert (b * 0x10 + f * GRANULE) % 0x10000 == b * 0x10;
    assert (b * 0x10 + f * GRANULE) / 0x10000 == f * 0x10;
  }

  /** The word written for a granule-aligned window reads back as exactly that window. */
  lemma WordDecodes(begin: nat, end: nat)
    requires begin % GRANULE == 0 && end % GRANULE == 0 && begin < end <= 0x1_0000_0000
    ensures BaseOf(Word(begin, end)) == begin && LimitOf(Word(begin, end)) == end - 1
  {
    WordIs(begin / GRANULE, end / GRANULE);
    FieldsOf(begin / GRANULE, end / GRANULE - 1);
  }

  lemma EmptyDecodes()
    ensures BaseOf(EMPTY_WINDOW) > LimitOf(EMPTY_WINDOW)
  {
  }

  // ----- BARs: alignment, order, disjointness

  /** The BAR at `k` sits where its power-of-two size wants it, between `lo` and the cursor. */
  predicate BarOk(ds: seq<Device>, p: Plan, lo: nat, k: (nat, nat))
    requires DevicesOk(ds) && k in p.bars
  {
    && k.0 < |ds| && k.1 < BAR_COUNT && ds[k.0].sizes[k.1] > 0
    && p.bars[k] % ds[k.0].sizes[k.1] == 0
    && lo <= p.bars[k] && p.bars[k] + ds[k.0].sizes[k.1] <= p.next
    && p.bars[k] + ds[k.0].sizes[k.1] <= APERTURE_END
  }

  predicate BarsApart(ds: seq<Device>, p: Plan, k: (nat, nat), l: (nat, nat))
    requires DevicesOk(ds) && k in p.bars && l in p.bars && k.0 < |ds| && l.0 < |ds| && k.1 < BAR_COUNT
        && l.1 < BAR_COUNT
  {
    p.bars[k] + ds[k.0].sizes[k.1] <= p.bars[l] || p.bars[l] + ds[l.0].sizes[l.1] <= p.bars[k]
  }

  predicate BarsOk(ds: seq<Device>, p: Plan, lo: nat)
    requires DevicesOk(ds)
  {
    && lo <= p.next
    && (forall k :: k in p.bars ==> BarOk(ds, p, lo, k))
    && (forall k, l :: k in p.bars && l in p.bars && k != l ==> BarsApart(ds, p, k, l))
  }

  lemma PlaceBars(ds: seq<Device>, p: Plan, lo: nat, i: nat, b: nat)
    requires DevicesOk(ds) && i < |ds| && b < BAR_COUNT && BarsOk(ds, p, lo) && Place(ds, p, i, b).Some?
    ensures BarsOk(ds, Place(ds, p, i, b).value, lo) && p.next <= Place(ds, p, i, b).value.next
  {
    var size := ds[i].sizes[b];
    if size > 0 {
      AlignUpLeast(p.next, size);
      hide AlignUp;
      var q := Place(ds, p, i, b).value;
      forall k | k in q.bars ensures BarOk(ds, q, lo, k) {
        assert k != (i, b) ==> BarOk(ds, p, lo, k);
      }
      forall k, l | k in q.bars && l in q.bars && k != l ensures BarsApart(ds, q, k, l) {
        if k != (i, b) && l != (i, b) {
          assert BarsApart(ds, p, k, l);
        } else if k != (i, b) {
          assert BarOk(ds, p, lo, k);
        } else {
          assert BarOk(ds, p, lo, l);
        }
      }
    }
  }

  lemma {:induction false} PlaceDeviceBars(ds: seq<Device>, p: Plan, lo: nat, i: nat, b: nat)
    requires DevicesOk(ds) && i < |ds| && b <= BAR_COUNT && BarsOk(ds, p, lo) && PlaceDevice(ds, p, i, b).Some?
    ensures BarsOk(ds, PlaceDevice(ds, p, i, b).value, lo) && p.next <= PlaceDevice(ds, p, i, b).value.next
    decreases BAR_COUNT - b
  {
    hide BarsOk, Place;
    if b < BAR_COUNT {
      PlaceBars(ds, p, lo, i, b);
      PlaceDeviceBars(ds, Place(ds, p, i, b).value, lo, i, b + 1);
    }
  }

  lemma {:induction false} PlaceBusBars(ds: seq<Device>, p: Plan, lo: nat, bus: nat, i: nat)
    requires DevicesOk(ds) && i <= |ds| && BarsOk(ds, p, lo) && PlaceBus(ds, p, bus, i).Some?
    ensures BarsOk(ds, PlaceBus(ds, p, bus, i).value, lo) && p.next <= PlaceBus(ds, p, bus, i).value.next
    decreases |ds| - i
  {
    hide BarsOk, PlaceDevice;
    if i < |ds| {
      if ds[i].bus != bus {
        PlaceBusBars(ds, p, lo, bus, i + 1);
      } else {
        PlaceDeviceBars(ds, p, lo, i, 0);
        PlaceBusBars(ds, PlaceDevice(ds, p, i, 0).value, lo, bus, i + 1);
      }
    }
  }

  lemma RaiseBars(ds: seq<Device>, p: Plan, q: Plan, lo: nat)
    requires DevicesOk(ds) && BarsOk(ds, p, lo) && q.bars == p.bars && q.next >= p.next
    ensures BarsOk(ds, q, lo)
  {
    forall k | k in q.bars ensures BarOk(ds, q, lo, k) {
      assert BarOk(ds, p, lo, k);
    }
    forall k, l | k in q.bars && l in q.bars && k != l ensures BarsApart(ds, q, k, l) {
      assert BarsApart(ds, p, k, l);
    }
  }

  lemma {:induction false} PlanBridgesBars(ds: seq<Device>, p: Plan, lo: nat, bus: nat, depth: nat, i: nat)
    requires DevicesOk(ds) && i <= |ds| && depth < DEPTH_MAX && BarsOk(ds, p, lo)
    requires PlanBridges(ds, p, bus, depth, i).Some?
    ensures BarsOk(ds, PlanBridges(ds, p, bus, depth, i).value, lo)
    ensures p.next <= PlanBridges(ds, p, bus, depth, i).value.next
    decreases DEPTH_MAX - depth, |ds| - i
  {
    hide BarsOk, AlignUp, WindowWord;
    if i < |ds| {
      if ds[i].bus != bus || !ds[i].bridge {
        PlanBridgesBars(ds, p, lo, bus, depth, i + 1);
      } else {
        AlignUpLeast(p.next, GRANULE);
        var begin := AlignUp(p.next, GRANULE);
        RaiseBars(ds, p, p.(next := begin), lo);
        PlanBusBars(ds, p.(next := begin), lo, ds[i].secondary, depth + 1);
        var q := PlanBus(ds, p.(next := begin), ds[i].secondary, depth + 1).value;
        AlignUpLeast(q.next, GRANULE);
        var r := q.(next := AlignUp(q.next, GRANULE),
            windows := q.windows[i := WindowWord(begin, AlignUp(q.next, GRANULE))]);
        RaiseBars(ds, q, r, lo);
        PlanBridgesBars(ds, r, lo, bus, depth, i + 1);
      }
    }
  }

  /** On success every BAR planned is aligned to its size, inside the aperture and clear of every
      other one, whatever the bridges' bus numbers. */
  lemma {:induction false} PlanBusBars(ds: seq<Device>, p: Plan, lo: nat, bus: nat, depth: nat)
    requires DevicesOk(ds) && depth <= DEPTH_MAX && BarsOk(ds, p, lo) && PlanBus(ds, p, bus, depth).Some?
    ensures BarsOk(ds, PlanBus(ds, p, bus, depth).value, lo)
    ensures p.next <= PlanBus(ds, p, bus, depth).value.next <= APERTURE_END
    decreases DEPTH_MAX - depth, |ds| + 1
  {
    hide BarsOk, PlaceBus;
    PlaceBusBars(ds, p, lo, bus, 0);
    PlanBridgesBars(ds, PlaceBus(ds, p, bus, 0).value, lo, bus, depth, 0);
  }

  // ----- as the code runs it

  class Planner {
    const ds: seq<Device>
    var bars: map<(nat, nat), nat>
    var windows: map<nat, nat>
    var next: nat

    ghost function Now(): Plan
      reads this
    {
      Plan(bars, windows, next)
    }

    constructor (devices: seq<Device>)
      ensures ds == devices && Now() == Plan(map[], map[], APERTURE)
    {
      ds := devices;
      bars, windows, next := map[], map[], APERTURE;
    }

    /** The BARs of device `i`. */
    method PlaceBarsOf(i: nat) returns (ok: bool)
      requires DevicesOk(ds) && i < |ds|
      modifies `bars, `next
      ensures ok == PlaceDevice(ds, old(Now()), i, 0).Some?
      ensures ok ==> Now() == PlaceDevice(ds, old(Now()), i, 0).value
    {
      hide AlignUp;
      ghost var goal := PlaceDevice(ds, Now(), i, 0);
      var b := 0;
      while b < BAR_COUNT
        invariant 0 <= b <= BAR_COUNT && windows == old(windows)
        invariant PlaceDevice(ds, Now(), i, b) == goal
      {
        var size := ds[i].sizes[b];
        if size != 0 {
          var addr := AlignUp(next, size);
          if addr + size > APERTURE_END {
            return false;
          }
          bars := bars[(i, b) := addr];
          next := addr + size;
        }
        b := b + 1;
      }
      return true;
    }

    /** `plan_bus_resources`. */
    method PlanResources(bus: nat, depth: nat) returns (ok: bool)
      requires DevicesOk(ds) && depth <= DEPTH_MAX
      modifies this
      ensures ok == PlanBus(ds, old(Now()), bus, depth).Some?
      ensures ok ==> Now() == PlanBus(ds, old(Now()), bus, depth).value
      decreases DEPTH_MAX - depth
    {
      if depth >= DEPTH_MAX {
        return false;
      }
      ok := PlaceAll(bus);
      if !ok {
        return;
      }
      ok := BridgeAll(bus, depth);
      if !ok {
        return;
      }
      ok := next <= APERTURE_END;
    }

    method PlaceAll(bus: nat) returns (ok: bool)
      requires DevicesOk(ds)
      modifies `bars, `next
      ensures ok == PlaceBus(ds, old(Now()), bus, 0).Some?
      ensures ok ==> Now() == PlaceBus(ds, old(Now()), bus, 0).value
    {
      ghost var goal := PlaceBus(ds, Now(), bus, 0);
      hide PlaceDevice;
      var i := 0;
      while i < |ds|
        invariant 0 <= i <= |ds| && windows == old(windows)
        invariant PlaceBus(ds, Now(), bus, i) == goal
      {
        if ds[i].bus == bus {
          var placed := PlaceBarsOf(i);
          if !placed {
            return false;
          }
        }
        i := i + 1;
      }
      return true;
    }

    method BridgeAll(bus: nat, depth: nat) returns (ok: bool)
      requires DevicesOk(ds) && depth < DEPTH_MAX
      modifies this
      ensures ok == PlanBridges(ds, old(Now()), bus, depth, 0).Some?
      ensures ok ==> Now() == PlanBridges(ds, old(Now()), bus, depth, 0).value
      decreases DEPTH_MAX - depth, 0
    {
      ghost var goal := PlanBridges(ds, Now(), bus, depth, 0);
      hide PlanBus, AlignUp, WindowWord;
      var i := 0;
      while i < |ds|
        invariant 0 <= i <= |ds|
        invariant PlanBridges(ds, Now(), bus, depth, i) == goal
      {
        if ds[i].bus == bus && ds[i].bridge {
          if !NumbersOk(ds[i], bus) {
            return false;
          }
          var begin := AlignUp(next, GRANULE);
          next := begin;
          var planned := PlanResources(ds[i].secondary, depth + 1);
          if !planned {
            return false;
          }
          next := AlignUp(next, GRANULE);
          windows := windows[i := WindowWord(begin, next)];
        }
        i := i + 1;
      }
      return true;
    }
  }
}
