/** When planning succeeds: exactly when the bus numbers are sane and everything, laid out one after the
    other, ends inside the aperture. */
module PciExact {
  import opened Options
  import opened PciPlan
  import opened PciWindows

  /** Every bridge on or below `bus` has bus numbers that lead down. */
  ghost predicate Sane(ds: seq<Device>, bus: nat) {
    forall j :: 0 <= j < |ds| && ds[j].bridge && Under(ds, bus, ds[j].bus) ==> NumbersOk(ds[j], ds[j].bus)
  }

  ghost predicate SaneFrom(ds: seq<Device>, bus: nat, i: nat) {
    forall j :: i <= j < |ds| && ds[j].bus == bus && ds[j].bridge ==>
      NumbersOk(ds[j], bus) && Sane(ds, ds[j].secondary)
  }

  lemma SaneSplit(ds: seq<Device>, bus: nat)
    ensures Sane(ds, bus) <==> SaneFrom(ds, bus, 0)
  {
    if Sane(ds, bus) {
      forall j | 0 <= j < |ds| && ds[j].bus == bus && ds[j].bridge
        ensures NumbersOk(ds[j], bus) && Sane(ds, ds[j].secondary)
      {
        assert Under(ds, bus, bus) && Follows(ds, j, bus);
      }
    }
    if SaneFrom(ds, bus, 0) {
      forall j | 0 <= j < |ds| && ds[j].bridge && Under(ds, bus, ds[j].bus) ensures NumbersOk(ds[j], ds[j].bus) {
        if ds[j].bus != bus {
          var i :| Follows(ds, i, bus) && Under(ds, ds[i].secondary, ds[j].bus);
          assert Sane(ds, ds[i].secondary);
        }
      }
    }
  }

  // ----- where a layout ends, were there no limit

  function BarsEnd(sizes: seq<nat>, n: nat): nat {
    if sizes == [] then n
    else BarsEnd(sizes[1..], if sizes[0] == 0 then n else AlignUp(n, sizes[0]) + sizes[0])
  }

  function OnBusEnd(ds: seq<Device>, bus: nat, n: nat, i: nat): nat
    requires i <= |ds|
    decreases |ds| - i
  {
    if i == |ds| then n
    else OnBusEnd(ds, bus, if ds[i].bus == bus then BarsEnd(ds[i].sizes, n) else n, i + 1)
  }

  /** Each bridge's part starts and ends on a granule. */
  function BridgesEnd(ds: seq<Device>, bus: nat, n: nat, i: nat): nat
    requires i <= |ds|
    decreases 8 - bus, |ds| - i
  {
    if i == |ds| then n
    else
      var m := if Follows(ds, i, bus) then AlignUp(BusEnd(ds, ds[i].secondary, AlignUp(n, GRANULE)), GRANULE) else n;
      BridgesEnd(ds, bus, m, i + 1)
  }

  function BusEnd(ds: seq<Device>, bus: nat, n: nat): nat
    decreases 8 - bus, |ds| + 1
  {
    BridgesEnd(ds, bus, OnBusEnd(ds, bus, n, 0), 0)
  }

  lemma {:induction false} BarsGrow(sizes: seq<nat>, n: nat)
    ensures n <= BarsEnd(sizes, n)
    decreases |sizes|
  {
    if sizes != [] {
      if sizes[0] > 0 {
        AlignUpLeast(n, sizes[0]);
      }
      BarsGrow(sizes[1..], if sizes[0] == 0 then n else AlignUp(n, sizes[0]) + sizes[0]);
    }
  }

  lemma {:induction false} OnBusGrows(ds: seq<Device>, bus: nat, n: nat, i: nat)
    requires i <= |ds|
    ensures n <= OnBusEnd(ds, bus, n, i)
    decreases |ds| - i
  {
    if i < |ds| {
      BarsGrow(ds[i].sizes, n);
      OnBusGrows(ds, bus, if ds[i].bus == bus then BarsEnd(ds[i].sizes, n) else n, i + 1);
    }
  }

  lemma {:induction false} BridgesGrow(ds: seq<Device>, bus: nat, n: nat, i: nat)
    requires i <= |ds|
    ensures n <= BridgesEnd(ds, bus, n, i)
    decreases 8 - bus, |ds| - i
  {
    hide AlignUp;
    if i < |ds| {
      if Follows(ds, i, bus) {
        var begin := AlignUp(n, GRANULE);
        AlignUpLeast(n, GRANULE);
        BusGrows(ds, ds[i].secondary, begin);
        var end := BusEnd(ds, ds[i].secondary, begin);
        AlignUpLeast(end, GRANULE);
        BridgesGrow(ds, bus, AlignUp(end, GRANULE), i + 1);
      } else {
        BridgesGrow(ds, bus, n, i + 1);
      }
    }
  }

  lemma {:induction false} BusGrows(ds: seq<Device>, bus: nat, n: nat)
    ensures n <= BusEnd(ds, bus, n)
    decreases 8 - bus, |ds| + 1
  {
    OnBusGrows(ds, bus, n, 0);
    BridgesGrow(ds, bus, OnBusEnd(ds, bus, n, 0), 0);
  }

  // ----- the planner against it

  /** The plan succeeds exactly when its layout ends at or before the top, and ends there. */
  predicate EndsAt(r: Option<Plan>, end: nat) {
    (r.Some? <==> end <= APERTURE_END) && (r.Some? ==> r.value.next == end)
  }

  lemma {:induction false} PlaceDeviceEnds(ds: seq<Device>, p: Plan, i: nat, b: nat)
    requires DevicesOk(ds) && i < |ds| && b <= BAR_COUNT && p.next <= APERTURE_END
    ensures EndsAt(PlaceDevice(ds, p, i, b), BarsEnd(ds[i].sizes[b..], p.next))
    decreases BAR_COUNT - b
  {
    hide AlignUp;
    if b < BAR_COUNT {
      var size, rest := ds[i].sizes[b], ds[i].sizes[b + 1..];
      assert ds[i].sizes[b..][1..] == rest;
      match Place(ds, p, i, b)
      case None => BarsGrow(rest, AlignUp(p.next, size) + size);
      case Some(q) => PlaceDeviceEnds(ds, q, i, b + 1);
    }
  }

  lemma {:induction false} PlaceBusEnds(ds: seq<Device>, p: Plan, bus: nat, i: nat)
    requires DevicesOk(ds) && i <= |ds| && p.next <= APERTURE_END
    ensures EndsAt(PlaceBus(ds, p, bus, i), OnBusEnd(ds, bus, p.next, i))
    decreases |ds| - i
  {
    if i < |ds| {
      if ds[i].bus != bus {
        PlaceBusEnds(ds, p, bus, i + 1);
      } else {
        PlaceDeviceEnds(ds, p, i, 0);
        assert ds[i].sizes[0..] == ds[i].sizes;
        hide PlaceDevice;
        match PlaceDevice(ds, p, i, 0)
        case None => OnBusGrows(ds, bus, BarsEnd(ds[i].sizes, p.next), i + 1);
        case Some(q) => PlaceBusEnds(ds, q, bus, i + 1);
      }
    }
  }

  /** Both: sane numbers, and an end inside. */
  predicate Plans(r: Option<Plan>, sane: bool, end: nat) {
    (r.Some? <==> sane && end <= APERTURE_END) && (r.Some? ==> r.value.next == end)
  }

  lemma {:induction false} PlanBridgesEnds(ds: seq<Device>, p: Plan, bus: nat, depth: nat, i: nat)
    requires DevicesOk(ds) && i <= |ds| && p.next <= APERTURE_END && depth < DEPTH_MAX && depth <= bus
    ensures Plans(PlanBridges(ds, p, bus, depth, i), SaneFrom(ds, bus, i), BridgesEnd(ds, bus, p.next, i))
    decreases 8 - bus, |ds| - i
  {
    hide Sane, AlignUp, WindowWord;
    if i < |ds| {
      if ds[i].bus != bus || !ds[i].bridge {
        PlanBridgesEnds(ds, p, bus, depth, i + 1);
      } else if NumbersOk(ds[i], bus) {
        PlanBridgeEnds(ds, p, bus, depth, i);
      }
    }
  }

  lemma {:induction false} PlanBridgeEnds(ds: seq<Device>, p: Plan, bus: nat, depth: nat, i: nat)
    requires DevicesOk(ds) && i < |ds| && p.next <= APERTURE_END && depth < DEPTH_MAX && depth <= bus
    requires Follows(ds, i, bus)
    ensures Plans(PlanBridges(ds, p, bus, depth, i), SaneFrom(ds, bus, i), BridgesEnd(ds, bus, p.next, i))
    decreases 8 - bus, |ds| - i, 0
  {
    hide Sane, AlignUp, WindowWord;
    var begin := AlignUp(p.next, GRANULE);
    AlignUpLeast(p.next, GRANULE);
    BelowAperture(p.next, begin);
    var p1 := p.(next := begin);
    var low := ds[i].secondary;
    PlanBusEnds(ds, p1, low, depth + 1);
    var end := AlignUp(BusEnd(ds, low, begin), GRANULE);
    AlignUpLeast(BusEnd(ds, low, begin), GRANULE);
    assert SaneFrom(ds, bus, i) <==> Sane(ds, low) && SaneFrom(ds, bus, i + 1);
    hide PlanBus, BusEnd;
    match PlanBus(ds, p1, low, depth + 1)
    case None => BridgesGrow(ds, bus, end, i + 1);
    case Some(q) =>
      BelowAperture(q.next, end);
      PlanBridgesEnds(ds, q.(next := end, windows := q.windows[i := WindowWord(begin, end)]), bus, depth, i + 1);
  }

  lemma {:induction false} PlanBusEnds(ds: seq<Device>, p: Plan, bus: nat, depth: nat)
    requires DevicesOk(ds) && p.next <= APERTURE_END && depth < DEPTH_MAX && depth <= bus
    ensures Plans(PlanBus(ds, p, bus, depth), Sane(ds, bus), BusEnd(ds, bus, p.next))
    decreases 8 - bus, |ds| + 1
  {
    PlaceBusEnds(ds, p, bus, 0);
    SaneSplit(ds, bus);
    hide Sane, SaneFrom, PlaceBus;
    match PlaceBus(ds, p, bus, 0)
    case None => BridgesGrow(ds, bus, OnBusEnd(ds, bus, p.next, 0), 0);
    case Some(q) => PlanBridgesEnds(ds, q, bus, depth, 0);
  }

  /** Planning succeeds if and only if every bridge below the root has bus numbers that lead down and the
      layout from the bottom of the aperture ends inside it; the limit on nesting refuses nothing more. */
  lemma PlanExactly(ds: seq<Device>, root: nat)
    requires DevicesOk(ds)
    ensures var r := PlanBus(ds, Plan(map[], map[], APERTURE), root, 0);
            && (r.Some? <==> Sane(ds, root) && BusEnd(ds, root, APERTURE) <= APERTURE_END)
            && (r.Some? ==> r.value.next == BusEnd(ds, root, APERTURE))
  {
    PlanBusEnds(ds, Plan(map[], map[], APERTURE), root, 0);
  }
}
