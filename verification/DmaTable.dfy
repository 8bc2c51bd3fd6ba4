/** The DMA block table and its calls, loop by loop. */
module DmaTable {
  import opened Options
  import opened Tiling
  import opened Dma
  import DmaRuns

  /** What the walk keeps of the nodes seen, after one more. */
  function Seen(kept: seq<Node>, d: Node): seq<Node> {
    var n := |kept| - 1;
    if Reusable(d.tag) && kept != [] && Reusable(kept[n].tag) then kept[..n] + [kept[n].(size := kept[n].size + d.size)]
    else kept + [d]
  }

  lemma ReleaseStep(kept: seq<Node>, nodes: seq<Node>, i: nat, pid: int)
    requires i < |nodes|
    ensures Dma.Release(kept, nodes[i..], pid) == Dma.Release(Seen(kept, Disowned(nodes[i], pid)), nodes[i + 1..], pid)
  {
    assert nodes[i..][1..] == nodes[i + 1..];
  }

  class Table {
    var blocks: seq<Block>

    ghost predicate Valid()
      reads this
    {
      DmaRuns.AllChained(blocks)
    }

    constructor ()
      ensures Valid() && blocks == []
    {
      blocks := [];
    }

    method Coalesce(nodes: seq<Node>, i: nat) returns (r: seq<Node>)
      requires i < |nodes|
      ensures r == Dma.Coalesce(nodes, i)
    {
      r := nodes;
      if !Reusable(r[i].tag) {
        return;
      }
      var k := i;
      if i > 0 && Reusable(r[i - 1].tag) {
        r := Join(r, i - 1, FREE);
        k := i - 1;
      }
      ghost var goal := MergeNexts(r, k);
      while k + 1 < |r| && Reusable(r[k + 1].tag)
        invariant k < |r| && MergeNexts(r, k) == goal
        decreases |r|
      {
        r := Join(r, k, FREE);
      }
    }

    /** The address handed out, or 0. */
    method Alloc(id: nat, pid: int, size: Size) returns (addr: nat)
      requires Valid()
      modifies this
      ensures Valid() && blocks == DmaRuns.Next(old(blocks), DmaRuns.EAlloc(id, pid, size))
      ensures addr == if id < |old(blocks)| && Dma.Alloc(old(blocks)[id].nodes, pid, size).1 < |old(blocks)[id].nodes|
                      then old(blocks)[id].nodes[Dma.Alloc(old(blocks)[id].nodes, pid, size).1].start else 0
    {
      DmaRuns.NextChained(blocks, DmaRuns.EAlloc(id, pid, size));
      if id >= |blocks| {
        return 0;
      }
      hide Chain, PageUp;
      var nodes, n := blocks[id].nodes, PageUp(size);
      var i := 0;
      while i < |nodes| && !(Reusable(nodes[i].tag) && nodes[i].size >= n)
        invariant 0 <= i <= |nodes| && FirstRoom(nodes, n, i) == FirstRoom(nodes, n, 0)
      {
        i := i + 1;
      }
      if i == |nodes| {
        assert blocks[id := blocks[id].(nodes := nodes)] == blocks;
        return 0;
      }
      addr := nodes[i].start;
      if nodes[i].size > n {
        nodes := Carve(nodes, i, n, pid);
      } else {
        nodes := Retag(nodes, i, Hold(pid, 0));
      }
      blocks := blocks[id := blocks[id].(nodes := nodes)];
    }

    method Free(id: nat, pid: int, addr: nat)
      requires Valid()
      modifies this
      ensures Valid() && blocks == DmaRuns.Next(old(blocks), DmaRuns.EFree(id, pid, addr))
    {
      DmaRuns.NextChained(blocks, DmaRuns.EFree(id, pid, addr));
      if id >= |blocks| {
        return;
      }
      var nodes := blocks[id].nodes;
      var i := 0;
      while i < |nodes| && !(nodes[i].tag.pid == pid && nodes[i].start == addr)
        invariant 0 <= i <= |nodes| && Owned(nodes, pid, addr, i) == Owned(nodes, pid, addr, 0)
      {
        i := i + 1;
      }
      if i < |nodes| {
        nodes := Retag(nodes, i, nodes[i].tag.(pid := 0));
        nodes := Coalesce(nodes, i);
      }
      blocks := blocks[id := blocks[id].(nodes := nodes)];
    }

    method Pin(id: nat, pid: int, addr: nat, size: Size) returns (ok: bool)
      requires Valid()
      modifies this
      ensures Valid() && blocks == DmaRuns.Next(old(blocks), DmaRuns.EPin(id, pid, addr, size))
      ensures ok == (id < |old(blocks)| && Dma.Pin(old(blocks)[id].nodes, pid, addr, size).1)
    {
      DmaRuns.NextChained(blocks, DmaRuns.EPin(id, pid, addr, size));
      if id >= |blocks| {
        return false;
      }
      assert blocks[id := blocks[id].(nodes := blocks[id].nodes)] == blocks;
      if pid == 0 || size == 0 {
        return false;
      }
      var nodes := blocks[id].nodes;
      var i := 0;
      while i < |nodes| && !(nodes[i].tag.pid == pid && nodes[i].start == addr && size <= nodes[i].size)
        invariant 0 <= i <= |nodes| && Pinnable(nodes, pid, addr, size, i) == Pinnable(nodes, pid, addr, size, 0)
      {
        i := i + 1;
      }
      if i == |nodes| || nodes[i].tag.pins >= PINS_MAX {
        return false;
      }
      nodes := Retag(nodes, i, nodes[i].tag.(pins := nodes[i].tag.pins + 1));
      blocks := blocks[id := blocks[id].(nodes := nodes)];
      return true;
    }

    method Unpin(id: nat, addr: nat) returns (ok: bool)
      requires Valid()
      modifies this
      ensures Valid() && blocks == DmaRuns.Next(old(blocks), DmaRuns.EUnpin(id, addr))
      ensures ok == (id < |old(blocks)| && Dma.Unpin(old(blocks)[id].nodes, addr).1)
    {
      DmaRuns.NextChained(blocks, DmaRuns.EUnpin(id, addr));
      if id >= |blocks| {
        return false;
      }
      assert blocks[id := blocks[id].(nodes := blocks[id].nodes)] == blocks;
      var nodes := blocks[id].nodes;
      var i := 0;
      while i < |nodes| && !(nodes[i].start == addr && nodes[i].tag.pins != 0)
        invariant 0 <= i <= |nodes| && PinnedAt(nodes, addr, i) == PinnedAt(nodes, addr, 0)
      {
        i := i + 1;
      }
      if i == |nodes| {
        return false;
      }
      nodes := Retag(nodes, i, nodes[i].tag.(pins := nodes[i].tag.pins - 1));
      nodes := Coalesce(nodes, i);
      blocks := blocks[id := blocks[id].(nodes := nodes)];
      return true;
    }

    method ReleaseNodes(nodes: seq<Node>, pid: int) returns (kept: seq<Node>)
      ensures kept == Dma.Release([], nodes, pid)
    {
      kept := [];
      var i := 0;
      assert nodes[0..] == nodes;
      while i < |nodes|
        invariant 0 <= i <= |nodes|
        invariant Dma.Release(kept, nodes[i..], pid) == Dma.Release([], nodes, pid)
      {
        ReleaseStep(kept, nodes, i, pid);
        var d := nodes[i];
        if d.tag.pid == pid {
          d := d.(tag := d.tag.(pid := 0));
        }
        hide Dma.Release;
        var n := |kept| - 1;
        if Reusable(d.tag) && n >= 0 && Reusable(kept[n].tag) {
          kept := kept[..n] + [kept[n].(size := kept[n].size + d.size)];
        } else {
          kept := kept + [d];
        }
        i := i + 1;
      }
    }

    method Release(pid: int)
      requires Valid()
      modifies this
      ensures Valid() && blocks == DmaRuns.Next(old(blocks), DmaRuns.ERelease(pid))
    {
      DmaRuns.NextChained(blocks, DmaRuns.ERelease(pid));
      ghost var before := blocks;
      var i := 0;
      while i < |blocks|
        invariant 0 <= i <= |blocks| == |before|
        invariant forall j :: 0 <= j < i ==> blocks[j] == before[j].(nodes := Dma.Release([], before[j].nodes, pid))
        invariant forall j :: i <= j < |blocks| ==> blocks[j] == before[j]
      {
        var kept := ReleaseNodes(blocks[i].nodes, pid);
        blocks := blocks[i := blocks[i].(nodes := kept)];
        i := i + 1;
      }
      ghost var goal := DmaRuns.Next(before, DmaRuns.ERelease(pid));
      assert |goal| == |blocks| && forall j :: 0 <= j < |goal| ==> goal[j] == blocks[j];
    }

    /** `dma_set` once the caller is accepted. */
    method Set(pid: int, base: nat, asked: Size, dead: set<int>) returns (r: SetResult)
      requires Valid()
      modifies this
      ensures Valid() && blocks == DmaRuns.Next(old(blocks), DmaRuns.ESet(pid, base, asked, dead))
      ensures match RangeSize(base, asked)
              case None => r == Refused
              case Some(size) => r == Registered(old(blocks), pid, base, size, dead, 0).1
    {
      DmaRuns.NextChained(blocks, DmaRuns.ESet(pid, base, asked, dead));
      var size := asked / PAGE_SIZE * PAGE_SIZE;
      if base % PAGE_SIZE != 0 {
        if size < 2 * PAGE_SIZE {
          return Refused;
        }
        size := size - PAGE_SIZE;
      }
      r := Register(pid, base, size, dead);
    }

    /** A slot of the same range whose owner is gone, or a new one. */
    method Register(pid: int, base: nat, size: nat, dead: set<int>) returns (r: SetResult)
      modifies this
      ensures (blocks, r) == Registered(old(blocks), pid, base, size, dead, 0)
    {
      var i := 0;
      while i < |blocks|
        invariant 0 <= i <= |blocks| && blocks == old(blocks)
        invariant Registered(blocks, pid, base, size, dead, i) == Registered(blocks, pid, base, size, dead, 0)
      {
        if blocks[i].base == base && blocks[i].size == size {
          var pinned := HasPins(blocks[i].nodes);
          if pinned {
            return Refused;
          }
          if blocks[i].owner >= 0 && (blocks[i].owner == pid || blocks[i].owner in dead) {
            blocks := blocks[i := blocks[i].(owner := pid, nodes := [Run(base, size, FREE)])];
            return Reclaimed(i);
          }
        }
        i := i + 1;
      }
      if |blocks| >= BLOCK_MAX {
        return Refused;
      }
      blocks := blocks + [Block(base, size, pid, [Run(base, size, FREE)])];
      return Added;
    }

    method HasPins(nodes: seq<Node>) returns (pinned: bool)
      ensures pinned == AnyPinned(nodes)
    {
      var i := 0;
      while i < |nodes|
        invariant 0 <= i <= |nodes| && forall j :: 0 <= j < i ==> nodes[j].tag.pins == 0
      {
        if nodes[i].tag.pins != 0 {
          return true;
        }
        i := i + 1;
      }
      return false;
    }
  }
}
