/** A bump allocator over one region of addresses. */
module LinearArena {
  import opened Words
  import opened Divisions
  import opened Alignment

  datatype Block = Block(address: nat, size: nat, alignment: nat)

  function NextAligned(address: nat, alignment: nat): nat
    requires alignment > 0
  {
    address + (alignment - address % alignment) % alignment
  }

  lemma NextAlignedIsLeast(address: nat, alignment: nat)
    requires alignment > 0
    ensures LeastAligned(NextAligned(address, alignment), address, alignment)
  {
    var q, r := address / alignment, address % alignment;
    if r == 0 {
      DivModUnique(alignment, 1, 0, alignment);
    } else {
      DivModUnique(alignment - r, 0, alignment - r, alignment);
      assert address + (alignment - r) == (q + 1) * alignment + 0;
      DivModUnique(address + (alignment - r), q + 1, 0, alignment);
    }
  }

  /** `std::align`: the first aligned address in [address, address + space) that leaves `size` bytes. */
  function StdAlign(alignment: nat, size: nat, address: nat, space: nat): (r: Option<nat>)
    requires alignment > 0
    ensures r.Some? ==> address <= r.value && r.value - address + size <= space
  {
    NextAlignedIsLeast(address, alignment);
    var aligned := NextAligned(address, alignment);
    if aligned - address + size <= space then Some(aligned) else None
  }

  /** The blocks lie in [from, to), in order, aligned, non-empty and without overlap. */
  ghost predicate Laid(blocks: seq<Block>, from: nat, to: nat) {
    && (forall b :: b in blocks ==>
          0 < b.size && from <= b.address && b.address + b.size <= to
          && 0 < b.alignment && b.address % b.alignment == 0)
    && (forall i, j :: 0 <= i < j < |blocks| ==> blocks[i].address + blocks[i].size <= blocks[j].address)
  }

  predicate Overlap(a: Block, b: Block) {
    a.address < b.address + b.size && b.address < a.address + a.size
  }

  class LinearArena {
    const begin: nat
    const capacity: nat
    var current: nat
    var remaining: nat
    /** The blocks handed out since the last reset. */
    ghost var blocks: seq<Block>

    ghost predicate Valid()
      reads this
    {
      && begin + capacity <= U64_LIMIT
      && begin <= current && current + remaining == begin + capacity
      && Laid(blocks, begin, current)
    }

    constructor (memory: nat, size: nat)
      requires memory + size <= U64_LIMIT
      ensures Valid() && begin == memory && capacity == size && current == memory && blocks == []
    {
      begin, current, capacity, remaining := memory, memory, size, size;
      blocks := [];
    }

    /** A block of positive size comes back exactly when the first aligned address at or after the
        current one leaves enough room, and it is that address; a failure changes nothing. */
    method TryAllocate(size: nat, alignment: u64) returns (r: Option<nat>)
      requires Valid() && SingleBit(alignment)
      modifies this
      ensures Valid()
      ensures forall least :: LeastAligned(least, old(current), alignment) ==>
                r == if size > 0 && least + size <= begin + capacity then Some(least) else None
      ensures r.Some? ==> blocks == old(blocks) + [Block(r.value, size, alignment)] && current == r.value + size
      ensures r.None? ==> unchanged(this)
    {
      forall least | LeastAligned(least, current, alignment) ensures least == NextAligned(current, alignment) {
        NextAlignedIsLeast(current, alignment);
        LeastAlignedUnique(least, NextAligned(current, alignment), current, alignment);
      }
      NextAlignedIsLeast(current, alignment);
      if size == 0 {
        return None;
      }
      if size > remaining {
        return None;
      }
      r := StdAlign(alignment, size, current, remaining);
      if r.None? {
        return;
      }
      var space := remaining - (r.value - current);
      current := r.value + size;
      remaining := space - size;
      blocks := blocks + [Block(r.value, size, alignment)];
    }

    method Reset()
      requires Valid()
      modifies this
      ensures Valid() && current == begin && remaining == capacity && blocks == []
    {
      current := begin;
      remaining := capacity;
      blocks := [];
    }

    /** `used` and `remaining` always split the capacity at the current address. */
    method Used() returns (used: nat)
      requires Valid()
      ensures used == current - begin && used + remaining == capacity
    {
      used := capacity - remaining;
    }
  }

  /** No two blocks handed out since the last reset share a byte. */
  lemma LaidBlocksAreDisjoint(blocks: seq<Block>, from: nat, to: nat, i: nat, j: nat)
    requires Laid(blocks, from, to) && i < |blocks| && j < |blocks| && i != j
    ensures !Overlap(blocks[i], blocks[j])
  {
    if j < i {
      assert blocks[j].address + blocks[j].size <= blocks[i].address;
    }
  }

  datatype Request = Allocate(size: nat, alignment: u64) | Reset

  /** Any sequence of requests leaves the arena in order; each answered address was aligned. */
  method Serve(arena: LinearArena, requests: seq<Request>) returns (answers: seq<Option<nat>>)
    requires arena.Valid()
    requires forall q :: q in requests && q.Allocate? ==> SingleBit(q.alignment)
    modifies arena
    ensures arena.Valid() && |answers| == |requests|
    ensures forall k :: 0 <= k < |requests| && requests[k].Allocate? && answers[k].Some? ==>
              requests[k].size > 0 && requests[k].alignment > 0 && answers[k].value % requests[k].alignment == 0
              && arena.begin <= answers[k].value && answers[k].value + requests[k].size <= arena.begin + arena.capacity
  {
    answers := [];
    for k := 0 to |requests|
      invariant arena.Valid() && |answers| == k
      invariant forall i :: 0 <= i < k && requests[i].Allocate? && answers[i].Some? ==>
                  requests[i].size > 0 && requests[i].alignment > 0 && answers[i].value % requests[i].alignment == 0
                  && arena.begin <= answers[i].value
                  && answers[i].value + requests[i].size <= arena.begin + arena.capacity
    {
      match requests[k]
      case Allocate(size, alignment) =>
        assert requests[k] in requests;
        var r := arena.TryAllocate(size, alignment);
        if r.Some? { assert arena.blocks[|arena.blocks| - 1] in arena.blocks; }
        answers := answers + [r];
      case Reset =>
        arena.Reset();
        answers := answers + [None];
    }
  }
}
