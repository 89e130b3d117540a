/** Allocator backends and the owners of their blocks. */
module Allocation {
  import opened Words

  datatype Layout = Layout(size: nat, alignment: nat)

  const NO_LAYOUT: Layout := Layout(0, 1)

  /** One request an allocator was asked, and whether it granted it. */
  datatype Answer = Answer(layout: Layout, granted: bool)

  /** An allocator: what it has handed out and not got back, with the layout each block was asked for, and
      every request it was ever asked, with its answer. */
  class Backend {
    ghost var live: map<array<byte>, Layout>
    ghost var asked: seq<Answer>

    constructor ()
      ensures live == map[] && asked == []
    {
      live, asked := map[], [];
    }

    /** A backend may refuse at any time. */
    method TryAllocate(size: nat, alignment: nat) returns (m: array?<byte>)
      requires size > 0
      modifies this
      ensures m == null ==> live == old(live)
      ensures m != null ==> fresh(m) && m.Length == size && live == old(live)[m := Layout(size, alignment)]
      ensures asked == old(asked) + [Answer(Layout(size, alignment), m != null)]
    {
      var refuses := *;
      asked := asked + [Answer(Layout(size, alignment), !refuses)];
      if refuses { return null; }
      m := new byte[size];
      live := live[m := Layout(size, alignment)];
    }

    /** Only a block that is out may be returned, once, with the layout it was asked for. */
    method Deallocate(m: array<byte>, size: nat, alignment: nat)
      requires m in live && live[m] == Layout(size, alignment)
      modifies this
      ensures live == old(live) - {m} && asked == old(asked)
    {
      live := live - {m};
    }

    /** The erased reference: nothing is asked of the backend for a layout of size 0. */
    method TryAllocateLayout(layout: Layout) returns (m: array?<byte>)
      modifies this
      ensures m == null ==> live == old(live)
      ensures m != null ==> layout.size > 0 && fresh(m) && m.Length == layout.size && live == old(live)[m := layout]
      ensures asked == old(asked) + if layout.size == 0 then [] else [Answer(layout, m != null)]
    {
      if layout.size == 0 { return null; }
      m := TryAllocate(layout.size, layout.alignment);
    }

    /** Nothing is returned for a null block. */
    method DeallocateLayout(m: array?<byte>, layout: Layout)
      requires m != null ==> m in live && live[m] == layout
      modifies this
      ensures live == (if m == null then old(live) else old(live) - {m}) && asked == old(asked)
    {
      if m != null {
        Deallocate(m, layout.size, layout.alignment);
      }
    }
  }

  class OwnedAllocation {
    var allocator: Backend
    var memory: array?<byte>
    var layout: Layout

    /** The block held is out, at this owner's backend, with this owner's layout. */
    ghost predicate Owns()
      reads this, allocator
    {
      if memory == null then layout.size == 0
      else memory in allocator.live && allocator.live[memory] == layout && memory.Length == layout.size > 0
    }

    ghost predicate Empty()
      reads this
    {
      memory == null && layout == NO_LAYOUT
    }

    constructor (allocator: Backend, memory: array?<byte>, layout: Layout)
      ensures this.allocator == allocator && this.memory == memory && this.layout == layout
    {
      this.allocator, this.memory, this.layout := allocator, memory, layout;
    }

    /** The backend is asked once, for this layout, unless the size is 0; there is no owner exactly when it
        refused. */
    static method TryAllocate(backend: Backend, layout: Layout) returns (r: OwnedAllocation?)
      modifies backend
      ensures backend.asked == old(backend.asked) + if layout.size == 0 then [] else [Answer(layout, r != null)]
      ensures r == null ==> layout.size > 0 && backend.live == old(backend.live)
      ensures r != null ==> fresh(r) && r.Owns() && r.allocator == backend && r.layout == layout
      ensures r != null && layout.size == 0 ==> r.memory == null && backend.live == old(backend.live)
      ensures r != null && layout.size > 0 ==>
                r.memory != null && fresh(r.memory) && backend.live == old(backend.live)[r.memory := layout]
    {
      var memory := backend.TryAllocateLayout(layout);
      if layout.size != 0 && memory == null { return null; }
      r := new OwnedAllocation(backend, memory, layout);
    }

    /** Move construction: the block changes hands and the source is left empty. */
    constructor Move(other: OwnedAllocation)
      modifies other
      ensures allocator == old(other.allocator) && memory == old(other.memory) && layout == old(other.layout)
      ensures other.Empty() && other.allocator == old(other.allocator)
    {
      allocator, memory, layout := other.allocator, other.memory, other.layout;
      new;
      other.memory, other.layout := null, NO_LAYOUT;
    }

    /** Move assignment: the block held is returned first; assigning to itself changes nothing. */
    method MoveAssign(other: OwnedAllocation)
      requires Owns() && other.Owns() && (this != other && memory != null ==> memory != other.memory)
      modifies this, other, allocator
      ensures this == other ==> unchanged(this) && unchanged(old(allocator))
      ensures this != other ==>
                && allocator == old(other.allocator) && memory == old(other.memory) && layout == old(other.layout)
                && other.Empty() && other.allocator == old(other.allocator)
                && old(allocator).live == old(if memory == null then allocator.live else allocator.live - {memory})
                && old(allocator).asked == old(allocator.asked)
      ensures Owns() && other.Owns()
    {
      if this == other { return; }
      allocator.DeallocateLayout(memory, layout);
      allocator := other.allocator;
      memory, layout := other.memory, other.layout;
      other.memory, other.layout := null, NO_LAYOUT;
    }

    /** Destruction returns the block held, if there is one. */
    method Destroy()
      requires Owns()
      modifies allocator
      ensures allocator.live == old(if memory == null then allocator.live else allocator.live - {memory})
      ensures allocator.asked == old(allocator.asked)
    {
      allocator.DeallocateLayout(memory, layout);
    }
  }
}
