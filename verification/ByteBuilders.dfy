/** The growing byte accumulator over an allocator. */
module ByteBuilders {
  import opened Words
  import opened Sequences
  import opened Endian
  import opened BlockBuffer
  import opened Allocation
  import opened BuilderModel

  /** A narrow little-endian put is the first bytes of the eight-byte encoding. */
  method FirstOfEight(value: u64, width: nat) returns (s: seq<byte>)
    requires width <= 8
    ensures s == LittleEndian(value, width)
  {
    var encoded := new byte[8];
    var ok := EncodeLittle(value, encoded, 8);
    LittlePrefix(value, 8, width);
    s := encoded[..width];
  }

  /** A narrow big-endian put is the last bytes of the eight-byte encoding. */
  method LastOfEight(value: u64, width: nat) returns (s: seq<byte>)
    requires width <= 8
    ensures s == BigEndian(value, width)
  {
    var encoded := new byte[8];
    var ok := EncodeBig(value, encoded, 8);
    BigSuffix(value, 8, width);
    s := encoded[8 - width..];
  }

  class ByteBuilder {
    var allocator: Backend
    var maxCapacity: u64
    var allocation: OwnedAllocation?
    var size: nat
    var status: AppendStatus
    /** How many bytes regrowth has copied so far. */
    ghost var copied: nat

    ghost function Repr(): set<object>
      reads this, allocation
    {
      var owner: set<object> := if allocation == null then {} else {allocation};
      var block: set<object> := if allocation == null || allocation.memory == null then {} else {allocation.memory};
      {this, allocator} + owner + block
    }

    /** The block held, if any. */
    ghost function Block(): set<array<byte>>
      reads this, allocation
    {
      if allocation == null || allocation.memory == null then {} else {allocation.memory}
    }

    function Capacity(): nat
      reads this, allocation
    {
      if allocation == null then 0 else allocation.layout.size
    }

    ghost predicate Valid()
      reads this, Repr()
    {
      && size <= Capacity() <= maxCapacity
      && (allocation != null ==> allocation.allocator == allocator && allocation.Owns())
    }

    /** The accumulated bytes. */
    function Bytes(): (s: seq<byte>)
      requires Valid()
      reads this, Repr()
      ensures |s| == size
    {
      if allocation == null || allocation.memory == null then [] else allocation.memory[..size]
    }

    ghost function Model(): Builder
      requires Valid()
      reads this, Repr()
    {
      Builder(Bytes(), status, Capacity(), maxCapacity)
    }

    constructor (allocator: Backend, maxCapacity: u64)
      ensures Valid() && Model() == Builder([], Ok, 0, maxCapacity) && this.allocator == allocator
      ensures copied == 0 && fresh(Repr() - {allocator})
    {
      this.allocator, this.maxCapacity := allocator, maxCapacity;
      allocation, size, status, copied := null, 0, Ok, 0;
    }

    method Reset()
      requires Valid()
      modifies this
      ensures Valid() && Model() == ResetStep(old(Model())) && copied == old(copied) && Repr() == old(Repr())
    {
      size, status := 0, Ok;
    }

    /** Replaces the block by `grown`, whose front already holds the bytes; the old one is returned. */
    method Replace(grown: OwnedAllocation)
      requires Valid() && grown.Owns() && grown.allocator == allocator && grown.memory != null
      requires grown !in Repr() && grown.memory !in Repr()
      requires Capacity() <= grown.layout.size <= maxCapacity && grown.memory[..size] == Bytes()
      modifies this, allocator, grown, allocation
      ensures Valid() && Bytes() == old(Bytes()) && Capacity() == old(grown.layout.size)
      ensures size == old(size) && status == old(status) && maxCapacity == old(maxCapacity) && copied == old(copied)
      ensures allocator == old(allocator) && allocation != null
      ensures old(allocation) != null ==> allocation == old(allocation)
      ensures old(allocation) == null ==> fresh(allocation)
      ensures allocation.memory == old(grown.memory)
      ensures allocator.live.Keys == old(allocator.live.Keys - Block()) && allocator.asked == old(allocator.asked)
    {
      if allocation != null {
        allocation.MoveAssign(grown);
      } else {
        allocation := new OwnedAllocation.Move(grown);
      }
      grown.Destroy();
    }

    /** Copies the accumulated bytes to the front of another block. */
    method CopyLive(block: array<byte>)
      requires Valid() && block !in Repr() && size <= block.Length
      modifies block
      ensures block[..size] == Bytes()
    {
      ghost var bytes := Bytes();
      if allocation != null && allocation.memory != null {
        var index := 0;
        while index < size
          invariant 0 <= index <= size && block[..index] == bytes[..index]
        {
          block[index] := allocation.memory[index];
          index := index + 1;
        }
        TakeAll(bytes);
      }
    }

    /** Asks the allocator once for a block of `target` bytes; when it grants one, copies the bytes over and
        replaces the block. */
    method Regrow(target: nat) returns (granted: bool)
      requires Valid() && Capacity() < target <= maxCapacity
      modifies Repr()
      ensures Valid() && Bytes() == old(Bytes()) && Capacity() == if granted then target else old(Capacity())
      ensures size == old(size) && status == old(status) && maxCapacity == old(maxCapacity)
      ensures copied == old(copied) + if granted then size else 0
      ensures allocator == old(allocator) && fresh(Repr() - old(Repr()))
      ensures granted ==> fresh(Block()) && allocator.live.Keys == old(allocator.live.Keys - Block()) + Block()
      ensures !granted ==> Block() == old(Block()) && allocator.live == old(allocator.live)
      ensures allocator.asked == old(allocator.asked) + [Answer(Layout(target, 1), granted)]
    {
      var grown := OwnedAllocation.TryAllocate(allocator, Layout(target, 1));
      if grown == null { return false; }
      CopyLive(grown.memory);
      copied := copied + size;
      Replace(grown);
      granted := true;
    }

    method EnsureCapacity(required: nat) returns (r: AppendStatus, ghost granted: bool)
      requires Valid() && required < U64_LIMIT
      modifies Repr()
      ensures Valid() && Bytes() == old(Bytes()) && size == old(size) && status == old(status)
      ensures r == if required <= old(Capacity()) then Ok else if required > maxCapacity then CapacityExceeded
                   else if granted then Ok else AllocationFailed
      ensures var grows := old(Capacity()) < required <= maxCapacity && granted;
              && Capacity() == (if grows then GrowTarget(old(Capacity()), required, maxCapacity) else old(Capacity()))
              && copied == old(copied) + if grows then size else 0
      ensures maxCapacity == old(maxCapacity) && allocator == old(allocator) && fresh(Repr() - old(Repr()))
      ensures allocator.asked == old(allocator.asked) + GrowthAsks(old(Capacity()), required, maxCapacity, granted)
    {
      granted := false;
      if required <= Capacity() { return Ok, false; }
      if required > maxCapacity { return CapacityExceeded, false; }
      var doubled := if 2 * Capacity() < U64_LIMIT then 2 * Capacity() else required;
      var wanted := if required > doubled then required else doubled;
      var target := if wanted > maxCapacity then maxCapacity else wanted;
      var ok := Regrow(target);
      return if ok then Ok else AllocationFailed, ok;
    }

    /** Writes bytes behind the accumulated ones, into room that is there. */
    method PutTail(data: seq<byte>)
      requires Valid() && size + |data| <= Capacity() && data != []
      modifies this`size, allocation, allocation.memory
      ensures Valid() && Bytes() == old(Bytes()) + data && size == old(size) + |data|
      ensures Capacity() == old(Capacity()) && Repr() == old(Repr())
    {
      CopyInto(allocation.memory, size, data);
      size := size + |data|;
    }

    method Latch(failure: AppendStatus)
      requires Valid()
      modifies this`status
      ensures Valid() && Model() == old(Model()).(status := failure)
      ensures Repr() == old(Repr())
    {
      status := failure;
    }

    /** Room for `extra` bytes that can be counted, or the failure latched. */
    method Provide(extra: nat) returns (ghost granted: bool)
      requires Valid() && status == Ok && size + extra < U64_LIMIT
      modifies Repr()
      ensures Valid() && Bytes() == old(Bytes()) && size == old(size)
      ensures maxCapacity == old(maxCapacity) && allocator == old(allocator) && fresh(Repr() - old(Repr()))
      ensures status == Ok ==> size + extra <= Capacity()
      ensures Model() == RoomStep(old(Model()), extra, granted)
      ensures copied == old(copied) + CopyCost(old(Model()), extra, granted)
      ensures allocator.asked == old(allocator.asked) + Asks(old(Model()), extra, granted)
    {
      var r;
      r, granted := EnsureCapacity(size + extra);
      if r != Ok { Latch(r); }
    }

    /** Room for `extra` more bytes, or the failure latched: the common start of every put. */
    method MakeRoom(extra: nat) returns (r: AppendStatus, ghost granted: bool)
      requires Valid()
      modifies Repr()
      ensures Valid() && Bytes() == old(Bytes()) && size == old(size)
      ensures maxCapacity == old(maxCapacity) && allocator == old(allocator) && fresh(Repr() - old(Repr()))
      ensures r == status && (r == Ok ==> size + extra <= Capacity())
      ensures Model() == RoomStep(old(Model()), extra, granted)
      ensures copied == old(copied) + CopyCost(old(Model()), extra, granted)
      ensures allocator.asked == old(allocator.asked) + Asks(old(Model()), extra, granted)
    {
      granted := false;
      assert allocator.asked + [] == allocator.asked;
      if status != Ok { return status, false; }
      if size + extra >= U64_LIMIT {
        Latch(CapacityExceeded);
      } else {
        granted := Provide(extra);
      }
      r := status;
    }

    /** Appends bytes that are not the builder's own; `granted` is what the allocator answered, if asked. */
    method Append(data: seq<byte>) returns (r: AppendStatus, ghost granted: bool)
      requires Valid()
      modifies Repr()
      ensures Valid() && r == status && Model() == AppendStep(old(Model()), data, granted)
      ensures copied == old(copied) + CopyCost(old(Model()), |data|, granted)
      ensures allocator == old(allocator) && fresh(Repr() - old(Repr()))
      ensures allocator.asked == old(allocator.asked) + Asks(old(Model()), |data|, granted)
    {
      r, granted := MakeRoom(|data|);
      if r == Ok && data != [] {
        PutTail(data);
      } else {
        assert r == Ok ==> Bytes() + data == Bytes();
      }
    }

    /** Appends the `width` low bytes of `value`, least significant first: the first of its eight. */
    method AppendEncodedLittle(value: u64, width: nat) returns (r: AppendStatus, ghost granted: bool)
      requires Valid() && 0 < width <= 8
      modifies Repr()
      ensures Valid() && r == status && Model() == AppendStep(old(Model()), LittleEndian(value, width), granted)
      ensures copied == old(copied) + CopyCost(old(Model()), width, granted)
      ensures allocator == old(allocator) && fresh(Repr() - old(Repr()))
      ensures allocator.asked == old(allocator.asked) + Asks(old(Model()), width, granted)
    {
      r, granted := MakeRoom(width);
      if r == Ok {
        var data := FirstOfEight(value, width);
        PutTail(data);
      }
    }

    /** Appends the `width` low bytes of `value`, most significant first: the last of its eight. */
    method AppendEncodedBig(value: u64, width: nat) returns (r: AppendStatus, ghost granted: bool)
      requires Valid() && 0 < width <= 8
      modifies Repr()
      ensures Valid() && r == status && Model() == AppendStep(old(Model()), BigEndian(value, width), granted)
      ensures copied == old(copied) + CopyCost(old(Model()), width, granted)
      ensures allocator == old(allocator) && fresh(Repr() - old(Repr()))
      ensures allocator.asked == old(allocator.asked) + Asks(old(Model()), width, granted)
    {
      r, granted := MakeRoom(width);
      if r == Ok {
        var data := LastOfEight(value, width);
        PutTail(data);
      }
    }

    /** Move construction: the bytes, the block and the status change hands, and the source is left an
        inert empty builder. */
    constructor Move(other: ByteBuilder)
      requires other.Valid()
      modifies other, other.allocation
      ensures Valid() && Model() == old(other.Model()) && allocator == old(other.allocator)
      ensures other.Valid() && other.Model() == Builder([], Ok, 0, 0)
      ensures allocator.live == old(other.allocator.live) && allocator.asked == old(other.allocator.asked)
      ensures Block() == old(other.Block()) && other.Block() == {}
    {
      allocator, maxCapacity, size, status := other.allocator, other.maxCapacity, other.size, other.status;
      copied := other.copied;
      new;
      if other.allocation == null {
        allocation := null;
      } else {
        allocation := new OwnedAllocation.Move(other.allocation);
      }
      other.size, other.maxCapacity, other.status := 0, 0, Ok;
    }

    /** Move assignment of the optional owner: the block held is returned first. */
    method TakeAllocation(other: ByteBuilder)
      requires this != other && Valid() && other.Valid()
      requires Block() !! other.Block() && (allocation != null ==> allocation != other.allocation)
      modifies this`allocation, allocation, other.allocation, allocator
      ensures allocation == null <==> old(other.allocation) == null
      ensures allocation != null ==>
                && allocation != other.allocation && allocation.Owns()
                && allocation.allocator == old(other.allocator) && allocation.memory == old(other.allocation.memory)
                && allocation.layout == old(other.allocation.layout)
      ensures other.allocation != null ==> other.allocation.Empty() && other.allocation.allocator == other.allocator
      ensures old(allocator).live.Keys == old(allocator.live.Keys - Block())
      ensures old(allocator).asked == old(allocator.asked)
    {
      if other.allocation == null {
        if allocation != null {
          allocation.Destroy();
          allocation := null;
        }
      } else if allocation == null {
        allocation := new OwnedAllocation.Move(other.allocation);
      } else {
        allocation.MoveAssign(other.allocation);
      }
    }

    /** Move assignment: what this builder held is returned, and the source is left inert and empty. */
    method MoveAssign(other: ByteBuilder)
      requires Valid() && other.Valid()
      requires this != other ==> Block() !! other.Block() && (allocation != null ==> allocation != other.allocation)
      modifies this, other, allocation, other.allocation, allocator, other.allocator
      ensures this == other ==> unchanged(this) && unchanged(allocator)
      ensures this != other ==>
                && Valid() && Model() == old(other.Model()) && allocator == old(other.allocator)
                && other.Valid() && other.Model() == Builder([], Ok, 0, 0)
                && old(allocator).live.Keys == old(allocator.live.Keys - Block())
                && old(allocator).asked == old(allocator.asked)
                && Block() == old(other.Block()) && other.Block() == {}
    {
      if this == other { return; }
      TakeAllocation(other);
      allocator, size := other.allocator, other.size;
      maxCapacity, status := other.maxCapacity, other.status;
      copied := other.copied;
      if other.allocation != null {
        other.allocation.Destroy();
        other.allocation := null;
      }
      other.size, other.maxCapacity, other.status := 0, 0, Ok;
    }
  }

  /** A call as its caller makes it; what the allocator answers is not the caller's to say. */
  datatype Request = Put(data: seq<byte>) | Clear

  predicate Answers(c: Call, q: Request) {
    match q
    case Put(data) => c.Append? && c.data == data
    case Clear => c.Reset?
  }

  method Serve(builder: ByteBuilder, q: Request) returns (ghost c: Call)
    requires builder.Valid()
    modifies builder.Repr()
    ensures builder.Valid() && fresh(builder.Repr() - old(builder.Repr()))
    ensures Answers(c, q) && builder.Model() == Apply(old(builder.Model()), c)
    ensures builder.copied == old(builder.copied) + Copied(old(builder.Model()), [c])
    ensures builder.allocator == old(builder.allocator)
    ensures builder.allocator.asked == old(builder.allocator.asked) + AllAsks(old(builder.Model()), [c])
  {
    match q
    case Put(data) =>
      var r;
      ghost var granted;
      r, granted := builder.Append(data);
      c := Append(data, granted);
    case Clear =>
      builder.Reset();
      c := Reset;
  }

  /** Over every sequence of requests the builder is the pure machine, run on the answers the allocator
      gave to exactly the requests the machine makes of it, and copies exactly what the machine charges. */
  method ServeAll(builder: ByteBuilder, requests: seq<Request>) returns (ghost calls: seq<Call>)
    requires builder.Valid()
    modifies builder.Repr()
    ensures builder.Valid() && fresh(builder.Repr() - old(builder.Repr()))
    ensures |calls| == |requests| && forall i :: 0 <= i < |calls| ==> Answers(calls[i], requests[i])
    ensures builder.Model() == Run(old(builder.Model()), calls)
    ensures builder.copied == old(builder.copied) + Copied(old(builder.Model()), calls)
    ensures builder.allocator == old(builder.allocator)
    ensures builder.allocator.asked == old(builder.allocator.asked) + AllAsks(old(builder.Model()), calls)
    decreases |requests|
  {
    calls := [];
    ghost var before, asked := builder.Model(), builder.allocator.asked;
    if requests == [] {
      assert asked + [] == asked;
    } else {
      ghost var c := Serve(builder, requests[0]);
      ghost var others := ServeAll(builder, requests[1..]);
      calls := [c] + others;
      RunFirst(before, c, others);
      Associate(asked, AllAsks(before, [c]), AllAsks(Apply(before, c), others));
    }
  }
}
