/** The byte builder as a pure machine: what every call does to the accumulated bytes, the latched
    status and the capacity. */
module BuilderModel {
  import opened Words
  import opened Sequences
  import opened Allocation

  datatype AppendStatus = Ok | CapacityExceeded | AllocationFailed

  datatype Builder = Builder(contents: seq<byte>, status: AppendStatus, capacity: nat, maxCapacity: nat)

  /** The capacity a builder asks for: double, at least what is required, at most the bound. */
  function GrowTarget(capacity: nat, required: nat, maxCapacity: nat): nat {
    var doubled := if 2 * capacity < U64_LIMIT then 2 * capacity else required;
    var wanted := if required > doubled then required else doubled;
    if wanted > maxCapacity then maxCapacity else wanted
  }

  /** The block asked for is the double, or what is required when that is more or when the double has no
      word, and never passes the bound. */
  lemma TargetIsClampedDouble(capacity: nat, required: nat, maxCapacity: nat)
    requires capacity < required <= maxCapacity
    ensures var target := GrowTarget(capacity, required, maxCapacity);
            && required <= target <= maxCapacity
            && (capacity + capacity < U64_LIMIT ==> target == Min(Max(capacity + capacity, required), maxCapacity))
            && (capacity + capacity >= U64_LIMIT ==> target == required)
  {
  }

  predicate Grows(b: Builder, required: nat) {
    required < U64_LIMIT && b.capacity < required <= b.maxCapacity
  }

  /** Room for `extra` more bytes, or the failure latched; `granted` is the allocator's answer, should it be
      asked. */
  function RoomStep(b: Builder, extra: nat, granted: bool): Builder {
    var required := |b.contents| + extra;
    if b.status != Ok then b
    else if required >= U64_LIMIT then b.(status := CapacityExceeded)
    else if required <= b.capacity then b
    else if required > b.maxCapacity then b.(status := CapacityExceeded)
    else if !granted then b.(status := AllocationFailed)
    else b.(capacity := GrowTarget(b.capacity, required, b.maxCapacity))
  }

  function AppendStep(b: Builder, data: seq<byte>, granted: bool): Builder {
    var room := RoomStep(b, |data|, granted);
    if room.status == Ok then room.(contents := b.contents + data) else room
  }

  function ResetStep(b: Builder): Builder {
    b.(contents := [], status := Ok)
  }

  /** The bytes that an append of `extra` bytes copies from the old block into a new one. */
  function CopyCost(b: Builder, extra: nat, granted: bool): nat {
    if b.status == Ok && Grows(b, |b.contents| + extra) && granted then |b.contents| else 0
  }

  /** The allocator is asked once, for bytes of any alignment, exactly when growth is needed and allowed. */
  function GrowthAsks(capacity: nat, required: nat, maxCapacity: nat, granted: bool): seq<Answer> {
    if capacity < required <= maxCapacity
    then [Answer(Layout(GrowTarget(capacity, required, maxCapacity), 1), granted)]
    else []
  }

  /** What an append of `extra` bytes asks the allocator. */
  function Asks(b: Builder, extra: nat, granted: bool): seq<Answer> {
    var required := |b.contents| + extra;
    if b.status == Ok && required < U64_LIMIT then GrowthAsks(b.capacity, required, b.maxCapacity, granted) else []
  }

  datatype Call = Append(data: seq<byte>, granted: bool) | Reset

  function Apply(b: Builder, c: Call): Builder {
    match c
    case Append(data, granted) => AppendStep(b, data, granted)
    case Reset => ResetStep(b)
  }

  function Run(b: Builder, calls: seq<Call>): Builder
    decreases |calls|
  {
    if calls == [] then b else Run(Apply(b, calls[0]), calls[1..])
  }

  predicate Sound(b: Builder) {
    |b.contents| <= b.capacity <= b.maxCapacity < U64_LIMIT
  }

  lemma ApplySound(b: Builder, c: Call)
    requires Sound(b)
    ensures Sound(Apply(b, c)) && b.capacity <= Apply(b, c).capacity && Apply(b, c).maxCapacity == b.maxCapacity
  {
  }

  /** Capacity never decreases and never passes the bound. */
  lemma {:induction false} CapacityIsMonotone(b: Builder, calls: seq<Call>)
    requires Sound(b)
    ensures Sound(Run(b, calls)) && b.capacity <= Run(b, calls).capacity && Run(b, calls).maxCapacity == b.maxCapacity
    decreases |calls|
  {
    if calls != [] {
      ApplySound(b, calls[0]);
      CapacityIsMonotone(Apply(b, calls[0]), calls[1..]);
    }
  }

  // ----- what the bytes are -----

  /** The data of the appends that returned ok since the last reset, in order. */
  function Accepted(b: Builder, calls: seq<Call>): seq<seq<byte>>
    decreases |calls|
  {
    if calls == [] then []
    else
      var n := |calls| - 1;
      match calls[n]
      case Reset => []
      case Append(data, granted) =>
        var before := Run(b, calls[..n]);
        Accepted(b, calls[..n]) + if AppendStep(before, data, granted).status == Ok then [data] else []
  }

  lemma {:induction false} RunSnoc(b: Builder, calls: seq<Call>, c: Call)
    ensures Run(b, calls + [c]) == Apply(Run(b, calls), c)
    decreases |calls|
  {
    if calls == [] {
      assert calls + [c] == [c] && [c][1..] == [];
    } else {
      assert (calls + [c])[1..] == calls[1..] + [c];
      RunSnoc(Apply(b, calls[0]), calls[1..], c);
    }
  }

  /** The bytes are the concatenation of the appends that returned ok since the last reset. */
  lemma {:induction false} BytesAreAccepted(b: Builder, calls: seq<Call>)
    requires b.contents == []
    ensures Run(b, calls).contents == Flatten(Accepted(b, calls))
    decreases |calls|
  {
    if calls != [] {
      var n := |calls| - 1;
      BytesAreAccepted(b, calls[..n]);
      TakeOne(calls, n);
      TakeAll(calls);
      RunSnoc(b, calls[..n], calls[n]);
      if calls[n].Append? {
        assert Accepted(b, calls[..n]) + [] == Accepted(b, calls[..n]);
        FlattenAppend(Accepted(b, calls[..n]), [calls[n].data]);
        FlattenOne(calls[n].data);
      }
    }
  }

  predicate NoReset(calls: seq<Call>) {
    forall i :: 0 <= i < |calls| ==> calls[i].Append?
  }

  /** The first failure latches: until a reset every later append changes nothing. */
  lemma {:induction false} FailureLatches(b: Builder, calls: seq<Call>)
    requires b.status != Ok && NoReset(calls)
    ensures Run(b, calls) == b
    decreases |calls|
  {
    if calls != [] { FailureLatches(b, calls[1..]); }
  }

  /** Whatever the allocator answers, and whenever it refuses, no accumulated byte is lost or altered:
      without a reset the bytes only grow at their end. */
  lemma {:induction false} BytesOnlyGrow(b: Builder, calls: seq<Call>)
    requires NoReset(calls)
    ensures b.contents <= Run(b, calls).contents
    decreases |calls|
  {
    if calls != [] { BytesOnlyGrow(Apply(b, calls[0]), calls[1..]); }
  }

  /** When an append onto a good builder is refused, and with which status. */
  lemma RefusedExactlyWhen(b: Builder, data: seq<byte>, granted: bool)
    requires Sound(b) && b.status == Ok
    ensures var required, after := |b.contents| + |data|, AppendStep(b, data, granted);
            && (after.status == CapacityExceeded <==> required > b.maxCapacity)
            && (after.status == AllocationFailed <==> b.capacity < required <= b.maxCapacity && !granted)
  {
  }

  /** Every request a run makes of the allocator, with its answer. */
  function AllAsks(b: Builder, calls: seq<Call>): seq<Answer>
    decreases |calls|
  {
    if calls == [] then []
    else
      (match calls[0] case Append(data, granted) => Asks(b, |data|, granted) case Reset => [])
      + AllAsks(Apply(b, calls[0]), calls[1..])
  }

  predicate AllGranted(answers: seq<Answer>) {
    forall i :: 0 <= i < |answers| ==> answers[i].granted
  }

  function Data(calls: seq<Call>): seq<seq<byte>> {
    if calls == [] then []
    else (match calls[0] case Append(data, _) => [data] case Reset => []) + Data(calls[1..])
  }

  lemma AppendOkExactly(b: Builder, data: seq<byte>, granted: bool)
    requires Sound(b) && b.status == Ok
    ensures AppendStep(b, data, granted).status == Ok <==>
              |b.contents| + |data| <= b.maxCapacity && AllGranted(Asks(b, |data|, granted))
  {
    if b.capacity < |b.contents| + |data| <= b.maxCapacity && !granted {
      assert !Asks(b, |data|, granted)[0].granted;
    }
  }

  /** A run of appends stays ok exactly when the allocator refused nothing it was asked and all the bytes
      fit the bound; it then holds all of them. */
  lemma {:induction false} OkExactlyWhen(b: Builder, calls: seq<Call>)
    requires Sound(b) && b.status == Ok && NoReset(calls)
    ensures Run(b, calls).status == Ok <==>
              AllGranted(AllAsks(b, calls)) && |b.contents + Flatten(Data(calls))| <= b.maxCapacity
    ensures Run(b, calls).status == Ok ==> Run(b, calls).contents == b.contents + Flatten(Data(calls))
    decreases |calls|
  {
    if calls == [] {
      assert b.contents + [] == b.contents;
    } else {
      var data, granted := calls[0].data, calls[0].granted;
      var next, asks := AppendStep(b, data, granted), Asks(b, |data|, granted);
      assert AllAsks(b, calls) == asks + AllAsks(next, calls[1..]);
      assert Data(calls)[0] == data && Data(calls)[1..] == Data(calls[1..]);
      Associate(b.contents, data, Flatten(Data(calls[1..])));
      if next.status == Ok {
        assert next.contents == b.contents + data;
        OkExactlyWhen(next, calls[1..]);
        GrantedJoin(asks, AllAsks(next, calls[1..]));
      } else {
        FailureLatches(next, calls[1..]);
        GrantedJoin(asks, AllAsks(next, calls[1..]));
        assert |b.contents| + |data| > b.maxCapacity || !asks[0].granted;
      }
    }
  }

  lemma GrantedJoin(a: seq<Answer>, b: seq<Answer>)
    ensures AllGranted(a + b) <==> AllGranted(a) && AllGranted(b)
  {
    if AllGranted(a + b) {
      assert forall i :: 0 <= i < |a| ==> (a + b)[i] == a[i];
      assert forall i :: 0 <= i < |b| ==> (a + b)[|a| + i] == b[i];
    }
  }

  // ----- the cost of growing -----

  function Copied(b: Builder, calls: seq<Call>): nat
    decreases |calls|
  {
    if calls == [] then 0
    else
      (match calls[0] case Append(data, granted) => CopyCost(b, |data|, granted) case Reset => 0)
      + Copied(Apply(b, calls[0]), calls[1..])
  }

  /** A run and what it copies and asks, taken after its first call. */
  lemma RunFirst(b: Builder, c: Call, others: seq<Call>)
    ensures Run(b, [c] + others) == Run(Apply(b, c), others)
    ensures Copied(b, [c] + others) == Copied(b, [c]) + Copied(Apply(b, c), others)
    ensures AllAsks(b, [c] + others) == AllAsks(b, [c]) + AllAsks(Apply(b, c), others)
  {
    assert ([c] + others)[1..] == others && [c][1..] == [];
  }

  /** The largest size ever reached, starting from `peak`. */
  function Peak(b: Builder, calls: seq<Call>, peak: nat): nat
    decreases |calls|
  {
    if calls == [] then peak
    else
      var next := Apply(b, calls[0]);
      Peak(next, calls[1..], if |next.contents| > peak then |next.contents| else peak)
  }

  /** What keeps the copying cheap: so far it is at most twice the peak, and at most the capacity unless
      the bound has been reached, when no growth is left. */
  predicate Amortised(b: Builder, copied: nat, peak: nat) {
    |b.contents| <= peak && copied <= 2 * peak && (b.capacity == b.maxCapacity || copied <= b.capacity)
  }

  lemma ApplyAmortised(b: Builder, c: Call, copied: nat, peak: nat)
    requires Sound(b) && Amortised(b, copied, peak) && 2 * b.maxCapacity <= U64_LIMIT
    ensures var next := Apply(b, c);
            var cost := match c case Append(data, granted) => CopyCost(b, |data|, granted) case Reset => 0;
            Amortised(next, copied + cost, if |next.contents| > peak then |next.contents| else peak)
  {
  }

  lemma {:induction false} RunAmortised(b: Builder, calls: seq<Call>, copied: nat, peak: nat)
    requires Sound(b) && Amortised(b, copied, peak) && 2 * b.maxCapacity <= U64_LIMIT
    ensures copied + Copied(b, calls) <= 2 * Peak(b, calls, peak)
    decreases |calls|
  {
    if calls != [] {
      var next := Apply(b, calls[0]);
      var cost := match calls[0] case Append(data, granted) => CopyCost(b, |data|, granted) case Reset => 0;
      ApplySound(b, calls[0]);
      ApplyAmortised(b, calls[0], copied, peak);
      RunAmortised(next, calls[1..], copied + cost, if |next.contents| > peak then |next.contents| else peak);
    }
  }

  /** Over any run of appends, refusals and resets on a fresh builder, regrowth copies at most twice as
      many bytes as the builder ever held. */
  lemma CopyingIsAmortised(maxCapacity: nat, calls: seq<Call>)
    requires 2 * maxCapacity <= U64_LIMIT
    ensures var b := Builder([], Ok, 0, maxCapacity);
            Copied(b, calls) <= 2 * Peak(b, calls, 0)
  {
    RunAmortised(Builder([], Ok, 0, maxCapacity), calls, 0, 0);
  }
}
