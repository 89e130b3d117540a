/** The allocation observer: counters and a high-water mark kept by any number of threads, one atomic
    access at a time. */
module UsageObserver {
  /** Where a thread is inside a call: `size` is the call's argument, `usage` the current usage its own
      addition made, `seen` the peak it last read and `failures` how often its exchange truly failed. */
  datatype Pc =
    | Idle
    | AllocCounted(size: nat)
    | AllocTotalled(size: nat)
    | Loading(size: nat, usage: int)
    | Raising(size: nat, usage: int, seen: int, failures: nat)
    | FreeCounted(size: nat)
    | FreeTotalled(size: nat)

  /** `highest` is the largest value current usage has ever held, `credit` the bytes of finished
      allocations that no deallocation has begun to give back. */
  datatype State = State(
    threads: seq<Pc>, allocations: nat, deallocations: nat, bytesAllocated: nat, bytesFreed: nat,
    current: int, peak: int, highest: int, credit: nat)

  /** `spurious` is a weak exchange failing although the peak is what was seen. */
  datatype Action = BeginAllocate(t: nat, size: nat) | BeginDeallocate(t: nat, size: nat) | Step(t: nat, spurious: bool)

  function Init(threads: nat): State {
    State(seq(threads, _ => Idle), 0, 0, 0, 0, 0, 0, 0, 0)
  }

  function Go(s: State, t: nat, pc: Pc): State
    requires t < |s.threads|
  {
    s.(threads := s.threads[t := pc])
  }

  function AddUsage(s: State, t: nat, size: nat): State
    requires t < |s.threads|
  {
    var usage := s.current + size;
    Go(s.(current := usage, highest := if usage > s.highest then usage else s.highest), t, Loading(size, usage))
  }

  /** One round of the loop: give up once the peak seen is high enough, or try to exchange it. */
  function RaiseStep(s: State, t: nat, spurious: bool): State
    requires t < |s.threads| && s.threads[t].Raising?
  {
    var Raising(size, usage, seen, failures) := s.threads[t];
    if usage <= seen then Go(s.(credit := s.credit + size), t, Idle)
    else if s.peak != seen then Go(s, t, Raising(size, usage, s.peak, failures + 1))
    else if spurious then s
    else Go(s.(peak := usage, credit := s.credit + size), t, Idle)
  }

  function ThreadStep(s: State, t: nat, spurious: bool): State
    requires t < |s.threads|
  {
    match s.threads[t]
    case Idle => s
    case AllocCounted(size) => Go(s.(bytesAllocated := s.bytesAllocated + size), t, AllocTotalled(size))
    case AllocTotalled(size) => AddUsage(s, t, size)
    case Loading(size, usage) => Go(s, t, Raising(size, usage, s.peak, 0))
    case Raising(_, _, _, _) => RaiseStep(s, t, spurious)
    case FreeCounted(size) => Go(s.(bytesFreed := s.bytesFreed + size), t, FreeTotalled(size))
    case FreeTotalled(size) => Go(s.(current := s.current - size), t, Idle)
  }

  /** Calls are balanced: a deallocation only gives back bytes of allocations that have returned. */
  function Apply(s: State, a: Action): State {
    match a
    case BeginAllocate(t, size) =>
      if t < |s.threads| && s.threads[t].Idle? then Go(s.(allocations := s.allocations + 1), t, AllocCounted(size))
      else s
    case BeginDeallocate(t, size) =>
      if t < |s.threads| && s.threads[t].Idle? && size <= s.credit then
        Go(s.(deallocations := s.deallocations + 1, credit := s.credit - size), t, FreeCounted(size))
      else s
    case Step(t, spurious) => if t < |s.threads| then ThreadStep(s, t, spurious) else s
  }

  function Exec(s: State, actions: seq<Action>): State
    decreases |actions|
  {
    if actions == [] then s else Exec(Apply(s, actions[0]), actions[1..])
  }

  // ----- sums over the threads -----

  /** Bytes counted as allocated but not yet added to the usage. */
  function Unadded(pc: Pc): nat { if pc.AllocTotalled? then pc.size else 0 }

  /** Bytes counted as freed but not yet taken from the usage. */
  function Untaken(pc: Pc): nat { if pc.FreeTotalled? then pc.size else 0 }

  /** Bytes in the usage that belong to a call still running. */
  function Running(pc: Pc): nat {
    match pc
    case Loading(size, _) => size
    case Raising(size, _, _, _) => size
    case FreeCounted(size) => size
    case FreeTotalled(size) => size
    case _ => 0
  }

  function Total(threads: seq<Pc>, weight: Pc -> nat): nat {
    if threads == [] then 0 else Total(threads[..|threads| - 1], weight) + weight(threads[|threads| - 1])
  }

  lemma {:induction false} TotalUpdate(threads: seq<Pc>, t: nat, pc: Pc, weight: Pc -> nat)
    requires t < |threads|
    ensures Total(threads[t := pc], weight) + weight(threads[t]) == Total(threads, weight) + weight(pc)
  {
    var n := |threads| - 1;
    if t == n {
      assert threads[t := pc][..n] == threads[..n];
    } else {
      TotalUpdate(threads[..n], t, pc, weight);
      assert threads[t := pc][..n] == threads[..n][t := pc];
    }
  }

  lemma {:induction false} TotalAtLeast(threads: seq<Pc>, t: nat, weight: Pc -> nat)
    requires t < |threads|
    ensures weight(threads[t]) <= Total(threads, weight)
  {
    if t < |threads| - 1 { TotalAtLeast(threads[..|threads| - 1], t, weight); }
  }

  lemma {:induction false} TotalZero(threads: seq<Pc>, weight: Pc -> nat)
    requires forall i :: 0 <= i < |threads| ==> weight(threads[i]) == 0
    ensures Total(threads, weight) == 0
  {
    if threads != [] { TotalZero(threads[..|threads| - 1], weight); }
  }

  // ----- the invariant -----

  ghost predicate Books(s: State) {
    && s.bytesAllocated + Total(s.threads, Untaken) == s.bytesFreed + s.current + Total(s.threads, Unadded)
    && s.current == s.credit + Total(s.threads, Running)
  }

  /** The call that made the usage `v` has not finished raising the peak. */
  predicate Chases(pc: Pc, v: int) {
    (pc.Loading? || pc.Raising?) && pc.usage == v
  }

  predicate Bounded(pc: Pc, peak: int, highest: int) {
    && (pc.Loading? || pc.Raising? ==> 0 <= pc.usage <= highest)
    && (pc.Raising? ==> 0 <= pc.failures <= pc.seen <= peak && pc.failures <= pc.usage)
  }

  ghost predicate Mark(s: State) {
    && 0 <= s.peak <= s.highest && s.current <= s.highest
    && (forall t :: 0 <= t < |s.threads| ==> Bounded(s.threads[t], s.peak, s.highest))
    && (s.peak == s.highest || exists t :: 0 <= t < |s.threads| && Chases(s.threads[t], s.highest))
  }

  ghost predicate Inv(s: State) {
    Books(s) && Mark(s)
  }

  lemma InitInv(threads: nat)
    ensures Inv(Init(threads))
  {
    TotalZero(Init(threads).threads, Untaken);
    TotalZero(Init(threads).threads, Unadded);
    TotalZero(Init(threads).threads, Running);
  }

  lemma GoBooks(s: State, t: nat, pc: Pc)
    requires t < |s.threads|
    ensures var s' := Go(s, t, pc);
            && Total(s'.threads, Untaken) + Untaken(s.threads[t]) == Total(s.threads, Untaken) + Untaken(pc)
            && Total(s'.threads, Unadded) + Unadded(s.threads[t]) == Total(s.threads, Unadded) + Unadded(pc)
            && Total(s'.threads, Running) + Running(s.threads[t]) == Total(s.threads, Running) + Running(pc)
  {
    TotalUpdate(s.threads, t, pc, Untaken);
    TotalUpdate(s.threads, t, pc, Unadded);
    TotalUpdate(s.threads, t, pc, Running);
  }

  lemma RaiseBooks(s: State, t: nat, spurious: bool)
    requires Books(s) && t < |s.threads| && s.threads[t].Raising?
    ensures Books(RaiseStep(s, t, spurious))
  {
    var Raising(size, usage, seen, failures) := s.threads[t];
    if usage <= seen || (s.peak == seen && !spurious) {
      GoBooks(s, t, Idle);
    } else if s.peak != seen {
      GoBooks(s, t, Raising(size, usage, s.peak, failures + 1));
    }
  }

  lemma StepBooks(s: State, t: nat, spurious: bool)
    requires Books(s) && t < |s.threads|
    ensures Books(ThreadStep(s, t, spurious))
  {
    match s.threads[t]
    case Idle =>
    case AllocCounted(size) => GoBooks(s, t, AllocTotalled(size));
    case AllocTotalled(size) => GoBooks(s, t, Loading(size, s.current + size));
    case Loading(size, usage) => GoBooks(s, t, Raising(size, usage, s.peak, 0));
    case Raising(size, usage, seen, failures) => RaiseBooks(s, t, spurious);
    case FreeCounted(size) => GoBooks(s, t, FreeTotalled(size));
    case FreeTotalled(size) => GoBooks(s, t, Idle);
  }

  lemma ApplyBooks(s: State, a: Action)
    requires Books(s)
    ensures Books(Apply(s, a))
  {
    if a.t < |s.threads| {
      match a
      case BeginAllocate(t, size) => GoBooks(s, t, AllocCounted(size));
      case BeginDeallocate(t, size) => GoBooks(s, t, FreeCounted(size));
      case Step(t, spurious) => StepBooks(s, t, spurious);
    }
  }

  /** Thread `t` moves on, and either the peak has caught up, or the chase goes on without it. */
  lemma MarkAfter(s: State, s': State, t: nat, pc: Pc)
    requires Mark(s) && t < |s.threads| && s'.threads == s.threads[t := pc]
    requires s.peak <= s'.peak <= s'.highest && s.highest <= s'.highest && s'.current <= s'.highest
    requires Bounded(pc, s'.peak, s'.highest)
    requires || s'.peak == s'.highest || Chases(pc, s'.highest)
             || (s'.highest == s.highest && !Chases(s.threads[t], s.highest))
    ensures Mark(s')
  {
    assert s'.threads[t] == pc;
    if s'.peak != s'.highest && !Chases(pc, s'.highest) {
      var c :| 0 <= c < |s.threads| && Chases(s.threads[c], s.highest);
      assert Chases(s'.threads[c], s'.highest);
    }
  }

  lemma StepMark(s: State, t: nat, spurious: bool)
    requires Inv(s) && t < |s.threads|
    ensures Mark(ThreadStep(s, t, spurious))
  {
    var s' := ThreadStep(s, t, spurious);
    assert Bounded(s.threads[t], s.peak, s.highest);
    assert s.threads[t := s.threads[t]] == s.threads;
    MarkAfter(s, s', t, s'.threads[t]);
  }

  lemma ApplyMark(s: State, a: Action)
    requires Inv(s)
    ensures Mark(Apply(s, a))
  {
    if a.t < |s.threads| {
      match a
      case BeginAllocate(t, size) =>
        if s.threads[t].Idle? { MarkAfter(s, Apply(s, a), t, AllocCounted(size)); }
      case BeginDeallocate(t, size) =>
        if s.threads[t].Idle? && size <= s.credit { MarkAfter(s, Apply(s, a), t, FreeCounted(size)); }
      case Step(t, spurious) => StepMark(s, t, spurious);
    }
  }

  lemma {:induction false} RunInv(s: State, actions: seq<Action>)
    requires Inv(s)
    ensures Inv(Exec(s, actions))
    decreases |actions|
  {
    if actions != [] {
      ApplyBooks(s, actions[0]);
      ApplyMark(s, actions[0]);
      RunInv(Apply(s, actions[0]), actions[1..]);
    }
  }

  // ----- the theorems -----

  function Run(threads: nat, actions: seq<Action>): State {
    Exec(Init(threads), actions)
  }

  predicate Allocating(pc: Pc) {
    pc.AllocCounted? || pc.AllocTotalled? || pc.Loading? || pc.Raising?
  }

  lemma {:induction false} ExecSnoc(s: State, actions: seq<Action>, a: Action)
    ensures Exec(s, actions + [a]) == Apply(Exec(s, actions), a)
    decreases |actions|
  {
    if actions == [] {
      assert [] + [a] == [a] && [a][1..] == [];
    } else {
      assert (actions + [a])[1..] == actions[1..] + [a];
      ExecSnoc(Apply(s, actions[0]), actions[1..], a);
    }
  }

  /** The usage after the first `k` actions of a run. */
  function UsageAfter(threads: nat, actions: seq<Action>, k: nat): int
    requires k <= |actions|
  {
    Run(threads, actions[..k]).current
  }

  lemma HighestStep(s: State, a: Action)
    requires Inv(s)
    ensures Apply(s, a).highest == if Apply(s, a).current > s.highest then Apply(s, a).current else s.highest
  {
  }

  /** `highest` is the largest usage over all the states a run has passed through. */
  lemma {:induction false} HighestIsLargest(threads: nat, actions: seq<Action>)
    ensures forall k: nat :: k <= |actions| ==> UsageAfter(threads, actions, k) <= Run(threads, actions).highest
    ensures exists k: nat :: k <= |actions| && UsageAfter(threads, actions, k) == Run(threads, actions).highest
    decreases |actions|
  {
    if actions == [] {
      assert UsageAfter(threads, actions, 0) == 0;
    } else {
      var n := |actions| - 1;
      var before, a := actions[..n], actions[n];
      HighestIsLargest(threads, before);
      InitInv(threads);
      RunInv(Init(threads), before);
      assert actions == before + [a];
      ExecSnoc(Init(threads), before, a);
      HighestStep(Run(threads, before), a);
      assert actions[..n + 1] == actions;
      forall k: nat | k <= |actions| ensures UsageAfter(threads, actions, k) <= Run(threads, actions).highest {
        if k <= n {
          assert actions[..k] == before[..k];
          assert UsageAfter(threads, before, k) <= Run(threads, before).highest;
        }
      }
      var j: nat :| j <= n && UsageAfter(threads, before, j) == Run(threads, before).highest;
      assert actions[..j] == before[..j];
      var m := if Run(threads, actions).current > Run(threads, before).highest then n + 1 else j;
      assert UsageAfter(threads, actions, m) == Run(threads, actions).highest;
    }
  }

  /** Whenever no allocation is being observed, the peak is the largest value the usage has held in any
      state of the run so far, and it has held it. */
  lemma PeakIsHighest(threads: nat, actions: seq<Action>)
    requires forall t :: 0 <= t < |Run(threads, actions).threads| ==> !Allocating(Run(threads, actions).threads[t])
    ensures forall k: nat :: k <= |actions| ==> UsageAfter(threads, actions, k) <= Run(threads, actions).peak
    ensures exists k: nat :: k <= |actions| && UsageAfter(threads, actions, k) == Run(threads, actions).peak
  {
    InitInv(threads);
    RunInv(Init(threads), actions);
    HighestIsLargest(threads, actions);
  }

  /** At any moment the peak is at most some usage the run has held. */
  lemma PeakWasHeld(threads: nat, actions: seq<Action>)
    ensures exists k: nat :: k <= |actions| && Run(threads, actions).peak <= UsageAfter(threads, actions, k)
  {
    InitInv(threads);
    RunInv(Init(threads), actions);
    HighestIsLargest(threads, actions);
  }

  /** Balanced calls never drive the usage below zero, nor below what running deallocations will take. */
  lemma UsageNeverWraps(threads: nat, actions: seq<Action>, t: nat)
    ensures var s := Run(threads, actions);
            && 0 <= s.current
            && (t < |s.threads| && (s.threads[t].FreeCounted? || s.threads[t].FreeTotalled?) ==>
                  s.threads[t].size <= s.current)
  {
    InitInv(threads);
    RunInv(Init(threads), actions);
    var s := Run(threads, actions);
    if t < |s.threads| { TotalAtLeast(s.threads, t, Running); }
  }

  /** Allocated minus freed bytes is the usage, but for calls caught between their two counters: exactly
      when those cancel out, and so whenever no call is running. */
  lemma AllocatedMinusFreed(threads: nat, actions: seq<Action>)
    ensures var s := Run(threads, actions);
            && (s.bytesAllocated - s.bytesFreed == s.current <==>
                  Total(s.threads, Unadded) == Total(s.threads, Untaken))
            && ((forall t :: 0 <= t < |s.threads| ==> s.threads[t].Idle?) ==>
                  s.bytesAllocated - s.bytesFreed == s.current == s.credit)
  {
    InitInv(threads);
    RunInv(Init(threads), actions);
    var s := Run(threads, actions);
    if forall t :: 0 <= t < |s.threads| ==> s.threads[t].Idle? {
      TotalZero(s.threads, Unadded);
      TotalZero(s.threads, Untaken);
      TotalZero(s.threads, Running);
    }
  }

  /** An exchange that truly fails has seen a peak that is strictly higher, and a call suffers at most as
      many such failures as the usage it made. */
  lemma FailuresAreFew(threads: nat, actions: seq<Action>, t: nat, spurious: bool)
    requires var s := Run(threads, actions); t < |s.threads| && s.threads[t].Raising?
    ensures var s := Run(threads, actions);
            var pc, next := s.threads[t], RaiseStep(s, t, spurious).threads[t];
            && pc.failures <= pc.usage
            && (next.Raising? && next.failures > pc.failures ==>
                  next.seen > pc.seen && next.failures == pc.failures + 1 <= pc.usage)
            && (next.Raising? && next.failures == pc.failures ==> spurious && s.peak == pc.seen)
  {
    InitInv(threads);
    RunInv(Init(threads), actions);
    var s := Run(threads, actions);
    assert Bounded(s.threads[t], s.peak, s.highest);
  }
}
