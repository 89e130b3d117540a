/** The observer's own calls, over its counters. Every atomic access also moves a ghost copy of the
    transition system, and `Others` lets any other threads run between two of them. */
module ObserverCalls {
  import opened Words
  import opened Sequences
  import opened UsageObserver

  /** What thread `t` has done in a run. */
  function Own(actions: seq<Action>, t: nat): seq<Action> {
    if actions == [] then []
    else
      var n := |actions| - 1;
      Own(actions[..n], t) + if actions[n].t == t then [actions[n]] else []
  }

  lemma OwnMore(actions: seq<Action>, a: Action, t: nat)
    ensures Own(actions + [a], t) == Own(actions, t) + if a.t == t then [a] else []
  {
    assert (actions + [a])[..|actions|] == actions;
  }

  predicate Steps(actions: seq<Action>) {
    forall i :: 0 <= i < |actions| ==> actions[i].Step?
  }

  class AllocationObserver {
    var totalAllocations: nat
    var totalDeallocations: nat
    var totalBytesAllocated: nat
    var totalBytesFreed: nat
    var currentUsage: int
    var peakUsage: int
    ghost const threads: nat
    /** Everything every thread has done since the start, and the state it led to. */
    ghost var trace: seq<Action>
    ghost var machine: State

    ghost predicate Mirrors()
      reads this
    {
      && machine == Run(threads, trace) && |machine.threads| == threads
      && totalAllocations == machine.allocations && totalDeallocations == machine.deallocations
      && totalBytesAllocated == machine.bytesAllocated && totalBytesFreed == machine.bytesFreed
      && currentUsage == machine.current && peakUsage == machine.peak
    }

    ghost function PcOf(t: nat): Pc
      requires t < |machine.threads|
      reads this
    {
      machine.threads[t]
    }

    constructor (ghost threads: nat)
      ensures Mirrors() && this.threads == threads && trace == []
    {
      totalAllocations, totalDeallocations, totalBytesAllocated, totalBytesFreed := 0, 0, 0, 0;
      currentUsage, peakUsage := 0, 0;
      this.threads, trace, machine := threads, [], Init(threads);
    }

    /** Anything the other threads may do here; nothing when the call runs alone. */
    method Others(ghost t: nat, ghost alone: bool)
      requires Mirrors() && t < threads
      modifies this
      ensures Mirrors() && PcOf(t) == old(PcOf(t)) && Own(trace, t) == old(Own(trace, t))
      ensures old(peakUsage) <= peakUsage
      ensures alone ==> unchanged(this)
    {
    }

    /** The ghost copy takes action `a`. */
    ghost method Move(a: Action)
      requires machine == Run(threads, trace) && |machine.threads| == threads && a.t < threads
      modifies this`trace, this`machine
      ensures machine == Apply(old(machine), a) && machine == Run(threads, trace) && |machine.threads| == threads
      ensures Own(trace, a.t) == old(Own(trace, a.t)) + [a]
    {
      ExecSnoc(Init(threads), trace, a);
      OwnMore(trace, a, a.t);
      machine := Apply(machine, a);
      trace := trace + [a];
    }

    lemma RunIsInv()
      requires Mirrors()
      ensures Inv(machine)
    {
      InitInv(threads);
      RunInv(Init(threads), trace);
    }

    /** What a call in its loop knows about the peak it has seen. */
    lemma SeenIsBounded(t: nat)
      requires Mirrors() && t < threads && PcOf(t).Raising?
      ensures 0 <= PcOf(t).failures <= PcOf(t).seen <= peakUsage && PcOf(t).failures <= PcOf(t).usage
    {
      RunIsInv();
      RaisingIsBounded(machine, t);
    }

    method CountAllocation(size: nat, ghost t: nat)
      requires Mirrors() && t < threads && PcOf(t).Idle?
      modifies this`totalAllocations, this`trace, this`machine
      ensures Mirrors() && PcOf(t) == AllocCounted(size) && totalAllocations == old(totalAllocations) + 1
      ensures Own(trace, t) == old(Own(trace, t)) + [BeginAllocate(t, size)]
    {
      totalAllocations := totalAllocations + 1;
      Move(BeginAllocate(t, size));
    }

    method AddAllocated(size: nat, ghost t: nat)
      requires Mirrors() && t < threads && PcOf(t) == AllocCounted(size)
      modifies this`totalBytesAllocated, this`trace, this`machine
      ensures Mirrors() && PcOf(t) == AllocTotalled(size) && totalBytesAllocated == old(totalBytesAllocated) + size
      ensures Own(trace, t) == old(Own(trace, t)) + [Step(t, false)]
    {
      totalBytesAllocated := totalBytesAllocated + size;
      Move(Step(t, false));
    }

    /** The fetch-and-add on the usage. */
    method AddUsage(size: nat, ghost t: nat) returns (newUsage: int)
      requires Mirrors() && t < threads && PcOf(t) == AllocTotalled(size)
      modifies this`currentUsage, this`trace, this`machine
      ensures Mirrors() && newUsage == old(currentUsage) + size == currentUsage && PcOf(t) == Loading(size, newUsage)
      ensures Own(trace, t) == old(Own(trace, t)) + [Step(t, false)]
    {
      newUsage := currentUsage + size;
      currentUsage := newUsage;
      Move(Step(t, false));
    }

    method LoadPeak(ghost size: nat, ghost newUsage: int, ghost t: nat) returns (peak: int)
      requires Mirrors() && t < threads && PcOf(t) == Loading(size, newUsage)
      modifies this`trace, this`machine
      ensures Mirrors() && peak == peakUsage && PcOf(t) == Raising(size, newUsage, peak, 0)
      ensures Own(trace, t) == old(Own(trace, t)) + [Step(t, false)]
    {
      peak := peakUsage;
      Move(Step(t, false));
    }

    /** One weak exchange: on success the call is over, on failure `seen` is the peak as it now is. */
    method ExchangePeak(ghost size: nat, newUsage: int, peak: int, ghost failures: nat, mayFail: bool, ghost t: nat)
      returns (done: bool, seen: int, ghost more: nat)
      requires Mirrors() && t < threads && PcOf(t) == Raising(size, newUsage, peak, failures) && newUsage > peak
      modifies this`peakUsage, this`trace, this`machine
      ensures Mirrors() && old(peakUsage) <= peakUsage
      ensures done ==> PcOf(t) == Idle && peakUsage == newUsage && old(peakUsage) == peak && more == failures
      ensures !done ==> PcOf(t) == Raising(size, newUsage, seen, more) && peakUsage == old(peakUsage) == seen
      ensures !done ==> if more == failures then seen == peak && mayFail else seen > peak && more == failures + 1
      ensures exists fails :: Own(trace, t) == old(Own(trace, t)) + [Step(t, fails)]
    {
      SeenIsBounded(t);
      var fails := *;
      fails := fails && mayFail;
      if peakUsage != peak {
        done, seen, more := false, peakUsage, failures + 1;
      } else if fails {
        done, seen, more := false, peak, failures;
      } else {
        peakUsage := newUsage;
        done, seen, more := true, newUsage, failures;
      }
      Move(Step(t, fails));
    }

    /** The loop's test fails: the peak seen is high enough. */
    ghost method GiveUp(size: nat, newUsage: int, peak: int, failures: nat, t: nat)
      requires Mirrors() && t < threads && PcOf(t) == Raising(size, newUsage, peak, failures) && newUsage <= peak
      modifies this`trace, this`machine
      ensures Mirrors() && PcOf(t) == Idle && peak <= peakUsage
      ensures Own(trace, t) == old(Own(trace, t)) + [Step(t, false)]
    {
      SeenIsBounded(t);
      Move(Step(t, false));
    }

    /** No counter but the peak has changed. */
    twostate predicate OnlyPeak()
      reads this
    {
      && totalAllocations == old(totalAllocations) && totalDeallocations == old(totalDeallocations)
      && totalBytesAllocated == old(totalBytesAllocated) && totalBytesFreed == old(totalBytesFreed)
      && currentUsage == old(currentUsage)
    }

    /** The loop on the high-water mark; `weak` bounds how often the exchange fails for no reason. */
    method RaisePeak(ghost size: nat, newUsage: int, first: int, weak: nat, ghost t: nat, ghost alone: bool)
      returns (ghost failures: nat, ghost steps: seq<Action>)
      requires Mirrors() && t < threads && PcOf(t) == Raising(size, newUsage, first, 0)
      requires alone ==> first == peakUsage
      modifies this
      ensures Mirrors() && PcOf(t) == Idle && newUsage <= peakUsage && old(peakUsage) <= peakUsage
      ensures failures <= newUsage && Steps(steps) && Own(trace, t) == old(Own(trace, t)) + steps
      ensures alone ==> OnlyPeak() && failures == 0 && peakUsage == Max(newUsage, old(peakUsage))
    {
      var peak, left, done := first, weak, false;
      failures, steps := 0, [];
      SeenIsBounded(t);
      while !done && newUsage > peak
        invariant Mirrors() && old(peakUsage) <= peakUsage && failures <= newUsage
        invariant if done then PcOf(t) == Idle && newUsage <= peakUsage
                  else PcOf(t) == Raising(size, newUsage, peak, failures)
        invariant Steps(steps) && Own(trace, t) == old(Own(trace, t)) + steps
        invariant alone ==> OnlyPeak() && failures == 0
        invariant alone ==> if done then peakUsage == newUsage > old(peakUsage) else peak == peakUsage == old(peakUsage)
        decreases !done, newUsage - peak, left
      {
        Others(t, alone);
        ghost var own := Own(trace, t);
        var was := peak;
        done, peak, failures := ExchangePeak(size, newUsage, peak, failures, left > 0, t);
        ghost var fails :| Own(trace, t) == own + [Step(t, fails)];
        Associate(old(Own(trace, t)), steps, [Step(t, fails)]);
        steps := steps + [Step(t, fails)];
        if !done && peak == was { left := left - 1; }
        if !done { SeenIsBounded(t); }
      }
      if !done {
        GiveUp(size, newUsage, peak, failures, t);
        Associate(old(Own(trace, t)), steps, [Step(t, false)]);
        steps := steps + [Step(t, false)];
      }
    }

    /** Everything of an observed allocation up to the loop. */
    method AddNew(size: nat, ghost t: nat, ghost alone: bool) returns (newUsage: int, peak: int)
      requires Mirrors() && t < threads && PcOf(t).Idle?
      modifies this
      ensures Mirrors() && PcOf(t) == Raising(size, newUsage, peak, 0) && old(peakUsage) <= peakUsage
      ensures Own(trace, t) ==
              old(Own(trace, t)) + [BeginAllocate(t, size), Step(t, false), Step(t, false), Step(t, false)]
      ensures alone ==>
                && newUsage == currentUsage == old(currentUsage) + size && peak == peakUsage == old(peakUsage)
                && totalBytesAllocated == old(totalBytesAllocated) + size
                && totalAllocations == old(totalAllocations) + 1
                && totalBytesFreed == old(totalBytesFreed) && totalDeallocations == old(totalDeallocations)
    {
      CountAllocation(size, t);
      Others(t, alone);
      AddAllocated(size, t);
      Others(t, alone);
      newUsage := AddUsage(size, t);
      Others(t, alone);
      peak := LoadPeak(size, newUsage, t);
    }

    /** Ends with the peak at least the usage it made, after at most that many true exchange failures,
        having taken exactly the steps of one observed allocation. */
    method ObserveAllocate(size: nat, weak: nat, ghost t: nat, ghost alone: bool)
      returns (newUsage: int, ghost failures: nat, ghost steps: seq<Action>)
      requires Mirrors() && t < threads && PcOf(t).Idle?
      modifies this
      ensures Mirrors() && PcOf(t) == Idle && newUsage <= peakUsage && old(peakUsage) <= peakUsage
      ensures failures <= newUsage
      ensures Steps(steps) && Own(trace, t) == old(Own(trace, t)) + ([BeginAllocate(t, size)] + steps)
      ensures alone ==>
                && newUsage == currentUsage == old(currentUsage) + size && failures == 0
                && peakUsage == Max(newUsage, old(peakUsage))
                && totalBytesAllocated == old(totalBytesAllocated) + size
                && totalAllocations == old(totalAllocations) + 1
                && totalBytesFreed == old(totalBytesFreed) && totalDeallocations == old(totalDeallocations)
    {
      var peak;
      newUsage, peak := AddNew(size, t, alone);
      ghost var own, three := old(Own(trace, t)), [Step(t, false), Step(t, false), Step(t, false)];
      assert [BeginAllocate(t, size)] + three ==
             [BeginAllocate(t, size), Step(t, false), Step(t, false), Step(t, false)];
      failures, steps := RaisePeak(size, newUsage, peak, weak, t, alone);
      Associate(own, [BeginAllocate(t, size)] + three, steps);
      Associate([BeginAllocate(t, size)], three, steps);
      steps := three + steps;
    }

    method CountDeallocation(size: nat, ghost t: nat)
      requires Mirrors() && t < threads && PcOf(t).Idle? && size <= machine.credit
      modifies this`totalDeallocations, this`trace, this`machine
      ensures Mirrors() && PcOf(t) == FreeCounted(size) && totalDeallocations == old(totalDeallocations) + 1
      ensures Own(trace, t) == old(Own(trace, t)) + [BeginDeallocate(t, size)]
    {
      totalDeallocations := totalDeallocations + 1;
      Move(BeginDeallocate(t, size));
    }

    method AddFreed(size: nat, ghost t: nat)
      requires Mirrors() && t < threads && PcOf(t) == FreeCounted(size)
      modifies this`totalBytesFreed, this`trace, this`machine
      ensures Mirrors() && PcOf(t) == FreeTotalled(size) && totalBytesFreed == old(totalBytesFreed) + size
      ensures Own(trace, t) == old(Own(trace, t)) + [Step(t, false)]
    {
      totalBytesFreed := totalBytesFreed + size;
      Move(Step(t, false));
    }

    /** The fetch-and-subtract on the usage, which never wraps. */
    method TakeUsage(size: nat, ghost t: nat)
      requires Mirrors() && t < threads && PcOf(t) == FreeTotalled(size)
      modifies this`currentUsage, this`trace, this`machine
      ensures Mirrors() && PcOf(t) == Idle && 0 <= currentUsage == old(currentUsage) - size
      ensures Own(trace, t) == old(Own(trace, t)) + [Step(t, false)]
    {
      UsageNeverWraps(threads, trace, t);
      currentUsage := currentUsage - size;
      Move(Step(t, false));
    }

    /** Takes exactly the three steps of one observed deallocation, whose bytes some finished allocation
        has not given back yet. */
    method ObserveDeallocate(size: nat, ghost t: nat, ghost alone: bool)
      requires Mirrors() && t < threads && PcOf(t).Idle? && size <= machine.credit
      modifies this
      ensures Mirrors() && PcOf(t) == Idle && old(peakUsage) <= peakUsage && 0 <= currentUsage
      ensures Own(trace, t) == old(Own(trace, t)) + [BeginDeallocate(t, size), Step(t, false), Step(t, false)]
      ensures alone ==>
                && currentUsage == old(currentUsage) - size && peakUsage == old(peakUsage)
                && totalBytesFreed == old(totalBytesFreed) + size
                && totalDeallocations == old(totalDeallocations) + 1
                && totalBytesAllocated == old(totalBytesAllocated) && totalAllocations == old(totalAllocations)
    {
      CountDeallocation(size, t);
      Others(t, alone);
      AddFreed(size, t);
      Others(t, alone);
      TakeUsage(size, t);
    }
  }

  lemma RaisingIsBounded(s: State, t: nat)
    requires Inv(s) && t < |s.threads| && s.threads[t].Raising?
    ensures 0 <= s.threads[t].failures <= s.threads[t].seen <= s.peak && s.threads[t].failures <= s.threads[t].usage
  {
    assert Bounded(s.threads[t], s.peak, s.highest);
  }
}
