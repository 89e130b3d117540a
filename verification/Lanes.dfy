/** The bounded queues between the producers and the writer thread. */
module Lanes {
  import opened Words
  import opened Divisions
  import opened Bits
  import LaneLaw

  /** The check `install` makes of every slot count. */
  predicate PowerOfTwoTest(v: nat) {
    v != 0 && And(v, v - 1) == 0
  }

  function Count(fates: seq<bool>, kind: bool): nat {
    if fates == [] then 0 else Count(fates[..|fates| - 1], kind) + if fates[|fates| - 1] == kind then 1 else 0
  }

  /** Of the records that left the lane, those that were drained, in order. */
  function Drained<T>(accepted: seq<T>, fates: seq<bool>): (r: seq<T>)
    requires |fates| <= |accepted|
    ensures |r| == Count(fates, true)
  {
    if fates == [] then []
    else
      var n := |fates| - 1;
      Drained(accepted, fates[..n]) + if fates[n] then [accepted[n]] else []
  }

  /** `s` is `t` with some elements left out. */
  predicate Subsequence<T(==)>(s: seq<T>, t: seq<T>) {
    if s == [] then true
    else if t == [] then false
    else if s[|s| - 1] == t[|t| - 1] then Subsequence(s[..|s| - 1], t[..|t| - 1])
    else Subsequence(s, t[..|t| - 1])
  }

  lemma {:induction false} SubsequenceSkip<T>(s: seq<T>, t: seq<T>, x: T)
    requires Subsequence(s, t)
    ensures Subsequence(s, t + [x])
    decreases |t|, 1
  {
    assert (t + [x])[..|t|] == t;
    if s != [] && s[|s| - 1] == x {
      SubsequenceDropLast(s, t);
    }
  }

  lemma {:induction false} SubsequenceDropLast<T>(s: seq<T>, t: seq<T>)
    requires s != [] && Subsequence(s, t)
    ensures Subsequence(s[..|s| - 1], t)
    decreases |t|, 0
  {
    var n := |t| - 1;
    assert t == t[..n] + [t[n]];
    if s[|s| - 1] == t[n] {
      SubsequenceSkip(s[..|s| - 1], t[..n], t[n]);
    } else {
      SubsequenceDropLast(s, t[..n]);
      SubsequenceSkip(s[..|s| - 1], t[..n], t[n]);
    }
  }

  lemma SubsequenceTake<T>(s: seq<T>, t: seq<T>, x: T)
    requires Subsequence(s, t)
    ensures Subsequence(s + [x], t + [x])
  {
    assert (s + [x])[..|s|] == s && (t + [x])[..|t|] == t;
  }

  lemma {:induction false} DrainedIsSubsequence<T>(accepted: seq<T>, fates: seq<bool>)
    requires |fates| <= |accepted|
    ensures Subsequence(Drained(accepted, fates), accepted[..|fates|])
  {
    if fates != [] {
      var n := |fates| - 1;
      DrainedIsSubsequence(accepted, fates[..n]);
      assert accepted[..n + 1] == accepted[..n] + [accepted[n]];
      if fates[n] {
        SubsequenceTake(Drained(accepted, fates[..n]), accepted[..n], accepted[n]);
      } else {
        SubsequenceSkip(Drained(accepted, fates[..n]), accepted[..n], accepted[n]);
        assert Drained(accepted, fates) == Drained(accepted, fates[..n]);
      }
    }
  }

  /** What was drained followed by what is queued is what was accepted with only losses left out. */
  lemma {:induction false} DrainedThenQueued<T>(accepted: seq<T>, fates: seq<bool>, n: nat)
    requires |fates| <= n <= |accepted|
    ensures Subsequence(Drained(accepted, fates) + accepted[|fates|..n], accepted[..n])
    decreases n
  {
    if n == |fates| {
      DrainedIsSubsequence(accepted, fates);
      assert Drained(accepted, fates) + accepted[|fates|..n] == Drained(accepted, fates);
    } else {
      DrainedThenQueued(accepted, fates, n - 1);
      var before := Drained(accepted, fates) + accepted[|fates|..n - 1];
      assert before + [accepted[n - 1]] == Drained(accepted, fates) + accepted[|fates|..n];
      assert accepted[..n - 1] + [accepted[n - 1]] == accepted[..n];
      SubsequenceTake(before, accepted[..n - 1], accepted[n - 1]);
    }
  }

  /** A lane that never drops has drained exactly the records that left it, in order. */
  lemma {:induction false} DrainedAll<T>(accepted: seq<T>, fates: seq<bool>)
    requires |fates| <= |accepted| && (forall f :: f in fates ==> f)
    ensures Drained(accepted, fates) == accepted[..|fates|]
    ensures Count(fates, true) == |fates|
  {
    if fates != [] {
      var n := |fates| - 1;
      forall f | f in fates[..n] ensures f {
        assert f in fates;
      }
      assert fates[n] in fates;
      DrainedAll(accepted, fates[..n]);
      assert accepted[..n + 1] == accepted[..n] + [accepted[n]];
    }
  }

  lemma {:induction false} CountSplits(fates: seq<bool>)
    ensures Count(fates, true) + Count(fates, false) == |fates|
  {
    if fates != [] { CountSplits(fates[..|fates| - 1]); }
  }

  /** Every accepted record is drained, dropped or still queued. */
  lemma LaneConserves<T>(accepted: seq<T>, fates: seq<bool>, queued: seq<T>)
    requires |fates| <= |accepted| && queued == accepted[|fates|..]
    ensures |accepted| == Count(fates, true) + Count(fates, false) + |queued|
  {
    CountSplits(fates);
  }

  /** The slot of the i-th record after the head, going once round. */
  function SlotOf(head: nat, i: nat, n: nat): (k: nat)
    requires head < n && i <= n
    ensures k < n
  {
    if head + i < n then head + i else head + i - n
  }

  /** The mask keeps positions on the ring of slots. */
  lemma MaskWraps(head: nat, i: nat, n: nat)
    requires PowerOfTwoTest(n) && head < n && i <= n
    ensures And(head + i, n - 1) == (head + i) % n == SlotOf(head, i, n)
  {
    MaskIndexIsModulo(n);
    if head + i < n {
      DivModUnique(head + i, 0, head + i, n);
    } else {
      DivModUnique(head + i, 1, head + i - n, n);
    }
  }

  /** The records queued in a ring of slots, oldest first. */
  function QueueOf<T>(slots: seq<T>, head: nat, count: nat): (s: seq<T>)
    requires head < |slots| && count <= |slots|
    ensures |s| == count
  {
    seq(count, i requires 0 <= i < count => slots[SlotOf(head, i, |slots|)])
  }

  class BoundedLane<T(0)> {
    const slots: array<T>
    const mask: nat
    /** The discipline of the reserved lane: records are never dropped once accepted. */
    const lossless: bool
    var head: nat
    var count: nat
    var dropped: nat
    var overflow: nat
    var emitted: nat
    var drained: nat
    /** Every record accepted so far, whether each that has left was drained (or dropped), and every
        record refused because its wait ran out. */
    ghost var accepted: seq<T>
    ghost var fates: seq<bool>
    ghost var overflowed: seq<T>
    /** The answers to every wait for room of this producer. */
    ghost var waits: seq<LaneLaw.Wake<T>>

    /** The lane as the law sees it. */
    ghost function Law(): LaneLaw.Lane<T>
      reads `accepted, `fates, `overflowed
    {
      LaneLaw.Lane(slots.Length, accepted, fates, overflowed)
    }

    ghost predicate Shape()
      reads `head, `count
    {
      PowerOfTwoTest(slots.Length) && mask == slots.Length - 1 && head < slots.Length && count <= slots.Length
    }

    ghost function Contents(): (s: seq<T>)
      requires Shape()
      reads `head, `count, slots
      ensures |s| == count
    {
      QueueOf(slots[..], head, count)
    }

    ghost predicate Valid()
      reads this, slots
    {
      && Shape()
      && |fates| <= |accepted| && Contents() == accepted[|fates|..]
      && emitted == |accepted| && drained == Count(fates, true) && dropped == Count(fates, false)
      && overflow == |overflowed| && (lossless ==> forall f :: f in fates ==> f)
    }

    constructor (size: nat, keeps: bool)
      requires PowerOfTwoTest(size)
      ensures Valid() && slots.Length == size && lossless == keeps && fresh(slots)
      ensures Law() == LaneLaw.Lane(size, [], [], []) && overflow == 0 && waits == []
    {
      slots := new T[size];
      mask, lossless := size - 1, keeps;
      head, count, dropped, overflow, emitted, drained := 0, 0, 0, 0, 0, 0;
      accepted, fates, overflowed, waits := [], [], [], [];
    }

    /** Writes the slot after the last queued record. */
    method Append(rec: T)
      requires Shape() && count < slots.Length
      modifies slots, this`count
      ensures Shape() && count == old(count) + 1
      ensures Contents() == old(Contents()) + [rec]
    {
      MaskWraps(head, count, slots.Length);
      slots[And(head + count, mask)] := rec;
      count := count + 1;
    }

    method RemoveFirst()
      requires Shape() && count > 0
      modifies this`head, this`count
      ensures Shape() && count == old(count) - 1 && Contents() == old(Contents())[1..]
    {
      MaskWraps(head, 1, slots.Length);
      head := And(head + 1, mask);
      count := count - 1;
    }

    method Accept(rec: T)
      requires Valid() && count < slots.Length
      modifies slots, this`count, this`emitted, this`accepted
      ensures Valid() && accepted == old(accepted) + [rec] && count == old(count) + 1
    {
      Append(rec);
      emitted := emitted + 1;
      accepted := accepted + [rec];
      assert accepted[|fates|..] == old(accepted)[|fates|..] + [rec];
    }

    method DropOldest()
      requires Valid() && count > 0 && !lossless
      modifies this`head, this`count, this`dropped, this`fates
      ensures Valid() && fates == old(fates) + [false] && count == old(count) - 1
    {
      RemoveFirst();
      dropped := dropped + 1;
      fates := fates + [false];
      assert fates[..|fates| - 1] == old(fates);
    }

    /** Accepts `rec` at once; a full lane makes room by dropping its oldest record. */
    method PushDropOldest(rec: T)
      requires Valid() && !lossless
      modifies this, slots
      ensures Valid() && Law() == LaneLaw.PushDropOldest(old(Law()), rec)
      ensures accepted == old(accepted) + [rec] && overflow == old(overflow) && waits == old(waits)
      ensures fates == old(fates) + if old(count) == slots.Length then [false] else []
    {
      assert |LaneLaw.Queued(Law())| == count;
      if count == slots.Length {
        DropOldest();
      }
      Accept(rec);
    }

    /** Accepts `rec` if there is room at once: what a producer does each time it holds the lock. */
    method TryAccept(rec: T) returns (ok: bool)
      requires Valid()
      modifies slots, this`count, this`emitted, this`accepted
      ensures Valid() && ok == !LaneLaw.Full(old(Law()))
      ensures Law() == if ok then LaneLaw.Accept(old(Law()), rec) else old(Law())
      ensures ok <==> old(count) < slots.Length
    {
      ok := count < slots.Length;
      if ok { Accept(rec); }
    }

    method Refuse(ghost rec: T)
      requires Valid()
      modifies this`overflow, this`overflowed
      ensures Valid() && Law() == LaneLaw.Refuse(old(Law()), rec) && overflow == old(overflow) + 1
    {
      overflow := overflow + 1;
      overflowed := overflowed + [rec];
    }

    /** Other threads have used the lane meanwhile: what it recorded before is still there. */
    twostate predicate Later()
      reads this
    {
      old(accepted) <= accepted && old(fates) <= fates && old(overflowed) <= overflowed
    }

    /** Waiting for room gives the lock up: other producers and the writer may use the lane meanwhile.
        `wakeups` is how often a wait may yet end before the deadline. */
    method WaitForRoom(wakeups: nat) returns (timedOut: bool)
      requires Valid() && lossless
      modifies this, slots
      ensures Valid() && Later() && waits == old(waits) + [LaneLaw.Wake(timedOut, Law())]
      ensures wakeups == 0 ==> timedOut
    {
      timedOut := true;
      if wakeups > 0 {
        timedOut := *;
      }
      waits := waits + [LaneLaw.Wake(timedOut, Law())];
    }

    /** Accepts `rec`, waiting for room until the budget is spent; `wakeups` bounds how often the wait
        is woken before its deadline. `before` is the lane as the others left it when the call took its
        last hold of the lock: it then accepted the record or, its wait having timed out, counted it as
        refused. */
    method PushBoundedWait(rec: T, wakeups: nat)
      returns (ok: bool, ghost before: LaneLaw.Lane<T>, ghost wakes: seq<LaneLaw.Wake<T>>)
      requires Valid() && lossless
      modifies this, slots
      ensures Valid()
      ensures Law() == if ok then LaneLaw.Accept(before, rec) else LaneLaw.Refuse(before, rec)
      ensures waits == old(waits) + wakes && LaneLaw.WaitedOut(old(Law()), wakes, before, ok)
      ensures old(accepted) <= before.accepted && old(fates) <= before.fates && old(overflowed) <= before.overflowed
      ensures !LaneLaw.Full(old(Law())) ==> ok && before == old(Law()) && overflow == old(overflow)
      ensures |wakes| <= wakeups + 1
    {
      before := Law();
      ok := TryAccept(rec);
      var left := wakeups;
      wakes := [];
      while !ok
        invariant Valid() && lossless
        invariant Law() == if ok then LaneLaw.Accept(before, rec) else before
        invariant old(accepted) <= before.accepted && old(fates) <= before.fates
        invariant old(overflowed) <= before.overflowed
        invariant !LaneLaw.Full(old(Law())) ==> ok && before == old(Law()) && overflow == old(overflow)
        invariant waits == old(waits) + wakes && |wakes| + left == wakeups
        invariant if ok then LaneLaw.WaitedOut(old(Law()), wakes, before, ok)
                  else LaneLaw.Full(old(Law())) && LaneLaw.AllFull(wakes)
        decreases left
      {
        var timedOut := WaitForRoom(left);
        before := Law();
        wakes := wakes + [LaneLaw.Wake(timedOut, before)];
        if timedOut {
          Refuse(rec);
          return;
        }
        ok := TryAccept(rec);
        left := left - 1;
      }
    }

    /** Hands out the oldest queued record, if there is one. */
    method TryPop() returns (r: Option<T>)
      requires Valid()
      modifies this
      ensures Valid() && accepted == old(accepted) && overflow == old(overflow) && waits == old(waits)
      ensures r == if LaneLaw.Queued(old(Law())) == [] then None else Some(LaneLaw.Queued(old(Law()))[0])
      ensures r.None? ==> unchanged(this)
      ensures r.Some? ==> Contents() == old(Contents())[1..] && Law() == LaneLaw.Popped(old(Law()))
                          && drained == old(drained) + 1
                          && Drained(accepted, fates) == old(Drained(accepted, fates)) + [r.value]
    {
      if count == 0 {
        return None;
      }
      r := Some(slots[head]);
      RemoveFirst();
      drained := drained + 1;
      fates := fates + [true];
      assert fates[..|fates| - 1] == old(fates);
    }
  }
}
