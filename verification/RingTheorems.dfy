/** The guarantees of the crash ring, each over every run from its construction. */
module RingTheorems {
  import opened Words
  import opened RingTypes
  import opened RingWindow
  import opened RingMachine
  import opened RingSafety

  /** The state some run reaches. */
  ghost function After(cap: nat, payloads: seq<Record>, actions: seq<Action>): (s: State)
    requires 0 < cap == |payloads|
    ensures Shaped(s)
  {
    InitInv(cap, payloads);
    Exec(Init(cap, payloads), actions)
  }

  lemma AfterInv(cap: nat, payloads: seq<Record>, actions: seq<Action>)
    requires 0 < cap == |payloads|
    ensures Inv(After(cap, payloads, actions))
  {
    InitInv(cap, payloads);
    RunInv(Init(cap, payloads), actions);
  }

  /** Nothing a capture returns is torn: each entry is, field for field, the record one write built
      for reservation sequence/2, at or below the watermark the capture started from, and shows that
      write's event. */
  lemma CapturedRecordsAreWhole(cap: nat, payloads: seq<Record>, actions: seq<Action>, t: nat, k: nat)
    requires 0 < cap == |payloads|
    requires var pc := PcOf(After(cap, payloads, actions), t);
             pc.Captured? && k < |pc.snap.entries|
    ensures var s := After(cap, payloads, actions);
            var snap := PcOf(s, t).snap;
            Genuine(s, snap.entries[k], snap.watermark) && ShowsItsEvent(s, snap.entries[k])
  {
    AfterInv(cap, payloads, actions);
    var s := After(cap, payloads, actions);
    assert ThreadOk(s, t);
    var snap := PcOf(s, t).snap;
    assert snap.entries[k] in snap.seen;
    GenuineShowsEvent(s, snap.entries[k], snap.watermark);
  }

  /** The receipt adds up although one fall-through of the code books nothing: no slot is malformed,
      none is left uncounted, and busy, empty, later and stable slots make up the capacity. */
  lemma ReceiptAddsUp(cap: nat, payloads: seq<Record>, actions: seq<Action>, t: nat)
    requires 0 < cap == |payloads|
    requires PcOf(After(cap, payloads, actions), t).Captured?
    ensures var pc := PcOf(After(cap, payloads, actions), t);
            && pc.snap.malformed == 0 && pc.snap.uncounted == 0
            && (pc.max > 0 && pc.snap.watermark > 0 ==>
                  pc.snap.busy + pc.snap.emptySlots + pc.snap.afterWatermark + |pc.snap.seen| == cap)
  {
    AfterInv(cap, payloads, actions);
    var s := After(cap, payloads, actions);
    assert ThreadOk(s, t);
    ExecKeepsCap(Init(cap, payloads), actions);
  }

  lemma {:induction false} ExecKeepsCap(s: State, actions: seq<Action>)
    requires Inv(s)
    ensures Exec(s, actions).cap == s.cap
    decreases |actions|
  {
    if actions != [] {
      ApplyKeepsInv(s, actions[0]);
      ExecKeepsCap(Apply(s, actions[0]), actions[1..]);
    }
  }

  /** The window is strictly descending and is exactly the top of the stable records met; the status
      says Valid only when every slot was empty or stable, Empty only when nothing was there. */
  lemma WindowIsNewest(cap: nat, payloads: seq<Record>, actions: seq<Action>, t: nat)
    requires 0 < cap == |payloads|
    requires var pc := PcOf(After(cap, payloads, actions), t);
             pc.Captured? && pc.max > 0
    ensures var pc := PcOf(After(cap, payloads, actions), t);
            && TopWindow(pc.snap.entries, pc.snap.seen, pc.max)
            && (pc.snap.status == Valid <==> pc.snap.entries != [] && pc.snap.busy == pc.snap.afterWatermark == 0)
            && (pc.snap.status == Empty <==> pc.snap.seen == [] && pc.snap.busy == pc.snap.afterWatermark == 0)
  {
    AfterInv(cap, payloads, actions);
    assert ThreadOk(After(cap, payloads, actions), t);
  }

  /** At most one thread holds a slot; a slot no thread holds is free, and its word is 0 or 2r for a
      handed-out reservation r that belongs there, above the whole record of r. */
  lemma SlotLaw(cap: nat, payloads: seq<Record>, actions: seq<Action>, i: nat)
    requires 0 < cap == |payloads| && i < cap
    ensures var s := After(cap, payloads, actions);
            && s.cap == cap
            && (forall t: nat, u: nat :: Held(PcOf(s, t), cap) == Held(PcOf(s, u), cap) == Some(i) ==> t == u)
            && ((forall t: nat :: Held(PcOf(s, t), cap) != Some(i)) ==> s.access[i] == 0 && Stable(s, i))
  {
    AfterInv(cap, payloads, actions);
    ExecKeepsCap(Init(cap, payloads), actions);
    var s := After(cap, payloads, actions);
    assert SlotOk(s, i);
    forall t: nat | Held(PcOf(s, t), cap) == Some(i) ensures s.owners[i] == Some(t) {
      assert ThreadOk(s, t);
    }
  }

  /** Reservations are exactly 1..last, each handed out once and each published, lost or held by one
      thread; every finished write was published or dropped. */
  lemma Accounting(cap: nat, payloads: seq<Record>, actions: seq<Action>)
    requires 0 < cap == |payloads|
    ensures var s := After(cap, payloads, actions);
            var published := CountFate(s.fates, (f: Fate) => f.Published?);
            && s.last == published + CountFate(s.fates, (f: Fate) => f.Lost?)
                                   + CountFate(s.fates, (f: Fate) => f.InFlight?)
            && s.finished == published + s.losses && s.dropped == s.losses % U64_LIMIT
            && (forall t, q :: 0 <= q < s.last ==>
                  (s.fates[q] == InFlight(t) <==> Reserved(PcOf(s, t)) == q + 1))
            && (forall t :: PcOf(s, t).Wrote? && PcOf(s, t).result != 0 ==>
                  0 < PcOf(s, t).result / 2 <= s.last && s.fates[PcOf(s, t).result / 2 - 1] == Published)
  {
    AfterInv(cap, payloads, actions);
    var s := After(cap, payloads, actions);
    FatesPartition(s.fates);
    forall t, q | 0 <= q < s.last ensures s.fates[q] == InFlight(t) <==> Reserved(PcOf(s, t)) == q + 1 {
      LocalView(s, t);
    }
    forall t | PcOf(s, t).Wrote? && PcOf(s, t).result != 0
      ensures 0 < PcOf(s, t).result / 2 <= s.last && s.fates[PcOf(s, t).result / 2 - 1] == Published
    {
      assert ThreadOk(s, t);
    }
  }

  lemma {:induction false} FatesPartition(fates: seq<Fate>)
    ensures |fates| == CountFate(fates, (f: Fate) => f.Published?) + CountFate(fates, (f: Fate) => f.Lost?)
                     + CountFate(fates, (f: Fate) => f.InFlight?)
  {
    if fates != [] {
      FatesPartition(fates[..|fates| - 1]);
    }
  }

  lemma WriterNeverGoesBack(s: State, t: nat, i: nat)
    requires Local(s, t) && i < s.cap && Writing(PcOf(s, t))
    ensures Shaped(StepWriter(s, t)) && StepWriter(s, t).cap == s.cap
    ensures StepWriter(s, t).words[i] / 2 >= s.words[i] / 2
    ensures StepWriter(s, t).records[i] != s.records[i] ==>
              s.words[i] == 2 * Reserved(PcOf(s, t)) + 1 && Held(PcOf(s, t), s.cap) == Some(i)
  {
    WriterShaped(s, t);
  }

  /** One step never takes a slot back to an older reservation, and changes a payload only under the
      odd word of the reservation its thread is filling that slot for. */
  lemma StepNeverGoesBack(s: State, a: Action, i: nat)
    requires Inv(s) && i < s.cap
    ensures Shaped(Apply(s, a)) && Apply(s, a).cap == s.cap
    ensures Apply(s, a).words[i] / 2 >= s.words[i] / 2
    ensures Apply(s, a).records[i] != s.records[i] ==>
              s.words[i] == 2 * Reserved(PcOf(s, a.t)) + 1 && Held(PcOf(s, a.t), s.cap) == Some(i)
  {
    ApplyShaped(s, a);
    if a.Advance? {
      EveryPc(s, a.t);
      LocalView(s, a.t);
      if Writing(PcOf(s, a.t)) { WriterNeverGoesBack(s, a.t, i); }
    }
  }

  /** Over any run a slot's reservation only grows, so a delayed producer never overwrites a newer
      record. */
  lemma {:induction false} SlotsNeverGoBack(s: State, actions: seq<Action>, i: nat)
    requires Inv(s) && i < s.cap
    ensures Exec(s, actions).cap == s.cap && Exec(s, actions).words[i] / 2 >= s.words[i] / 2
    decreases |actions|
  {
    if actions != [] {
      StepNeverGoesBack(s, actions[0], i);
      ApplyKeepsInv(s, actions[0]);
      SlotsNeverGoBack(Apply(s, actions[0]), actions[1..], i);
    }
  }

  // ----- no call waits for another thread -----

  const VISIT_STEPS: nat := PAYLOAD_PARTS + 5

  /** A bound on the steps a call still has to take itself. */
  function StepsLeft(pc: Pc, cap: nat): nat {
    match pc
    case Reserving(_, _) => FILL_STORES + 7
    case Claiming(_, _) => FILL_STORES + 6
    case Checking(_, _) => FILL_STORES + 5
    case Marking(_, _) => FILL_STORES + 4
    case Filling(_, _, k) => Max(FILL_STORES - k, 0) + 3
    case Releasing(_, _) => 2
    case Rejecting(_, _) => 2
    case Losing(_, _) => 1
    case Opening(_) => cap * VISIT_STEPS + 3
    case Sampling(_, _) => cap * VISIT_STEPS + 2
    case Visiting(_, _, i) => Max(cap - i, 0) * VISIT_STEPS + 1
    case Loading(_, _, i) => Max(cap - i - 1, 0) * VISIT_STEPS + PAYLOAD_PARTS + 4
    case Copying(_, _, i, _, k, _) => Max(cap - i - 1, 0) * VISIT_STEPS + Max(PAYLOAD_PARTS - k, 0) + 3
    case Leaving(_, _, i) => Max(cap - i - 1, 0) * VISIT_STEPS + 2
    case _ => 0
  }

  lemma WriterProgress(s: State, t: nat)
    requires Local(s, t) && Writing(PcOf(s, t))
    ensures StepsLeft(PcOf(StepWriter(s, t), t), s.cap) < StepsLeft(PcOf(s, t), s.cap)
  {
    assert PcShape(PcOf(s, t), s.cap, s.last);
    if PcOf(s, t).Filling? {
      FillStep(s, t);
    }
  }

  lemma InspectorProgress(s: State, t: nat)
    requires Shaped(s) && Inspecting(PcOf(s, t))
    ensures StepsLeft(PcOf(StepInspector(s, t), t), s.cap) < StepsLeft(PcOf(s, t), s.cap)
  {
    var pc := PcOf(s, t);
    assert PcShape(pc, s.cap, s.last);
    if pc.Visiting? && pc.i < s.cap {
      assert (s.cap - pc.i) * VISIT_STEPS == (s.cap - pc.i - 1) * VISIT_STEPS + VISIT_STEPS;
    }
  }

  /** Every step of a call brings its own end nearer. */
  lemma OwnStepMakesProgress(s: State, t: nat)
    requires Local(s, t) && !Ready(PcOf(s, t))
    ensures StepsLeft(PcOf(Apply(s, Advance(t)), t), s.cap) < StepsLeft(PcOf(s, t), s.cap)
  {
    EveryPc(s, t);
    if Writing(PcOf(s, t)) { WriterProgress(s, t); } else { InspectorProgress(s, t); }
  }

  lemma OthersDoNotMove(s: State, a: Action, t: nat)
    requires Shaped(s) && a.t != t
    ensures PcOf(Apply(s, a), t) == PcOf(s, t)
  {
  }

  /** Only `t`'s own steps move its call, and each brings the end at least one step nearer. */
  lemma StepMakesProgress(s: State, a: Action, t: nat)
    requires Inv(s) && (a.t == t ==> a.Advance?)
    ensures StepsLeft(PcOf(Apply(s, a), t), s.cap) <= StepsLeft(PcOf(s, t), s.cap)
    ensures a == Advance(t) && StepsLeft(PcOf(s, t), s.cap) > 0 ==>
              StepsLeft(PcOf(Apply(s, a), t), s.cap) < StepsLeft(PcOf(s, t), s.cap)
  {
    if a.t != t {
      OthersDoNotMove(s, a, t);
    } else {
      LocalView(s, t);
      EveryPc(s, t);
      if !Ready(PcOf(s, t)) { OwnStepMakesProgress(s, t); }
    }
  }

  function CountAdvances(actions: seq<Action>, t: nat): nat {
    if actions == [] then 0
    else (if actions[0] == Advance(t) then 1 else 0) + CountAdvances(actions[1..], t)
  }

  /** Bounded wait-freedom: a call returns after StepsLeft steps of its own thread, whatever the other
      threads do in between and even if all of them stop where they are. */
  lemma {:induction false} CallsAreWaitFree(s: State, actions: seq<Action>, t: nat)
    requires Inv(s)
    requires forall a :: a in actions && a.t == t ==> a.Advance?
    requires CountAdvances(actions, t) >= StepsLeft(PcOf(s, t), s.cap)
    ensures Ready(PcOf(Exec(s, actions), t))
    decreases |actions|
  {
    if actions != [] {
      ApplyKeepsInv(s, actions[0]);
      ApplyShaped(s, actions[0]);
      StepMakesProgress(s, actions[0], t);
      CallsAreWaitFree(Apply(s, actions[0]), actions[1..], t);
    }
  }
}
