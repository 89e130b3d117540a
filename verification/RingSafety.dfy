/** What every step of the crash ring keeps, and what follows for whole runs. */
module RingSafety {
  import opened Words
  import opened RingTypes
  import opened RingWindow
  import opened RingMachine

  /** Slot `i` is empty or holds the whole record of one reservation whose home it is. */
  ghost predicate Stable(s: State, i: nat)
    requires Shaped(s) && i < s.cap
  {
    var r := s.words[i] / 2;
    && s.words[i] % 2 == 0
    && (r > 0 ==> r <= s.last && Home(r, s.cap) == i && s.records[i] == Built(s.log[r - 1], r))
  }

  /** `rec` is, field for field, what the single write holding reservation sequence/2 built. */
  ghost predicate Genuine(s: State, rec: Record, watermark: nat)
    requires Shaped(s)
  {
    var r := rec.sequence / 2;
    0 < r <= watermark && r <= s.last && rec == Built(s.log[r - 1], r)
  }

  /** Such a record shows that write's event and nothing else. */
  ghost predicate ShowsItsEvent(s: State, rec: Record)
    requires Shaped(s)
  {
    var r := rec.sequence / 2;
    0 < r <= s.last && rec.sequence == 2 * r && Carries(rec, s.log[r - 1])
  }

  lemma GenuineShowsEvent(s: State, rec: Record, watermark: nat)
    requires Shaped(s) && Genuine(s, rec, watermark)
    ensures ShowsItsEvent(s, rec)
  {
    BuiltCarries(s.log[rec.sequence / 2 - 1], rec.sequence / 2);
  }

  function HomeOf(rec: Record, cap: nat): nat
    requires 0 < cap
  {
    if rec.sequence < 2 then 0 else Home(rec.sequence / 2, cap)
  }

  /** `seen` are whole records, in the order of their slots, all before slot `i`. */
  ghost predicate SeenOk(s: State, seen: seq<Record>, watermark: nat, i: nat)
    requires Shaped(s)
  {
    && (forall x :: x in seen ==> Genuine(s, x, watermark) && HomeOf(x, s.cap) < i)
    && (forall a, b :: 0 <= a < b < |seen| ==> HomeOf(seen[a], s.cap) < HomeOf(seen[b], s.cap))
  }

  /** An inspector that has booked the first `i` slots has booked each of them once. */
  ghost predicate ReceiptOk(s: State, snap: Snapshot, max: nat, i: nat)
    requires Shaped(s)
  {
    && 0 < snap.watermark <= s.last
    && snap.malformed == 0 && snap.uncounted == 0
    && snap.busy + snap.emptySlots + snap.afterWatermark + |snap.seen| == i
    && SeenOk(s, snap.seen, snap.watermark, i)
    && TopWindow(snap.entries, snap.seen, max)
  }

  /** What a finished capture returned. */
  ghost predicate CaptureOk(s: State, snap: Snapshot, max: nat)
    requires Shaped(s)
  {
    if max == 0 then snap == NO_SNAPSHOT
    else if snap.watermark == 0 then snap == NO_SNAPSHOT.(dropped := snap.dropped)
    else ReceiptOk(s, snap, max, s.cap) && snap == Conclude(snap.(status := Valid))
  }

  ghost predicate ThreadOk(s: State, t: nat)
    requires Shaped(s)
  {
    var pc := PcOf(s, t);
    && PcShape(pc, s.cap, s.last)
    && (Reserved(pc) > 0 ==> s.fates[Reserved(pc) - 1] == InFlight(t) && s.log[Reserved(pc) - 1] == pc.evt)
    && (WriterHolds(pc) ==> WriterOk(s, t, Home(Reserved(pc), s.cap)))
    && (InspectorHolds(pc) ==> InspectorOk(s, t, pc.i))
    && (pc.Sampling? ==> pc.snap == NO_SNAPSHOT.(watermark := pc.snap.watermark) && pc.snap.watermark <= s.last)
    && (pc.Visiting? || InspectorHolds(pc) ==> pc.snap.status == Valid)
    && (pc.Visiting? ==> ReceiptOk(s, pc.snap, pc.max, pc.i))
    && (pc.Captured? ==> CaptureOk(s, pc.snap, pc.max))
    && (pc.Wrote? && pc.result != 0 ==>
          pc.result % 2 == 0 && pc.result / 2 <= s.last && s.fates[pc.result / 2 - 1] == Published)
  }

  ghost predicate WriterOk(s: State, t: nat, i: nat)
    requires Shaped(s) && i < s.cap && WriterHolds(PcOf(s, t)) && 0 < Reserved(PcOf(s, t)) <= s.last
  {
    var pc := PcOf(s, t);
    && s.owners[i] == Some(t) && s.access[i] == 1
    && (if pc.Filling? then s.words[i] == 2 * pc.r + 1 && AgreeUpTo(s.records[i], Built(pc.evt, pc.r), pc.k)
        else Stable(s, i))
    && (pc.Marking? ==> s.words[i] / 2 < pc.r)
    && (pc.Releasing? ==> s.words[i] == 2 * pc.r)
  }

  ghost predicate InspectorOk(s: State, t: nat, i: nat)
    requires Shaped(s) && i < s.cap && InspectorHolds(PcOf(s, t))
  {
    var pc := PcOf(s, t);
    && s.owners[i] == Some(t) && s.access[i] == 2
    && Stable(s, i)
    && ReceiptOk(s, pc.snap, pc.max, if pc.Leaving? then i + 1 else i)
    && (pc.Copying? ==> pc.word == s.words[i] != 0 && AgreeUpTo(pc.copy, s.records[i], pc.k))
  }

  /** The slot a thread holds, if any. */
  ghost function Held(pc: Pc, cap: nat): Option<nat>
    requires 0 < cap
  {
    if WriterHolds(pc) && Reserved(pc) > 0 then Some(Home(Reserved(pc), cap))
    else if InspectorHolds(pc) then Some(pc.i)
    else None
  }

  ghost predicate SlotOk(s: State, i: nat)
    requires Shaped(s) && i < s.cap
  {
    match s.owners[i]
    case None => s.access[i] == 0 && Stable(s, i)
    case Some(t) => Held(PcOf(s, t), s.cap) == Some(i)
  }

  function CountFate(fates: seq<Fate>, f: Fate -> bool): nat {
    if fates == [] then 0
    else CountFate(fates[..|fates| - 1], f) + if f(fates[|fates| - 1]) then 1 else 0
  }

  ghost predicate FateOk(s: State, r: nat)
    requires Shaped(s) && 0 < r <= s.last
  {
    s.fates[r - 1].InFlight? ==> Reserved(PcOf(s, s.fates[r - 1].t)) == r
  }

  ghost predicate CountersOk(s: State) {
    && s.dropped == s.losses % U64_LIMIT
    && s.finished == CountFate(s.fates, (f: Fate) => f.Published?) + s.losses
  }

  ghost predicate Inv(s: State) {
    && Shaped(s)
    && (forall i :: 0 <= i < s.cap ==> SlotOk(s, i))
    && (forall t :: ThreadOk(s, t))
    && (forall r :: 0 < r <= s.last ==> FateOk(s, r))
    && CountersOk(s)
  }

  // ----- one step -----

  /** `s'` differs from `s` only in thread `t`, in the slot `i` that `t` holds before or after the
      step, in the fate of `t`'s reservation, and in what the log gained. */
  ghost predicate OnlyTouches(s: State, s': State, t: nat, i: Option<nat>)
    requires Shaped(s) && Shaped(s')
  {
    && s'.cap == s.cap && s.log <= s'.log
    && (forall u :: u != t ==> PcOf(s', u) == PcOf(s, u))
    && (forall j :: 0 <= j < s.cap && i != Some(j) ==>
          s'.words[j] == s.words[j] && s'.access[j] == s.access[j]
          && s'.records[j] == s.records[j] && s'.owners[j] == s.owners[j])
    && (i.Some? ==> i.value < s.cap && s.owners[i.value] in {None, Some(t)} && s'.owners[i.value] in {None, Some(t)})
    && (Held(PcOf(s, t), s.cap).Some? ==> i == Held(PcOf(s, t), s.cap))
    && (forall q :: 0 <= q < s.last ==> s'.fates[q] == s.fates[q] || q + 1 == Reserved(PcOf(s, t)))
    && (forall q :: 0 <= q < s'.last ==>
          (s'.fates[q] == InFlight(t) <==> q + 1 == Reserved(PcOf(s', t)))
          && (q >= s.last || s'.fates[q] != s.fates[q] ==> s'.fates[q] in {InFlight(t), Published, Lost}))
  }

  lemma GenuineStays(s: State, s': State, rec: Record, watermark: nat)
    requires Shaped(s) && Shaped(s') && s.log <= s'.log && Genuine(s, rec, watermark)
    ensures Genuine(s', rec, watermark)
  {
  }

  lemma ReceiptStays(s: State, s': State, snap: Snapshot, max: nat, i: nat)
    requires Shaped(s) && Shaped(s') && s.log <= s'.log && s'.cap == s.cap && ReceiptOk(s, snap, max, i)
    ensures ReceiptOk(s', snap, max, i)
  {
    forall x | x in snap.seen ensures Genuine(s', x, snap.watermark) {
      GenuineStays(s, s', x, snap.watermark);
    }
  }

  lemma StableStays(s: State, s': State, i: nat)
    requires Shaped(s) && Shaped(s') && s.log <= s'.log && s'.cap == s.cap && i < s.cap
    requires s'.words[i] == s.words[i] && s'.records[i] == s.records[i] && Stable(s, i)
    ensures Stable(s', i)
  {
  }

  lemma OtherWriterOk(s: State, s': State, t: nat, i: Option<nat>, u: nat)
    requires Inv(s) && Shaped(s') && OnlyTouches(s, s', t, i) && u != t && WriterHolds(PcOf(s, u))
    ensures WriterOk(s', u, Home(Reserved(PcOf(s, u)), s.cap))
  {
    assert ThreadOk(s, u) && ThreadOk(s, t);
    var j := Home(Reserved(PcOf(s, u)), s.cap);
    assert i != Some(j);
    if !PcOf(s, u).Filling? {
      StableStays(s, s', j);
    }
  }

  lemma OtherInspectorOk(s: State, s': State, t: nat, i: Option<nat>, u: nat)
    requires Inv(s) && Shaped(s') && OnlyTouches(s, s', t, i) && u != t && InspectorHolds(PcOf(s, u))
    ensures InspectorOk(s', u, PcOf(s, u).i)
  {
    assert ThreadOk(s, u) && ThreadOk(s, t);
    var pc := PcOf(s, u);
    assert i != Some(pc.i);
    StableStays(s, s', pc.i);
    ReceiptStays(s, s', pc.snap, pc.max, if pc.Leaving? then pc.i + 1 else pc.i);
  }

  lemma OtherReceiptOk(s: State, s': State, t: nat, i: Option<nat>, u: nat)
    requires Inv(s) && Shaped(s') && OnlyTouches(s, s', t, i) && u != t
    ensures PcOf(s, u).Visiting? ==> ReceiptOk(s', PcOf(s, u).snap, PcOf(s, u).max, PcOf(s, u).i)
    ensures PcOf(s, u).Captured? ==> CaptureOk(s', PcOf(s, u).snap, PcOf(s, u).max)
  {
    assert ThreadOk(s, u);
    var pc := PcOf(s, u);
    if pc.Visiting? {
      ReceiptStays(s, s', pc.snap, pc.max, pc.i);
    } else if pc.Captured? && ReceiptOk(s, pc.snap, pc.max, s.cap) {
      ReceiptStays(s, s', pc.snap, pc.max, s.cap);
    }
  }

  lemma OtherFatesOk(s: State, s': State, t: nat, i: Option<nat>, u: nat, q: nat)
    requires Inv(s) && Shaped(s') && OnlyTouches(s, s', t, i) && u != t && q < s.last
    requires s.fates[q] == InFlight(u) || s.fates[q] == Published
    ensures s'.fates[q] == s.fates[q]
  {
    assert ThreadOk(s, t);
  }

  /** A step of `t` cannot break what any other thread relies on. */
  lemma OtherThreadOk(s: State, s': State, t: nat, i: Option<nat>, u: nat)
    requires Inv(s) && Shaped(s') && OnlyTouches(s, s', t, i) && u != t
    ensures ThreadOk(s', u)
  {
    var pc := PcOf(s, u);
    assert ThreadOk(s, u);
    OtherReceiptOk(s, s', t, i, u);
    if Reserved(pc) > 0 { OtherFatesOk(s, s', t, i, u, Reserved(pc) - 1); }
    if pc.Wrote? && pc.result != 0 { OtherFatesOk(s, s', t, i, u, pc.result / 2 - 1); }
    if WriterHolds(pc) { OtherWriterOk(s, s', t, i, u); }
    if InspectorHolds(pc) { OtherInspectorOk(s, s', t, i, u); }
  }

  lemma OtherSlotOk(s: State, s': State, t: nat, i: Option<nat>, j: nat)
    requires Inv(s) && Shaped(s') && OnlyTouches(s, s', t, i) && j < s.cap && i != Some(j)
    ensures SlotOk(s', j)
  {
    assert SlotOk(s, j);
    if s.owners[j] == None {
      StableStays(s, s', j);
    }
  }

  /** To keep the invariant a step has only to answer for its own thread and slot. */
  lemma StepKeepsInv(s: State, s': State, t: nat, i: Option<nat>)
    requires Inv(s) && Shaped(s') && OnlyTouches(s, s', t, i)
    requires ThreadOk(s', t) && CountersOk(s')
    requires i.Some? ==> SlotOk(s', i.value)
    ensures Inv(s')
  {
    forall u ensures ThreadOk(s', u) {
      if u != t { OtherThreadOk(s, s', t, i, u); }
    }
    forall j | 0 <= j < s'.cap ensures SlotOk(s', j) {
      if i != Some(j) { OtherSlotOk(s, s', t, i, j); }
    }
    forall r | 0 < r <= s'.last ensures FateOk(s', r) {
      if r <= s.last { assert FateOk(s, r); }
    }
  }

  // ----- each kind of step, from what its own thread and slot say -----

  ghost predicate OwnFates(s: State, t: nat)
    requires Shaped(s)
  {
    forall q :: 0 <= q < s.last ==> (s.fates[q] == InFlight(t) <==> q + 1 == Reserved(PcOf(s, t)))
  }

  /** The slot the next step of `t` reads or writes, if it holds or wins one. */
  ghost function Touched(s: State, t: nat): Option<nat>
    requires Shaped(s)
  {
    var pc := PcOf(s, t);
    if pc.Claiming? then
      assert PcShape(pc, s.cap, s.last);
      if s.access[Home(pc.r, s.cap)] == 0 then Some(Home(pc.r, s.cap)) else None
    else if pc.Visiting? then if pc.i < s.cap && s.access[pc.i] == 0 then Some(pc.i) else None
    else Held(pc, s.cap)
  }

  /** All that a step of `t` needs to know about the state. */
  ghost predicate Local(s: State, t: nat) {
    && Shaped(s) && ThreadOk(s, t) && CountersOk(s) && OwnFates(s, t)
    && (Touched(s, t).Some? ==>
          var i := Touched(s, t).value;
          && i < s.cap && SlotOk(s, i)
          && (s.owners[i] == None <==> s.access[i] == 0))
  }

  /** A step of `t` that leaves everything it answers for in order. */
  ghost predicate GoodStep(s: State, s': State, t: nat) {
    && Shaped(s) && Shaped(s')
    && OnlyTouches(s, s', t, Touched(s, t))
    && ThreadOk(s', t) && CountersOk(s')
    && (Touched(s, t).Some? ==> SlotOk(s', Touched(s, t).value))
  }

  lemma {:induction false} CountUpdate(fates: seq<Fate>, q: nat, x: Fate, f: Fate -> bool)
    requires q < |fates|
    ensures CountFate(fates[q := x], f)
         == CountFate(fates, f) - (if f(fates[q]) then 1 else 0) + (if f(x) then 1 else 0)
  {
    var n := |fates| - 1;
    if q == n {
      assert fates[q := x][..n] == fates[..n];
    } else {
      assert fates[q := x][..n] == fates[..n][q := x];
      CountUpdate(fates[..n], q, x, f);
    }
  }

  predicate Writing(pc: Pc) {
    WriterHolds(pc) || pc.Reserving? || pc.Claiming? || pc.Losing?
  }

  predicate Inspecting(pc: Pc) {
    pc.Opening? || pc.Sampling? || pc.Visiting? || InspectorHolds(pc)
  }

  /** `t` steps within its shape, and nobody else owns the slot it is about to touch. */
  ghost predicate Entitled(s: State, t: nat) {
    && Shaped(s) && PcShape(PcOf(s, t), s.cap, s.last) && OwnFates(s, t)
    && (Touched(s, t).Some? ==>
          Touched(s, t).value < s.cap && s.owners[Touched(s, t).value] in {None, Some(t)})
  }

  lemma LocalIsEntitled(s: State, t: nat)
    requires Local(s, t)
    ensures Entitled(s, t)
  {
  }

  lemma LedgerTouches(s: State, t: nat)
    requires Entitled(s, t) && (PcOf(s, t).Reserving? || PcOf(s, t).Releasing? || PcOf(s, t).Losing?)
    ensures Shaped(StepWriter(s, t)) && OnlyTouches(s, StepWriter(s, t), t, Touched(s, t))
  {
    WriterShaped(s, t);
  }

  lemma SlotTouches(s: State, t: nat)
    requires Entitled(s, t) && Writing(PcOf(s, t))
    requires !PcOf(s, t).Reserving? && !PcOf(s, t).Releasing? && !PcOf(s, t).Losing?
    ensures Shaped(StepWriter(s, t)) && OnlyTouches(s, StepWriter(s, t), t, Touched(s, t))
  {
    WriterShaped(s, t);
  }

  lemma WriterTouches(s: State, t: nat)
    requires Entitled(s, t) && Writing(PcOf(s, t))
    ensures Shaped(StepWriter(s, t)) && OnlyTouches(s, StepWriter(s, t), t, Touched(s, t))
  {
    if PcOf(s, t).Reserving? || PcOf(s, t).Releasing? || PcOf(s, t).Losing? {
      LedgerTouches(s, t);
    } else {
      SlotTouches(s, t);
    }
  }

  lemma InspectorTouches(s: State, t: nat)
    requires Entitled(s, t) && Inspecting(PcOf(s, t))
    ensures Shaped(StepInspector(s, t)) && OnlyTouches(s, StepInspector(s, t), t, Touched(s, t))
  {
    InspectorShaped(s, t);
  }

  lemma ReserveStep(s: State, t: nat)
    requires Local(s, t) && PcOf(s, t).Reserving?
    ensures GoodStep(s, StepWriter(s, t), t)
  {
    LocalIsEntitled(s, t);
    WriterTouches(s, t);
    var s' := StepWriter(s, t);
    if s'.last > s.last {
      assert s'.fates[..|s'.fates| - 1] == s.fates;
    }
  }

  lemma ClaimStep(s: State, t: nat)
    requires Local(s, t) && PcOf(s, t).Claiming?
    ensures GoodStep(s, StepWriter(s, t), t)
  {
    LocalIsEntitled(s, t);
    WriterTouches(s, t);
  }

  lemma CheckStep(s: State, t: nat)
    requires Local(s, t) && PcOf(s, t).Checking?
    ensures GoodStep(s, StepWriter(s, t), t)
  {
    LocalIsEntitled(s, t);
    WriterTouches(s, t);
  }

  lemma MarkStep(s: State, t: nat)
    requires Local(s, t) && PcOf(s, t).Marking?
    ensures GoodStep(s, StepWriter(s, t), t)
  {
    LocalIsEntitled(s, t);
    WriterTouches(s, t);
  }

  lemma RejectStep(s: State, t: nat)
    requires Local(s, t) && PcOf(s, t).Rejecting?
    ensures GoodStep(s, StepWriter(s, t), t)
  {
    LocalIsEntitled(s, t);
    WriterTouches(s, t);
  }

  lemma FillMore(s: State, t: nat)
    requires Local(s, t) && PcOf(s, t).Filling? && PcOf(s, t).k < FILL_STORES
    ensures GoodStep(s, StepWriter(s, t), t)
    ensures PcOf(StepWriter(s, t), t) != PcOf(s, t)
  {
    LocalIsEntitled(s, t);
    WriterTouches(s, t);
    var pc := PcOf(s, t);
    FillPartAgrees(s.records[Home(pc.r, s.cap)], pc.evt, pc.r, pc.k);
  }

  lemma FillDone(s: State, t: nat)
    requires Local(s, t) && PcOf(s, t).Filling? && PcOf(s, t).k >= FILL_STORES
    ensures GoodStep(s, StepWriter(s, t), t)
    ensures PcOf(StepWriter(s, t), t) != PcOf(s, t)
  {
    LocalIsEntitled(s, t);
    WriterTouches(s, t);
    var pc := PcOf(s, t);
    AgreeIsEqual(s.records[Home(pc.r, s.cap)], Built(pc.evt, pc.r), pc.k);
  }

  lemma FillStep(s: State, t: nat)
    requires Local(s, t) && PcOf(s, t).Filling?
    ensures GoodStep(s, StepWriter(s, t), t)
    ensures PcOf(StepWriter(s, t), t) != PcOf(s, t)
  {
    if PcOf(s, t).k < FILL_STORES { FillMore(s, t); } else { FillDone(s, t); }
  }

  lemma PublishStep(s: State, t: nat)
    requires Local(s, t) && PcOf(s, t).Releasing?
    ensures GoodStep(s, StepWriter(s, t), t)
  {
    LocalIsEntitled(s, t);
    WriterTouches(s, t);
    CountUpdate(s.fates, PcOf(s, t).r - 1, Published, (f: Fate) => f.Published?);
  }

  lemma LoseCounts(s: State, t: nat, r: nat)
    requires Shaped(s) && r <= s.last && CountersOk(s) && (r > 0 ==> s.fates[r - 1] == InFlight(t))
    ensures CountersOk(Lose(s, t, r))
  {
    if r > 0 {
      CountUpdate(s.fates, r - 1, Lost, (f: Fate) => f.Published?);
    }
  }

  lemma LoseStep(s: State, t: nat)
    requires Local(s, t) && PcOf(s, t).Losing?
    ensures GoodStep(s, StepWriter(s, t), t)
  {
    LocalIsEntitled(s, t);
    WriterTouches(s, t);
    LoseCounts(s, t, PcOf(s, t).reserved);
  }

  lemma SeenGrows(s: State, seen: seq<Record>, watermark: nat, i: nat, copy: Record)
    requires Shaped(s) && SeenOk(s, seen, watermark, i)
    requires Genuine(s, copy, watermark) && HomeOf(copy, s.cap) == i
    ensures SeenOk(s, seen + [copy], watermark, i + 1)
    ensures forall x :: x in seen ==> x.sequence != copy.sequence
  {
    forall x | x in seen ensures x.sequence != copy.sequence {
      assert HomeOf(x, s.cap) < i;
    }
    forall a, b | 0 <= a < b < |seen + [copy]|
      ensures HomeOf((seen + [copy])[a], s.cap) < HomeOf((seen + [copy])[b], s.cap)
    {
      assert seen[a] in seen;
    }
  }

  /** Booking a whole record from slot `i` into the window keeps the receipt in order. */
  lemma BookStable(s: State, snap: Snapshot, max: nat, i: nat, copy: Record)
    requires Shaped(s) && i < s.cap && 0 < max && |snap.entries| <= max
    requires ReceiptOk(s, snap, max, i) && Genuine(s, copy, snap.watermark) && HomeOf(copy, s.cap) == i
    ensures ReceiptOk(s, snap.(entries := Insert(snap.entries, max, copy), seen := snap.seen + [copy]), max, i + 1)
  {
    SeenGrows(s, snap.seen, snap.watermark, i, copy);
    InsertKeepsTop(snap.entries, snap.seen, max, copy);
  }

  /** A held, stable, non-empty slot is booked either as after the watermark or into the window. */
  lemma ClassifyKeepsReceipt(s: State, snap: Snapshot, max: nat, i: nat, copy: Record)
    requires Shaped(s) && i < s.cap && 0 < max && Stable(s, i) && s.words[i] != 0
    requires ReceiptOk(s, snap, max, i) && copy == s.records[i] && |snap.entries| <= max
    ensures ReceiptOk(s, Classify(snap, max, i, s.cap, s.words[i], copy), max, i + 1)
  {
    var r := s.words[i] / 2;
    assert copy == Built(s.log[r - 1], r);
    if r <= snap.watermark {
      BookStable(s, snap, max, i, copy);
    } else {
      assert Classify(snap, max, i, s.cap, s.words[i], copy) == snap.(afterWatermark := snap.afterWatermark + 1);
    }
  }

  /** The copy an inspector has finished is booked correctly in the state its step leaves. */
  lemma BookReceipt(s: State, s': State, snap: Snapshot, max: nat, i: nat, copy: Record)
    requires Shaped(s) && i < s.cap && 0 < max && Stable(s, i) && s.words[i] != 0
    requires ReceiptOk(s, snap, max, i) && AgreeUpTo(copy, s.records[i], PAYLOAD_PARTS) && |snap.entries| <= max
    requires Shaped(s') && s.log <= s'.log && s'.cap == s.cap
    ensures ReceiptOk(s', Classify(snap, max, i, s.cap, s.words[i], copy), max, i + 1)
  {
    AgreeIsEqual(copy, s.records[i], PAYLOAD_PARTS);
    ClassifyKeepsReceipt(s, snap, max, i, copy);
    ReceiptStays(s, s', Classify(snap, max, i, s.cap, s.words[i], copy), max, i + 1);
  }

  lemma OpenStep(s: State, t: nat)
    requires Local(s, t) && (PcOf(s, t).Opening? || PcOf(s, t).Sampling?)
    ensures GoodStep(s, StepInspector(s, t), t)
  {
    LocalIsEntitled(s, t);
    InspectorTouches(s, t);
  }

  lemma VisitStep(s: State, t: nat)
    requires Local(s, t) && PcOf(s, t).Visiting?
    ensures GoodStep(s, StepInspector(s, t), t)
  {
    LocalIsEntitled(s, t);
    InspectorTouches(s, t);
    var pc := PcOf(s, t);
    ReceiptStays(s, StepInspector(s, t), pc.snap, pc.max, pc.i);
  }

  lemma LoadStep(s: State, t: nat)
    requires Local(s, t) && PcOf(s, t).Loading?
    ensures GoodStep(s, StepInspector(s, t), t)
  {
    LocalIsEntitled(s, t);
    InspectorTouches(s, t);
    var pc := PcOf(s, t);
    ReceiptStays(s, StepInspector(s, t), pc.snap, pc.max, pc.i);
  }

  lemma CopyStep(s: State, t: nat)
    requires Local(s, t) && PcOf(s, t).Copying? && PcOf(s, t).k < PAYLOAD_PARTS
    ensures GoodStep(s, StepInspector(s, t), t)
  {
    LocalIsEntitled(s, t);
    InspectorTouches(s, t);
    var pc := PcOf(s, t);
    CopyPartAgrees(pc.copy, s.records[pc.i], pc.k);
    ReceiptStays(s, StepInspector(s, t), pc.snap, pc.max, pc.i);
  }

  lemma BookStep(s: State, t: nat)
    requires Local(s, t) && PcOf(s, t).Copying? && PcOf(s, t).k == PAYLOAD_PARTS
    ensures GoodStep(s, StepInspector(s, t), t)
  {
    LocalIsEntitled(s, t);
    InspectorTouches(s, t);
    var pc := PcOf(s, t);
    BookReceipt(s, StepInspector(s, t), pc.snap, pc.max, pc.i, pc.copy);
  }

  lemma LeaveStep(s: State, t: nat)
    requires Local(s, t) && PcOf(s, t).Leaving?
    ensures GoodStep(s, StepInspector(s, t), t)
  {
    LocalIsEntitled(s, t);
    InspectorTouches(s, t);
    var pc := PcOf(s, t);
    ReceiptStays(s, StepInspector(s, t), pc.snap, pc.max, pc.i + 1);
  }

  lemma StartStep(s: State, a: Action)
    requires Local(s, a.t) && !a.Advance? && Ready(PcOf(s, a.t))
    ensures GoodStep(s, Apply(s, a), a.t)
  {
    ApplyShaped(s, a);
  }

  lemma WriterStep(s: State, t: nat)
    requires Local(s, t) && Writing(PcOf(s, t))
    ensures GoodStep(s, StepWriter(s, t), t)
  {
    var pc := PcOf(s, t);
    if pc.Reserving? { ReserveStep(s, t); }
    else if pc.Claiming? { ClaimStep(s, t); }
    else if pc.Checking? { CheckStep(s, t); }
    else if pc.Marking? { MarkStep(s, t); }
    else if pc.Filling? { FillStep(s, t); }
    else if pc.Releasing? { PublishStep(s, t); }
    else if pc.Rejecting? { RejectStep(s, t); }
    else { LoseStep(s, t); }
  }

  lemma InspectorStep(s: State, t: nat)
    requires Local(s, t) && Inspecting(PcOf(s, t))
    ensures GoodStep(s, StepInspector(s, t), t)
  {
    var pc := PcOf(s, t);
    if pc.Visiting? { VisitStep(s, t); }
    else if pc.Loading? { LoadStep(s, t); }
    else if pc.Leaving? { LeaveStep(s, t); }
    else if pc.Copying? {
      assert PcShape(pc, s.cap, s.last);
      if pc.k < PAYLOAD_PARTS { CopyStep(s, t); } else { BookStep(s, t); }
    }
    else { OpenStep(s, t); }
  }

  lemma EveryPc(s: State, t: nat)
    requires Shaped(s)
    ensures Ready(PcOf(s, t)) || Writing(PcOf(s, t)) || Inspecting(PcOf(s, t))
    ensures Writing(PcOf(s, t)) ==> Apply(s, Advance(t)) == StepWriter(s, t)
    ensures Inspecting(PcOf(s, t)) ==> Apply(s, Advance(t)) == StepInspector(s, t)
    ensures Ready(PcOf(s, t)) ==> Apply(s, Advance(t)) == s
  {
  }

  // ----- the invariant over steps and runs -----

  /** A slot has an owner exactly when it is marked as claimed. */
  lemma ClaimedHasOwner(s: State, i: nat)
    requires Inv(s) && i < s.cap
    ensures s.owners[i] == None <==> s.access[i] == 0
  {
    assert SlotOk(s, i);
    if s.owners[i].Some? {
      assert ThreadOk(s, s.owners[i].value);
    }
  }

  lemma LocalView(s: State, t: nat)
    requires Inv(s)
    ensures Local(s, t)
  {
    assert ThreadOk(s, t);
    forall q | 0 <= q < s.last ensures s.fates[q] == InFlight(t) <==> q + 1 == Reserved(PcOf(s, t)) {
      assert FateOk(s, q + 1);
    }
    if Touched(s, t).Some? {
      assert SlotOk(s, Touched(s, t).value);
      ClaimedHasOwner(s, Touched(s, t).value);
    }
  }

  /** The invariant of the protocol is kept by every step of every thread. */
  lemma ApplyKeepsInv(s: State, a: Action)
    requires Inv(s)
    ensures Inv(Apply(s, a))
  {
    LocalView(s, a.t);
    EveryPc(s, a.t);
    if Ready(PcOf(s, a.t)) == !a.Advance? {
      if !a.Advance? { StartStep(s, a); }
      else if Writing(PcOf(s, a.t)) { WriterStep(s, a.t); }
      else { InspectorStep(s, a.t); }
      StepKeepsInv(s, Apply(s, a), a.t, Touched(s, a.t));
    }
  }

  lemma InitInv(cap: nat, records: seq<Record>)
    requires 0 < cap == |records|
    ensures Inv(Init(cap, records))
  {
  }

  // ----- whole runs -----

  /** The invariant holds after every run, however threads interleave or stop. */
  lemma {:induction false} RunInv(s: State, actions: seq<Action>)
    requires Inv(s)
    ensures Inv(Exec(s, actions))
    decreases |actions|
  {
    if actions != [] {
      ApplyKeepsInv(s, actions[0]);
      RunInv(Apply(s, actions[0]), actions[1..]);
    }
  }
}
